/** What whole runs of recording calls, and lineages of linked histories, certify about the source. */
module HistoryRuns {
  import opened Foundations
  import opened ChainRows
  import opened FragmentedRow
  import opened FragmentProgress

  /** One recording call: the disk it found, and its arguments. */
  datatype Call = Call(files: Disk, receipts: seq<Receipt>, pin: Option<string>, limit: nat)

  function Result(l: Ledger, c: Call): (RecordResult, Disk) {
    RecordSpec(l, c.files, c.receipts, c.pin, c.limit)
  }

  /**
    A run of successful calls on one ledger. The first finds no file, and each later one finds
    the file its predecessor left; anything else on disk may have changed in between. Every call
    verified fragments that held their source ranges at that time.
   */
  ghost predicate RecordRun(l: Ledger, src: Bytes, calls: seq<Call>) {
    |calls| > 0
    && calls[0].pin == None
    && (forall i :: 0 <= i < |calls| ==>
          Result(l, calls[i]).0.Recorded? && FilesMatch(calls[i].files, src, Inputs(calls[i].receipts)))
    && (forall i, j :: 0 < i < |calls| && j == i - 1 ==> Follows(l, calls[j], calls[i]))
  }

  /** The second call finds the progress file the first one left. */
  predicate Follows(l: Ledger, first: Call, second: Call) {
    l.path in second.files && l.path in Result(l, first).1
    && second.files[l.path] == Result(l, first).1[l.path]
  }

  /** A progress file that certifies the source from the anchor to its cursor. */
  ghost predicate Certifies(l: Ledger, src: Bytes, payload: Bytes, steps: nat, cursor: Cursor) {
    match l.doc.load(payload)
    case None => false
    case Some(h) =>
      && |h.steps| == steps
      && StateCursor(l, h) == Some(cursor)
      && StepsSound(l.codec, src, h.steps)
      && Extension(l.codec, src, l.anchor, cursor)
  }

  /**
    Soundness of every reachable progress file: after n calls it holds n sound steps, one pass
    over the source from the anchor ends at its cursor, and the pin returned is the file's own.
   */
  lemma {:induction false} RunCertifies(l: Ledger, src: Bytes, calls: seq<Call>)
    requires Faithful(l.doc) && l.anchor.offset <= |src|
    requires RecordRun(l, src, calls)
    ensures var (r, files) := Result(l, calls[|calls| - 1]);
            r.Recorded? && l.path in files
            && Certifies(l, src, files[l.path], |calls|, r.next)
            && r.pin == l.codec.sha256(files[l.path])
    decreases |calls|
  {
    hide Certifies, RecordSpec;
    var n := |calls| - 1;
    var last := calls[n];
    if n == 0 {
      FirstFindsNothing(l, last);
      CallCertifies(l, src, last, 0, l.anchor);
    } else {
      RunCertifies(l, src, calls[..n]);
      assert Follows(l, calls[n - 1], last);
      CallCertifies(l, src, last, n, Result(l, calls[n - 1]).0.next);
    }
  }

  /** A call without a pin succeeds only when there is no file yet. */
  lemma {:induction false} FirstFindsNothing(l: Ledger, call: Call)
    requires Result(l, call).0.Recorded? && call.pin == None
    ensures l.path !in call.files
  {
  }

  /** One more call on a certifying file leaves a certifying file. */
  lemma {:induction false} CallCertifies(l: Ledger, src: Bytes, call: Call, n: nat, cursor: Cursor)
    requires Faithful(l.doc) && l.anchor.offset <= |src|
    requires Result(l, call).0.Recorded? && FilesMatch(call.files, src, Inputs(call.receipts))
    requires if l.path in call.files then Certifies(l, src, call.files[l.path], n, cursor) else n == 0
    ensures var (r, files) := Result(l, call);
            l.path in files && Certifies(l, src, files[l.path], n + 1, r.next)
            && r.pin == l.codec.sha256(files[l.path])
  {
    RecordedStepSound(l, call.files, src, call.receipts, call.pin, call.limit);
    var h := ReadHistory(l, call.files, call.pin).value;
    var h1 := l.doc.load(Result(l, call).1[l.path]).value;
    assert h1.steps[..n] == h.steps;
    assert StepsSound(l.codec, src, h1.steps) by {
      forall i | 0 <= i < |h1.steps| ensures StepSound(l.codec, src, h1.steps[i]) {
        if i < n { assert h1.steps[i] == h.steps[i]; }
      }
    }
    StepsCertify(l.codec, src, h1.steps, l.anchor, l.extent);
  }

  /** In a run, each call's pin is the pin its predecessor returned. */
  lemma {:induction false} RunChainsPins(l: Ledger, src: Bytes, calls: seq<Call>, i: nat)
    requires Faithful(l.doc) && RecordRun(l, src, calls) && 0 < i < |calls|
    ensures calls[i].pin == Some(Result(l, calls[i - 1]).0.pin)
  {
    hide FragmentVerdict, StateCursor;
    var before := calls[i - 1];
    assert Result(l, before).0.Recorded?;
    RecordedStepSound(l, before.files, src, before.receipts, before.pin, before.limit);
    assert Result(l, calls[i]).0.Recorded?;
    assert Follows(l, before, calls[i]);
  }

  // ----- Lineages -----

  /** A full history and the empty child anchored where it ends; later members may be partly filled. */
  datatype Member = Member(ledger: Ledger, history: History)

  ghost predicate Lineage(codec: Codec, src: Bytes, members: seq<Member>) {
    |members| > 0
    && (forall i :: 0 <= i < |members| ==>
          var m := members[i];
          m.ledger.codec == codec
          && StateCursor(m.ledger, m.history).Some? && StepsSound(codec, src, m.history.steps))
    && (forall i :: 0 < i < |members| ==>
          Some(members[i].ledger.anchor) == StateCursor(members[i - 1].ledger, members[i - 1].history))
  }

  function Tip(m: Member): Cursor
    requires StateCursor(m.ledger, m.history).Some?
  {
    StateCursor(m.ledger, m.history).value
  }

  /** A lineage certifies the source from its first anchor to its last cursor, as one pass would. */
  lemma {:induction false} LineageCertifies(codec: Codec, src: Bytes, members: seq<Member>)
    requires Lineage(codec, src, members) && members[0].ledger.anchor.offset <= |src|
    ensures Extension(codec, src, members[0].ledger.anchor, Tip(members[|members| - 1]))
    decreases |members|
  {
    var n := |members| - 1;
    var last := members[n];
    if n > 0 {
      LineageCertifies(codec, src, members[..n]);
      assert members[..n][n - 1] == members[n - 1];
    }
    StepsCertify(codec, src, last.history.steps, last.ledger.anchor, last.ledger.extent);
    if n > 0 {
      ExtensionsCompose(codec, src, members[0].ledger.anchor, last.ledger.anchor, Tip(last));
    }
  }
}
