/** Linking a full parent history to an empty child that starts where the parent ends. */
module FragmentRollover {
  import opened Foundations
  import opened ChainRows
  import opened FragmentedRow
  import opened FragmentProgress

  datatype Link = Link(
    parentTitle: string,
    parentPin: string,
    parentAnchor: Cursor,
    parentEvidence: string,
    extent: nat,
    childTitle: string,
    childAnchor: Cursor,
    retained: seq<Input>)

  /** The inputs from the one that contains the cursor onwards; none when the cursor is past them all. */
  function SuffixOf(inputs: seq<Input>, cursor: Cursor): (suffix: seq<Input>)
    ensures |suffix| <= |inputs| && suffix == inputs[|inputs| - |suffix|..]
    ensures suffix != [] ==> suffix[0].offset <= cursor.offset < suffix[0].end
  {
    if inputs == [] then []
    else if inputs[0].offset <= cursor.offset < inputs[0].end then inputs
    else SuffixOf(inputs[1..], cursor)
  }

  /** The raw inputs a history leaves for the next step. */
  function Retained(h: History, cursor: Cursor): seq<Input> {
    if h.steps == [] then [] else SuffixOf(h.steps[|h.steps| - 1].inputs, cursor)
  }

  function ReadMetadata(files: Disk, name: Name, pin: string, c: Codec): Option<Bytes> {
    if name in files && |files[name]| <= MAX_METADATA && c.sha256(files[name]) == pin then Some(files[name]) else None
  }

  function ParentLedger(l: Ledger, link: Link): Ledger {
    l.(path := ProgressFile(link.parentTitle), anchor := link.parentAnchor, evidence := link.parentEvidence)
  }

  /** The inputs a child may start from, once its link and its full parent have been checked. */
  function LoadRollover(l: Ledger, links: Doc<Link>, files: Disk): Option<seq<Input>> {
    if !l.path.ProgressFile? then None
    else
      match ReadMetadata(files, LinkFile(l.path.title), l.evidence, l.codec)
      case None => None
      case Some(raw) =>
        match links.load(raw)
        case None => None
        case Some(link) => LoadParent(l, link, files)
  }

  function LoadParent(l: Ledger, link: Link, files: Disk): Option<seq<Input>>
    requires l.path.ProgressFile?
  {
    if link.childTitle != l.path.title || link.childAnchor != l.anchor || link.extent != l.extent
       || link.parentTitle == link.childTitle || !IsHash(link.parentPin) || !IsHash(link.parentEvidence) then None
    else
      match ReadHistory(ParentLedger(l, link), files, Some(link.parentPin))
      case None => None
      case Some(h) =>
        if |h.steps| == MAX_STEPS && StateCursor(ParentLedger(l, link), h) == Some(l.anchor)
           && l.anchor.offset < l.extent && link.retained == Retained(h, l.anchor)
        then Some(link.retained) else None
  }

  /** RolledOver names the child's ledger and the pin of its empty history. */
  datatype RolloverResult = RolledOver(child: Ledger, pin: string) | RolloverRefused | RolloverStopped

  /** What one rollover request asks for; `parent` is the parent's own ledger. */
  datatype Rollover = Rollover(parent: Ledger, links: Doc<Link>, pin: string, childTitle: string)

  function LinkFor(r: Rollover, h: History, cursor: Cursor): Link
    requires r.parent.path.ProgressFile?
  {
    Link(r.parent.path.title, r.pin, r.parent.anchor, r.parent.evidence, r.parent.extent,
         r.childTitle, cursor, Retained(h, cursor))
  }

  /** The two artifacts a rollover publishes. */
  datatype Artifacts = Artifacts(link: Bytes, child: Ledger, payload: Bytes)

  function ArtifactsFor(r: Rollover, h: History, cursor: Cursor): Artifacts
    requires r.parent.path.ProgressFile?
  {
    var link := r.links.dump(LinkFor(r, h, cursor));
    var evidence := r.parent.codec.sha256(link);
    var child := r.parent.(path := ProgressFile(r.childTitle), anchor := cursor, evidence := evidence);
    Artifacts(link, child, r.parent.doc.dump(History(cursor, evidence, r.parent.extent, [])))
  }

  /** The artifacts, when the parent is full, unfinished and pinned, and they fit; None when the call raises. */
  function PlanRollover(r: Rollover, files: Disk): Option<Artifacts> {
    if !r.parent.path.ProgressFile? || r.parent.path.title == r.childTitle
       || !IsHash(r.parent.anchor.lastHash) || !IsHash(r.parent.evidence) || !IsHash(r.pin)
       || r.parent.extent <= r.parent.anchor.offset then None
    else
      match ReadHistory(r.parent, files, Some(r.pin))
      case None => None
      case Some(h) =>
        match StateCursor(r.parent, h)
        case None => None
        case Some(cursor) =>
          if |h.steps| != MAX_STEPS || cursor.offset >= r.parent.extent then None
          else
            var a := ArtifactsFor(r, h, cursor);
            if |a.link| <= MAX_METADATA && |a.payload| <= MAX_METADATA then Some(a) else None
  }

  /** Publishing exactly these bytes: existing different bytes refuse, existing equal bytes do nothing. */
  predicate MayPublish(files: Disk, name: Name, payload: Bytes) {
    name in files ==> files[name] == payload
  }

  function RolloverSpec(r: Rollover, files: Disk): (RolloverResult, Disk) {
    match PlanRollover(r, files)
    case None => (RolloverRefused, files)
    case Some(a) =>
      if !MayPublish(files, a.child.path, a.payload) || !MayPublish(files, LinkFile(r.childTitle), a.link) then
        (RolloverRefused, files)
      else
        (RolledOver(a.child, r.parent.codec.sha256(a.payload)),
         files[LinkFile(r.childTitle) := a.link][a.child.path := a.payload])
  }

  /** Every disk a rollover can leave behind: nothing yet, the link alone, or both artifacts. */
  predicate RolloverStage(r: Rollover, files: Disk, files': Disk) {
    files' == files
    || match PlanRollover(r, files)
       case None => false
       case Some(a) =>
         MayPublish(files, a.child.path, a.payload) && MayPublish(files, LinkFile(r.childTitle), a.link)
         && (files' == files[LinkFile(r.childTitle) := a.link]
             || files' == files[LinkFile(r.childTitle) := a.link][a.child.path := a.payload])
  }

  method PublishExact(store: Store, name: Name, payload: Bytes, quiet: bool) returns (published: Option<bool>)
    requires |payload| <= MAX_METADATA
    modifies store`files
    ensures quiet ==> published.Some?
    ensures published == Some(true) ==>
              MayPublish(old(store.files), name, payload) && store.files == old(store.files)[name := payload]
    ensures published == Some(false) ==> !MayPublish(old(store.files), name, payload)
    ensures published != Some(true) ==> store.files == old(store.files)
  {
    if name in store.files {
      if store.files[name] != payload { return Some(false); }
      assert store.files == store.files[name := payload];
      return Some(true);
    }
    if !quiet { if * { return None; } }
    store.files := store.files[name := payload];
    return Some(true);
  }

  /** One request, under both canonical locks, which are released whatever happens. */
  method RolloverFragmentHistory(store: Store, r: Rollover, quiet: bool) returns (result: RolloverResult)
    modifies store
    ensures store.locks == old(store.locks)
    ensures RolloverStage(r, old(store.files), store.files)
    ensures result.RolloverRefused? ==> store.files == old(store.files)
    ensures quiet ==> !result.RolloverStopped?
    ensures old(store.locks) == {} && !result.RolloverStopped? ==>
              (result, store.files) == RolloverSpec(r, old(store.files))
  {
    if !quiet { if * { return RolloverStopped; } }
    if StepLock in store.locks { return RolloverRefused; }
    store.locks := store.locks + {StepLock};
    if SegmentLock in store.locks {
      store.locks := store.locks - {StepLock};
      return RolloverRefused;
    }
    store.locks := store.locks + {SegmentLock};
    result := RolloverLocked(store, r, quiet);
    store.locks := store.locks - {SegmentLock};
    store.locks := store.locks - {StepLock};
  }

  method RolloverLocked(store: Store, r: Rollover, quiet: bool) returns (result: RolloverResult)
    modifies store`files
    ensures quiet ==> !result.RolloverStopped?
    ensures RolloverStage(r, old(store.files), store.files)
    ensures result.RolloverRefused? ==> store.files == old(store.files)
    ensures !result.RolloverStopped? ==> (result, store.files) == RolloverSpec(r, old(store.files))
  {
    if !quiet { if * { return RolloverStopped; } }
    var plan := PlanRollover(r, store.files);
    if plan.None? { return RolloverRefused; }
    var a := plan.value;
    var linkName := LinkFile(r.childTitle);
    if a.child.path in store.files && store.files[a.child.path] != a.payload { return RolloverRefused; }
    if !quiet { if * { return RolloverStopped; } }
    var linked := PublishExact(store, linkName, a.link, quiet);
    match linked {
      case None => return RolloverStopped;
      case Some(ok) => if !ok { return RolloverRefused; }
    }
    if !quiet { if * { return RolloverStopped; } }
    var published := PublishExact(store, a.child.path, a.payload, quiet);
    match published {
      case None => return RolloverStopped;
      case Some(ok) => assert ok;
    }
    if !quiet { if * { return RolloverStopped; } }
    return RolledOver(a.child, r.parent.codec.sha256(a.payload));
  }

  // ----- Rollover changes nothing but where the history is kept -----

  /** Only the link and the child are ever written: the plan reads neither. */
  lemma {:induction false} PlanIgnoresArtifacts(r: Rollover, files: Disk, files': Disk)
    requires RolloverStage(r, files, files')
    ensures PlanRollover(r, files') == PlanRollover(r, files)
    ensures forall n :: n in files && n != LinkFile(r.childTitle) && n != ProgressFile(r.childTitle) ==>
              n in files' && files'[n] == files[n]
  {
    hide ArtifactsFor, StateCursor;
  }

  lemma {:induction false} PlanNamesChild(r: Rollover, files: Disk)
    requires PlanRollover(r, files).Some?
    ensures PlanRollover(r, files).value.child.path == ProgressFile(r.childTitle)
  {
  }

  /**
    Rerunning after any interruption: from every disk an earlier attempt can leave, the request
    ends exactly as it would have from the first disk, with byte-identical link and child.
   */
  lemma {:induction false} RerunIsIdentical(r: Rollover, files: Disk, files': Disk)
    requires RolloverStage(r, files, files')
    ensures RolloverSpec(r, files') == (RolloverSpec(r, files).0,
                                        if RolloverSpec(r, files).0.RolledOver? then RolloverSpec(r, files).1 else files')
  {
    hide PlanRollover;
    PlanIgnoresArtifacts(r, files, files');
    var plan := PlanRollover(r, files);
    if plan.Some? {
      var a := plan.value;
      PlanNamesChild(r, files);
      if files' != files {
        assert files'[LinkFile(r.childTitle) := a.link][a.child.path := a.payload]
            == files[LinkFile(r.childTitle) := a.link][a.child.path := a.payload];
      }
    }
  }

  /** What an interrupted rerun leaves, an interrupted first attempt could have left. */
  lemma {:induction false} StagesCompose(r: Rollover, a: Disk, b: Disk, d: Disk)
    requires RolloverStage(r, a, b) && RolloverStage(r, b, d)
    ensures RolloverStage(r, a, d)
  {
    hide PlanRollover;
    PlanIgnoresArtifacts(r, a, b);
    if PlanRollover(r, a).Some? { PlanNamesChild(r, a); }
  }

  /** Any number of rollovers, each stopped anywhere: what each of them leaves. */
  ghost predicate RolloverRun(r: Rollover, ds: seq<Disk>) {
    |ds| > 0 && forall i :: 0 <= i < |ds| - 1 ==> RolloverStepAt(r, ds, i)
  }

  predicate RolloverStepAt(r: Rollover, ds: seq<Disk>, i: nat)
    requires i < |ds| - 1
  {
    RolloverStage(r, ds[i], ds[i + 1])
  }

  /**
    After any number of interruptions, at any points, the next rollover ends exactly as the first
    would have ended undisturbed, with byte-identical link and child.
   */
  lemma {:induction false} RerunsAreIdentical(r: Rollover, ds: seq<Disk>)
    requires RolloverRun(r, ds)
    ensures RolloverStage(r, ds[0], ds[|ds| - 1])
    ensures RolloverSpec(r, ds[0]).0.RolledOver? ==> RolloverSpec(r, ds[|ds| - 1]) == RolloverSpec(r, ds[0])
    decreases |ds|
  {
    hide RolloverSpec, RolloverStage;
    if |ds| == 1 {
      StageOfItself(r, ds[0]);
    } else {
      var before := ds[..|ds| - 1];
      forall i | 0 <= i < |before| - 1 ensures RolloverStepAt(r, before, i) { assert RolloverStepAt(r, ds, i); }
      RerunsAreIdentical(r, before);
      assert RolloverStepAt(r, ds, |ds| - 2);
      StagesCompose(r, ds[0], ds[|ds| - 2], ds[|ds| - 1]);
      RerunIsIdentical(r, ds[0], ds[|ds| - 1]);
    }
  }

  lemma {:induction false} StageOfItself(r: Rollover, files: Disk)
    ensures RolloverStage(r, files, files)
  {
  }

  /** The parent's file is never changed. */
  lemma {:induction false} ParentUnchanged(r: Rollover, files: Disk, files': Disk)
    requires RolloverStage(r, files, files') && PlanRollover(r, files).Some?
    ensures r.parent.path in files && r.parent.path in files' && files'[r.parent.path] == files[r.parent.path]
  {
  }

  /** A child that holds anything but the empty history for this parent is refused and kept. */
  lemma {:induction false} AdvancedChildRefused(r: Rollover, files: Disk, h: History)
    requires Faithful(r.parent.doc)
    requires ProgressFile(r.childTitle) in files
    requires r.parent.doc.load(files[ProgressFile(r.childTitle)]) == Some(h) && h.steps != []
    ensures RolloverSpec(r, files) == (RolloverRefused, files)
  {
    if PlanRollover(r, files).Some? {
      var cursor := StateCursor(r.parent, ReadHistory(r.parent, files, Some(r.pin)).value).value;
      var evidence := PlanRollover(r, files).value.child.evidence;
      assert ReadsBack(r.parent.doc, History(cursor, evidence, r.parent.extent, []));
    }
  }

  /**
    Transparency: the child starts at the parent's cursor, and loading its link yields exactly
    the inputs the parent itself would have retained for one more step.
   */
  lemma {:induction false} ChildStartsWhereParentEnds(r: Rollover, files: Disk)
    requires Faithful(r.parent.doc) && Faithful(r.links)
    requires RolloverSpec(r, files).0.RolledOver?
    ensures var (result, files') := RolloverSpec(r, files);
            var child := result.child;
            ReadHistory(r.parent, files, Some(r.pin)).Some? &&
            var h := ReadHistory(r.parent, files, Some(r.pin)).value;
            var empty := ReadHistory(child, files', Some(result.pin));
            && StateCursor(r.parent, h) == Some(child.anchor)
            && empty == Some(History(child.anchor, child.evidence, child.extent, []))
            && StateCursor(child, empty.value) == StateCursor(r.parent, h)
            && LoadRollover(child, r.links, files') == Some(Retained(h, child.anchor))
  {
    hide EndCursor, LoadRollover, Retained;
    var h := ReadHistory(r.parent, files, Some(r.pin)).value;
    CursorIsHash(h.steps, r.parent.anchor, r.parent.extent);
    NoStepsYet(r.parent.extent);
    var a := PlanRollover(r, files).value;
    assert ReadsBack(r.parent.doc, History(a.child.anchor, a.child.evidence, r.parent.extent, []));
    ChildLoadsParent(r, files);
  }

  lemma {:induction false} NoStepsYet(extent: nat)
    ensures forall anchor: Cursor :: EndCursor([], anchor, extent) == Some(anchor)
  {
  }

  lemma {:induction false} ChildLoadsParent(r: Rollover, files: Disk)
    requires Faithful(r.parent.doc) && Faithful(r.links)
    requires RolloverSpec(r, files).0.RolledOver?
    ensures var (result, files') := RolloverSpec(r, files);
            ReadHistory(r.parent, files, Some(r.pin)).Some?
            && LoadRollover(result.child, r.links, files')
               == Some(Retained(ReadHistory(r.parent, files, Some(r.pin)).value, result.child.anchor))
  {
    hide EndCursor, Retained;
    var h := ReadHistory(r.parent, files, Some(r.pin)).value;
    var cursor := StateCursor(r.parent, h).value;
    var a := ArtifactsFor(r, h, cursor);
    var link := LinkFor(r, h, cursor);
    assert ParentLedger(a.child, link) == r.parent;
    assert ReadsBack(r.links, link);
    assert LoadParent(a.child, link, RolloverSpec(r, files).1) == Some(link.retained);
  }
}
