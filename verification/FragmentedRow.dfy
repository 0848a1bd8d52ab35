/** Verification of a batch of rows across one or two preserved raw fragments. */
module FragmentedRow {
  import opened Foundations
  import opened ChainRows

  /** One preserved raw range: its file, its place in the source and its digest. */
  datatype Input = Input(name: Name, offset: nat, end: nat, size: nat, extent: nat, sha: string)

  /** A range as handed to a verifier; `staged` when its status is the one staging returns. */
  datatype Receipt = Receipt(staged: bool, input: Input)

  /**
    Refused: the call raises. Blocked: a guard stopped it. Otherwise the status returned, with
    the end cursor and the digest of the verified bytes when rows were verified.
   */
  datatype Verdict = Refused | Blocked | Rejected | NoCompleteRow | Verified(next: Cursor, sha: string)

  function Inputs(receipts: seq<Receipt>): (inputs: seq<Input>)
    ensures |inputs| == |receipts|
    ensures forall i :: 0 <= i < |receipts| ==> inputs[i] == receipts[i].input
  {
    if receipts == [] then [] else [receipts[0].input] + Inputs(receipts[1..])
  }

  function AsReceipts(inputs: seq<Input>): (receipts: seq<Receipt>)
    ensures |receipts| == |inputs|
    ensures forall i :: 0 <= i < |inputs| ==> receipts[i] == Receipt(true, inputs[i])
    ensures Inputs(receipts) == inputs
  {
    if inputs == [] then [] else [Receipt(true, inputs[0])] + AsReceipts(inputs[1..])
  }

  predicate PolicyOk(cursor: Cursor, receipts: seq<Receipt>, limit: nat) {
    IsHash(cursor.lastHash)
    && (cursor.offset == 0 ==> cursor.sequence == 0 && cursor.lastHash == GENESIS)
    && 1 <= |receipts| <= 2
    && 1 <= limit <= 256
  }

  predicate RangeOk(r: Input) {
    1 <= r.size <= MAX_WINDOW && r.end == r.offset + r.size && r.end <= r.extent
    && IsHash(r.sha) && IsRawName(r.name)
  }

  /** One or two well-formed receipts; the first contains the cursor and the second continues it. */
  predicate ReceiptsOk(receipts: seq<Receipt>, cursor: Cursor) {
    1 <= |receipts| <= 2
    && receipts[0].staged && RangeOk(receipts[0].input)
    && receipts[0].input.offset <= cursor.offset < receipts[0].input.end
    && (|receipts| == 2 ==>
          receipts[1].staged && RangeOk(receipts[1].input)
          && receipts[1].input.offset == receipts[0].input.end
          && receipts[1].input.extent == receipts[0].input.extent
          && receipts[1].input.name != receipts[0].input.name)
  }

  /** The file of a fragment is there, has its recorded size and its recorded digest. */
  predicate Intact(c: Codec, files: Disk, r: Input) {
    r.name in files && |files[r.name]| == r.size && c.sha256(files[r.name]) == r.sha
  }

  /** The fragments' bytes in order, when every one of them is intact. */
  function Joined(c: Codec, files: Disk, inputs: seq<Input>): Option<Bytes> {
    if inputs == [] then Some([])
    else if !Intact(c, files, inputs[0]) then None
    else
      match Joined(c, files, inputs[1..])
      case None => None
      case Some(rest) => Some(files[inputs[0].name] + rest)
  }

  function Concluded(c: Codec, data: Bytes, cursor: Cursor, scan: Scan): Verdict
    requires scan.Chained? ==> cursor.offset <= scan.next.offset <= cursor.offset + |data|
  {
    match scan
    case Broken => Rejected
    case Chained(next) =>
      if next.sequence == cursor.sequence then NoCompleteRow
      else Verified(next, c.sha256(data[..next.offset - cursor.offset]))
  }

  function JoinedVerdict(c: Codec, data: Bytes, skip: nat, cursor: Cursor, limit: nat): Verdict
    requires skip <= |data|
  {
    if skip > 0 && data[skip - 1] != NEWLINE then Rejected
    else Concluded(c, data[skip..], cursor, ScanRows(c, data[skip..], cursor.offset, cursor, limit))
  }

  /** What the verifier concludes when no guard stops it. */
  function FragmentVerdict(c: Codec, files: Disk, receipts: seq<Receipt>, cursor: Cursor, limit: nat): Verdict {
    if !PolicyOk(cursor, receipts, limit) then Refused
    else if !ReceiptsOk(receipts, cursor) then Rejected
    else
      match Joined(c, files, Inputs(receipts))
      case None => Rejected
      case Some(data) =>
        var skip := cursor.offset - receipts[0].input.offset;
        if skip > |data| then Rejected else JoinedVerdict(c, data, skip, cursor, limit)
  }

  // ----- The verifier itself -----

  /** A guarded read of a whole file in bounded blocks; in a quiet call no guard fires. */
  method ReadBlocks(content: Bytes, quiet: bool) returns (admitted: bool, data: Bytes)
    ensures admitted ==> data == content
    ensures quiet ==> admitted
  {
    data := [];
    var remaining := |content|;
    while remaining > 0
      invariant 0 <= remaining <= |content| && data == content[..|content| - remaining]
    {
      if !quiet { if * { return false, data; } }
      var amount := Min(BLOCK, remaining);
      data := data + content[|data|..|data| + amount];
      remaining := remaining - amount;
    }
    return true, data;
  }

  datatype Walk = Stopped | Walked(scan: Scan)

  /** The row loop both verifiers run over the bytes they have read. */
  method WalkRows(c: Codec, data: Bytes, cursor: Cursor, limit: nat, quiet: bool) returns (w: Walk)
    ensures quiet ==> w.Walked?
    ensures w.Walked? ==> w.scan == ScanRows(c, data, cursor.offset, cursor, limit)
  {
    hide RowDigest, ScanRows;
    var position, sequence, previous, checked := 0, cursor.sequence, cursor.lastHash, 0;
    while checked < limit
      invariant 0 <= checked <= limit && 0 <= position <= |data| && sequence >= 0
      invariant ScanRows(c, data, cursor.offset, cursor, limit)
             == ScanRows(c, data, cursor.offset, Cursor(cursor.offset + position, sequence, previous), limit - checked)
    {
      if !quiet { if * { return Stopped; } }
      ScanUnfolds(c, data, cursor.offset, Cursor(cursor.offset + position, sequence, previous), limit - checked);
      var end := FindNewline(data, position);
      if end == |data| {
        break;
      }
      var digest := RowDigest(c, data[position..end + 1], sequence, previous);
      if digest.None? {
        return Walked(Broken);
      }
      checked, sequence, previous, position := checked + 1, sequence + 1, digest.value, end + 1;
    }
    ScanUnfolds(c, data, cursor.offset, Cursor(cursor.offset + position, sequence, previous), limit - checked);
    return Walked(Chained(Cursor(cursor.offset + position, sequence, previous)));
  }

  lemma {:induction false} ScanUnfolds(c: Codec, data: Bytes, base: nat, cur: Cursor, limit: nat)
    requires base <= cur.offset <= base + |data|
    ensures ScanRows(c, data, base, cur, limit)
         == if limit == 0 then Chained(cur)
            else match NextRow(c, data, base, cur)
                 case Incomplete => Chained(cur)
                 case Mismatch => Broken
                 case Linked(next) => ScanRows(c, data, base, next, limit - 1)
  {
  }

  method ReadFragments(c: Codec, files: Disk, inputs: seq<Input>, quiet: bool)
      returns (admitted: bool, joined: Option<Bytes>)
    ensures quiet ==> admitted
    ensures admitted ==> joined == Joined(c, files, inputs)
  {
    var blocks: Bytes := [];
    var i := 0;
    assert inputs[0..] == inputs;
    assert forall rest: Bytes :: [] + rest == rest;
    while i < |inputs|
      invariant 0 <= i <= |inputs|
      invariant match Joined(c, files, inputs[i..])
                case None => Joined(c, files, inputs).None?
                case Some(rest) => Joined(c, files, inputs) == Some(blocks + rest)
    {
      if !quiet { if * { return false, None; } }
      var r := inputs[i];
      assert inputs[i..][0] == r && inputs[i..][1..] == inputs[i + 1..];
      if r.name !in files || |files[r.name]| != r.size {
        return true, None;
      }
      var ok, data := ReadBlocks(files[r.name], quiet);
      if !ok { return false, None; }
      if c.sha256(data) != r.sha {
        return true, None;
      }
      ghost var before := blocks;
      blocks := blocks + data;
      assert forall rest: Bytes :: before + (data + rest) == blocks + rest;
      i := i + 1;
    }
    assert inputs[i..] == [];
    assert blocks + [] == blocks;
    return true, Some(blocks);
  }

  /**
    Read-only. Unless the call is quiet any guard may stop it, and then the cursor has not moved;
    otherwise the verdict is the one the bytes determine, whatever the block boundaries of the reads.
   */
  method VerifyFragmentedRow(c: Codec, files: Disk, receipts: seq<Receipt>, cursor: Cursor, limit: nat, quiet: bool)
      returns (v: Verdict)
    ensures quiet ==> v == FragmentVerdict(c, files, receipts, cursor, limit)
    ensures v == Blocked || v == FragmentVerdict(c, files, receipts, cursor, limit)
    ensures v == Refused <==> !PolicyOk(cursor, receipts, limit)
  {
    if !PolicyOk(cursor, receipts, limit) { return Refused; }
    if !ReceiptsOk(receipts, cursor) { return Rejected; }
    var admitted, joined := ReadFragments(c, files, Inputs(receipts), quiet);
    if !admitted { return Blocked; }
    if joined.None? { return Rejected; }
    var data := joined.value;
    var skip := cursor.offset - receipts[0].input.offset;
    if skip > |data| { return Rejected; }
    if skip > 0 && data[skip - 1] != NEWLINE { return Rejected; }
    data := data[skip..];
    var w := WalkRows(c, data, cursor, limit, quiet);
    if w.Stopped? { return Blocked; }
    if !quiet { if * { return Blocked; } }
    v := Concluded(c, data, cursor, w.scan);
  }

  // ----- What the verdict says about the source -----

  predicate FileMatches(files: Disk, src: Bytes, r: Input) {
    r.offset <= r.end <= |src| && r.name in files && files[r.name] == src[r.offset..r.end]
  }

  /** Every fragment file holds exactly the source range it is recorded for. */
  ghost predicate FilesMatch(files: Disk, src: Bytes, inputs: seq<Input>) {
    forall i :: 0 <= i < |inputs| ==> FileMatches(files, src, inputs[i])
  }

  /** The verdict as a function of the source alone: where the first fragment starts and the last ends. */
  function SourceVerdict(c: Codec, src: Bytes, start: nat, end: nat, cursor: Cursor, limit: nat): Verdict
    requires start <= cursor.offset <= end <= |src|
  {
    if start < cursor.offset && src[cursor.offset - 1] != NEWLINE then Rejected
    else
      match ScanRows(c, src[..end], 0, cursor, limit)
      case Broken => Rejected
      case Chained(next) =>
        if next.sequence == cursor.sequence then NoCompleteRow
        else Verified(next, c.sha256(src[cursor.offset..next.offset]))
  }

  lemma {:induction false} JoinedIsRange(c: Codec, files: Disk, src: Bytes, receipts: seq<Receipt>, cursor: Cursor)
    requires ReceiptsOk(receipts, cursor) && FilesMatch(files, src, Inputs(receipts))
    requires Joined(c, files, Inputs(receipts)).Some?
    ensures var first, last := receipts[0].input, receipts[|receipts| - 1].input;
            first.offset <= last.end <= |src|
            && Joined(c, files, Inputs(receipts)).value == src[first.offset..last.end]
  {
    var inputs := Inputs(receipts);
    assert FileMatches(files, src, inputs[0]);
    if |inputs| == 2 {
      assert FileMatches(files, src, inputs[1]);
      assert inputs[1..] == [inputs[1]] && inputs[1..][1..] == [];
      assert Joined(c, files, inputs[1..]) == Some(files[inputs[1].name] + []);
      assert src[inputs[0].offset..inputs[0].end] + (src[inputs[1].offset..inputs[1].end] + [])
          == src[inputs[0].offset..inputs[1].end];
    } else {
      assert inputs[1..] == [];
      assert files[inputs[0].name] + [] == files[inputs[0].name];
    }
  }

  /** Scanning the joined bytes after the skipped prefix is scanning the source. */
  lemma {:induction false} JoinedVerdictFromSource(c: Codec, src: Bytes, start: nat, end: nat, cursor: Cursor, limit: nat)
    requires start <= cursor.offset <= end <= |src|
    ensures JoinedVerdict(c, src[start..end], cursor.offset - start, cursor, limit)
         == SourceVerdict(c, src, start, end, cursor, limit)
  {
    hide ScanRows;
    var data, skip := src[start..end], cursor.offset - start;
    assert skip > 0 ==> data[skip - 1] == src[cursor.offset - 1];
    SliceOfRange(src, start, end, skip, end - start);
    assert data[skip..] == src[..end][cursor.offset..];
    WindowScan(c, src[..end], data[skip..], cursor.offset, cursor, limit);
    var scan := ScanRows(c, src[..end], 0, cursor, limit);
    if scan.Chained? { SliceOfRange(src, cursor.offset, end, 0, scan.next.offset - cursor.offset); }
  }

  /**
    When every fragment holds its source range, the verdict is determined by the source, the
    two outer ends and whether a byte before the cursor is in view.
   */
  lemma {:induction false} VerdictFromSource(c: Codec, files: Disk, src: Bytes, receipts: seq<Receipt>, cursor: Cursor, limit: nat)
    requires PolicyOk(cursor, receipts, limit) && ReceiptsOk(receipts, cursor)
    requires FilesMatch(files, src, Inputs(receipts))
    requires Joined(c, files, Inputs(receipts)).Some?
    ensures var first, last := receipts[0].input, receipts[|receipts| - 1].input;
            first.offset <= cursor.offset <= last.end <= |src|
            && FragmentVerdict(c, files, receipts, cursor, limit)
               == SourceVerdict(c, src, first.offset, last.end, cursor, limit)
  {
    JoinedIsRange(c, files, src, receipts, cursor);
    JoinedVerdictFromSource(c, src, receipts[0].input.offset, receipts[|receipts| - 1].input.end, cursor, limit);
  }

  /** Where the bytes are split does not matter at a row start. */
  lemma {:induction false} SplitIndependent(c: Codec, files: Disk, src: Bytes, xs: seq<Receipt>, ys: seq<Receipt>,
                         cursor: Cursor, limit: nat)
    requires PolicyOk(cursor, xs, limit) && ReceiptsOk(xs, cursor)
    requires PolicyOk(cursor, ys, limit) && ReceiptsOk(ys, cursor)
    requires FilesMatch(files, src, Inputs(xs)) && FilesMatch(files, src, Inputs(ys))
    requires Joined(c, files, Inputs(xs)).Some? && Joined(c, files, Inputs(ys)).Some?
    requires xs[|xs| - 1].input.end == ys[|ys| - 1].input.end
    requires AtRowStart(src, cursor.offset)
    ensures FragmentVerdict(c, files, xs, cursor, limit) == FragmentVerdict(c, files, ys, cursor, limit)
  {
    hide FragmentVerdict, Joined, ScanRows;
    VerdictFromSource(c, files, src, xs, cursor, limit);
    VerdictFromSource(c, files, src, ys, cursor, limit);
  }

  /** The first min(n, limit) complete lines after the cursor form no chain. */
  ghost predicate RowsBreak(c: Codec, data: Bytes, cursor: Cursor, limit: nat)
    requires cursor.offset <= |data|
  {
    forall b: Cursor :: !ChainReaches(c, data, cursor, Min(limit, CompleteLines(data, cursor.offset)), b)
  }

  lemma {:induction false} ScanBreaks(c: Codec, data: Bytes, cursor: Cursor, limit: nat)
    requires cursor.offset <= |data|
    ensures ScanRows(c, data, 0, cursor, limit) == Broken <==> RowsBreak(c, data, cursor, limit)
  {
    hide ChainReaches, CompleteLines, ScanRows;
    forall b: Cursor
      ensures ScanRows(c, data, 0, cursor, limit) == Chained(b)
         <==> ChainReaches(c, data, cursor, Min(limit, CompleteLines(data, cursor.offset)), b)
    {
      ScanReaches(c, data, cursor, limit, b);
    }
  }

  /** The first fragment shows the byte before the cursor. */
  predicate ShowsBoundary(receipts: seq<Receipt>, cursor: Cursor) {
    receipts != [] && receipts[0].input.offset < cursor.offset
  }

  /**
    Where the bytes are split matters exactly when the cursor is inside a row, only one of the two
    splits shows the byte before it, and the rows after it do chain.
   */
  lemma {:induction false} SplitMattersExactly(c: Codec, files: Disk, src: Bytes, xs: seq<Receipt>, ys: seq<Receipt>,
                                               cursor: Cursor, limit: nat)
    requires PolicyOk(cursor, xs, limit) && ReceiptsOk(xs, cursor)
    requires PolicyOk(cursor, ys, limit) && ReceiptsOk(ys, cursor)
    requires FilesMatch(files, src, Inputs(xs)) && FilesMatch(files, src, Inputs(ys))
    requires Joined(c, files, Inputs(xs)).Some? && Joined(c, files, Inputs(ys)).Some?
    requires xs[|xs| - 1].input.end == ys[|ys| - 1].input.end
    ensures cursor.offset <= xs[|xs| - 1].input.end <= |src|
    ensures FragmentVerdict(c, files, xs, cursor, limit) == FragmentVerdict(c, files, ys, cursor, limit)
       <==> (AtRowStart(src, cursor.offset) || (ShowsBoundary(xs, cursor) <==> ShowsBoundary(ys, cursor))
             || RowsBreak(c, src[..xs[|xs| - 1].input.end], cursor, limit))
  {
    hide FragmentVerdict, Joined, RowsBreak, ScanRows;
    VerdictFromSource(c, files, src, xs, cursor, limit);
    VerdictFromSource(c, files, src, ys, cursor, limit);
    ScanBreaks(c, src[..xs[|xs| - 1].input.end], cursor, limit);
  }

  /** A fragment that holds its range is joined to nothing. */
  lemma {:induction false} OneFragment(c: Codec, files: Disk, src: Bytes, r: Input)
    requires FileMatches(files, src, r) && r.size == r.end - r.offset && r.sha == c.sha256(src[r.offset..r.end])
    ensures FilesMatch(files, src, Inputs([Receipt(true, r)])) && Joined(c, files, Inputs([Receipt(true, r)])).Some?
  {
    var inputs := Inputs([Receipt(true, r)]);
    assert inputs == [r] && inputs[1..] == [];
  }

  /**
    Such inputs exist for every source without a newline: with the cursor anywhere inside it, one
    fragment that starts at the beginning is rejected, and one that starts at the cursor only has
    no complete row.
   */
  lemma {:induction false} SplitCanMatter(c: Codec, src: Bytes, cursor: Cursor, limit: nat)
      returns (files: Disk, whole: Receipt, rest: Receipt)
    requires HexRanges(c, src) && NEWLINE !in src && 0 < cursor.offset < |src| <= MAX_WINDOW
    requires IsHash(cursor.lastHash) && 1 <= limit <= 256
    ensures FilesMatch(files, src, Inputs([whole])) && FilesMatch(files, src, Inputs([rest]))
    ensures whole.input.end == rest.input.end == |src|
    ensures FragmentVerdict(c, files, [whole], cursor, limit) == Rejected
    ensures FragmentVerdict(c, files, [rest], cursor, limit) == NoCompleteRow
  {
    hide FragmentVerdict, Joined, FilesMatch;
    var n := |src|;
    var x := Input(RawFile("whole"), 0, n, n, n, c.sha256(src[0..n]));
    var y := Input(RawFile("rest"), cursor.offset, n, n - cursor.offset, n, c.sha256(src[cursor.offset..n]));
    files := map[x.name := src[0..n], y.name := src[cursor.offset..n]];
    whole, rest := Receipt(true, x), Receipt(true, y);
    assert RangeHasHexDigest(c, src, 0, n) && RangeHasHexDigest(c, src, cursor.offset, n);
    OneFragment(c, files, src, x);
    OneFragment(c, files, src, y);
    VerdictFromSource(c, files, src, [whole], cursor, limit);
    VerdictFromSource(c, files, src, [rest], cursor, limit);
    assert src[..n] == src && forall i :: 0 <= i < n ==> src[i] in src;
  }

  lemma {:induction false} VerifiedMeansChecked(c: Codec, files: Disk, receipts: seq<Receipt>, cursor: Cursor, limit: nat)
    requires FragmentVerdict(c, files, receipts, cursor, limit).Verified?
    ensures PolicyOk(cursor, receipts, limit) && ReceiptsOk(receipts, cursor) && Joined(c, files, Inputs(receipts)).Some?
  {
  }

  /** Verified rows are a chain extension of the source, between one row and the limit. */
  lemma {:induction false} VerifiedIsExtension(c: Codec, files: Disk, src: Bytes, receipts: seq<Receipt>, cursor: Cursor, limit: nat)
    requires FilesMatch(files, src, Inputs(receipts))
    requires FragmentVerdict(c, files, receipts, cursor, limit).Verified?
    ensures var v := FragmentVerdict(c, files, receipts, cursor, limit);
            Extension(c, src, cursor, v.next)
            && cursor.sequence < v.next.sequence <= cursor.sequence + limit
            && cursor.offset < v.next.offset <= receipts[|receipts| - 1].input.end
            && v.sha == c.sha256(src[cursor.offset..v.next.offset])
  {
    hide FragmentVerdict, Joined, ScanRows;
    VerifiedMeansChecked(c, files, receipts, cursor, limit);
    VerdictFromSource(c, files, src, receipts, cursor, limit);
    var end := receipts[|receipts| - 1].input.end;
    ScanTaken(c, src[..end], cursor, limit);
    var next := FragmentVerdict(c, files, receipts, cursor, limit).next;
    assert src[..end][..next.offset] == src[..next.offset];
  }

  /**
    The verifier decides chains: over source-matching fragments that see a row start it
    succeeds if and only if at least one row is complete and the first min(n, limit) complete
    rows form a chain; it then ends at that chain's last cursor.
   */
  lemma {:induction false} VerifierExact(c: Codec, files: Disk, src: Bytes, receipts: seq<Receipt>,
                                         cursor: Cursor, limit: nat, next: Cursor)
    requires PolicyOk(cursor, receipts, limit) && ReceiptsOk(receipts, cursor)
    requires FilesMatch(files, src, Inputs(receipts)) && Joined(c, files, Inputs(receipts)).Some?
    requires AtRowStart(src, cursor.offset)
    ensures cursor.offset <= receipts[|receipts| - 1].input.end <= |src|
    ensures var data := src[..receipts[|receipts| - 1].input.end];
            var rows := Min(limit, CompleteLines(data, cursor.offset));
            var v := FragmentVerdict(c, files, receipts, cursor, limit);
            && (v == NoCompleteRow <==> rows == 0)
            && (v.Verified? && v.next == next <==> rows >= 1 && ChainReaches(c, data, cursor, rows, next))
  {
    VerdictFromSource(c, files, src, receipts, cursor, limit);
    var data := src[..receipts[|receipts| - 1].input.end];
    ScanReaches(c, data, cursor, limit, next);
    var scan := ScanRows(c, data, 0, cursor, limit);
    if scan.Chained? { ScanReaches(c, data, cursor, limit, scan.next); }
  }
}
