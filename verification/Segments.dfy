/** Staging one verified segment of whole rows, and authenticating it again from its receipt. */
module Segments {
  import opened Foundations
  import opened ChainRows
  import opened FragmentedRow
  import opened ChainWindow

  const SEGMENT_SUFFIX: string := ".segment.pending"

  /** A name that staging accepts; its path is kept as it was given, parts of two dots included. */
  predicate Stageable(n: Name) {
    n.SegmentFile? && |n.path| >= |SEGMENT_SUFFIX| && n.path[|n.path| - |SEGMENT_SUFFIX|..] == SEGMENT_SUFFIX
  }

  /** Both separators of a path, as one. */
  function Slashed(path: string): string {
    seq(|path|, i requires 0 <= i < |path| => if path[i] == '\\' then '/' else path[i])
  }

  predicate PartAt(path: string, part: string, i: nat)
    requires i + |part| <= |path|
  {
    path[i..i + |part|] == part && (i == 0 || path[i - 1] == '/')
    && (i + |part| == |path| || path[i + |part|] == '/')
  }

  predicate HasPart(path: string, part: string) {
    exists i :: 0 <= i <= |path| - |part| && PartAt(path, part, i)
  }

  /** A name that a plan may refer to: not too long, and without dot parts. */
  predicate Referable(n: Name) {
    n.SegmentFile? && 1 <= |n.path| <= 1024 && '\0' !in n.path
    && !HasPart(Slashed(n.path), ".") && !HasPart(Slashed(n.path), "..")
  }

  datatype SegmentReceipt = SegmentReceipt(name: Name, start: Cursor, next: Cursor, size: int, sha: string)

  /** SegmentStopped: the call raised. */
  datatype SegmentResult = SegmentStaged(receipt: SegmentReceipt, charged: nat) | NotStaged(v: Verdict) | SegmentStopped

  function ReceiptFor(c: Codec, src: Bytes, name: Name, cursor: Cursor, next: Cursor): SegmentReceipt
    requires cursor.offset <= next.offset <= |src|
  {
    SegmentReceipt(name, cursor, next, next.offset - cursor.offset, c.sha256(src[cursor.offset..next.offset]))
  }

  /** A guarded copy in blocks; the source may only have been appended to since it was verified. */
  method CopyBlocks(content: Bytes, charged: nat, unit: nat, quiet: bool) returns (ok: bool, copy: Bytes, total: nat)
    ensures quiet ==> ok
    ensures ok ==> copy == content && total == charged + unit * |content|
  {
    copy := [];
    total := charged;
    while |copy| < |content|
      invariant |copy| <= |content| && copy == content[..|copy|]
      invariant total == charged + unit * |copy|
    {
      if !quiet { if * { return false, copy, total; } }
      var amount := Min(BLOCK, |content| - |copy|);
      copy := copy + content[|copy|..|copy| + amount];
      total := total + unit * amount;
      if !quiet { if * { return false, copy, total; } }
    }
    return true, copy, total;
  }

  /**
    Verifies, copies, reads back and publishes one segment. The only file it can add is the
    verified range itself; when it reports success the receipt names exactly that range, and the
    bytes charged are those of the verification and three for each byte staged.
   */
  method StageChainSegment(store: Store, c: Codec, src: Bytes, name: Name, cursor: Cursor, maxBytes: nat, limit: nat,
                           quiet: bool)
      returns (r: SegmentResult)
    modifies store
    ensures quiet && Stageable(name) && name !in old(store.files) && SegmentLock !in old(store.locks) ==>
              match WindowVerdict(c, src, cursor, maxBytes, limit)
              case Refused => r == SegmentStopped
              case Verified(_, _) => r.SegmentStaged?
              case v => r == NotStaged(v)
    ensures store.locks == old(store.locks)
    ensures store.files == old(store.files)
         || (var v := WindowVerdict(c, src, cursor, maxBytes, limit);
             v.Verified? && cursor.offset <= v.next.offset <= |src|
             && Stageable(name) && name !in old(store.files)
             && store.files == old(store.files)[name := src[cursor.offset..v.next.offset]])
    ensures r.SegmentStaged? ==>
              var v := WindowVerdict(c, src, cursor, maxBytes, limit);
              && v.Verified? && cursor.offset <= v.next.offset <= |src|
              && r.receipt == ReceiptFor(c, src, name, cursor, v.next)
              && store.files == old(store.files)[name := src[cursor.offset..v.next.offset]]
              && r.charged == (if cursor.offset > 0 then 1 else 0) + WindowEnd(src, cursor, maxBytes) - cursor.offset
                              + 3 * (v.next.offset - cursor.offset)
    ensures r.NotStaged? ==>
              store.files == old(store.files)
              && (r.v == Blocked || (r.v == WindowVerdict(c, src, cursor, maxBytes, limit) && !r.v.Verified?))
    ensures SegmentLock in old(store.locks) || name in old(store.files) ==>
              r == SegmentStopped && store.files == old(store.files)
  {
    hide WindowVerdict;
    if !Stageable(name) || name in store.files || SegmentLock in store.locks { return SegmentStopped; }
    store.locks := store.locks + {SegmentLock};
    var v, read := VerifyChainWindow(c, src, cursor, maxBytes, limit, quiet);
    match v {
      case Refused => r := SegmentStopped;
      case Verified(next, sha) =>
        WindowVerifiedIsExtension(c, src, cursor, maxBytes, limit);
        r := PublishSegment(store, c, src, name, cursor, next, sha, read, quiet);
      case _ => r := NotStaged(v);
    }
    store.locks := store.locks - {SegmentLock};
  }

  method PublishSegment(store: Store, c: Codec, src: Bytes, name: Name, cursor: Cursor, next: Cursor, sha: string, read: nat,
                        quiet: bool)
      returns (r: SegmentResult)
    requires cursor.offset < next.offset <= |src| && sha == c.sha256(src[cursor.offset..next.offset])
    requires name !in store.files
    modifies store`files
    ensures store.files == old(store.files) || store.files == old(store.files)[name := src[cursor.offset..next.offset]]
    ensures (r == SegmentStopped && !quiet)
         || (r == SegmentStaged(ReceiptFor(c, src, name, cursor, next), read + 3 * (next.offset - cursor.offset))
             && store.files == old(store.files)[name := src[cursor.offset..next.offset]])
  {
    var size := next.offset - cursor.offset;
    var copied, temporary, charged := CopyBlocks(src[cursor.offset..next.offset], read, 2, quiet);
    if !copied || c.sha256(temporary) != sha { return SegmentStopped; }
    var saved, again, total := CopyBlocks(temporary, charged, 1, quiet);
    if !saved || |temporary| != size || c.sha256(again) != sha { return SegmentStopped; }
    if !quiet { if * { return SegmentStopped; } }
    store.files := store.files[name := temporary];
    if !quiet { if * { return SegmentStopped; } }
    return SegmentStaged(SegmentReceipt(name, cursor, next, size, c.sha256(again)), total);
  }

  // ----- The second verifier: it splits the bytes at newlines and decodes each line without its newline -----

  /** The complete lines of `data`, without their newlines. */
  function Lines(data: Bytes): seq<Bytes>
    decreases |data|
  {
    var end := FindNewline(data, 0);
    if end == |data| then [] else [data[..end]] + Lines(data[end + 1..])
  }

  /** The digest a line carries, as this verifier checks it: its form is never looked at. */
  function LineDigest(c: Codec, line: Bytes, sequence: nat, previous: string): Option<string> {
    match c.loads(line)
    case Some(Object(fields)) =>
      if "hash" in fields then
        var body := fields - {"hash"};
        if "sequence" in body && body["sequence"] == Int(sequence + 1)
           && "previous_hash" in body && body["previous_hash"] == Text(previous)
           && fields["hash"] == Text(c.sha256(c.canonical(body)))
        then Some(c.sha256(c.canonical(body))) else None
      else None
    case _ => None
  }

  /** The last hash of a list of chained lines. */
  function ChainLines(c: Codec, lines: seq<Bytes>, sequence: nat, previous: string): Option<string> {
    if lines == [] then Some(previous)
    else
      match LineDigest(c, lines[0], sequence, previous)
      case None => None
      case Some(digest) => ChainLines(c, lines[1..], sequence + 1, digest)
  }

  predicate SegmentReceiptOk(r: SegmentReceipt) {
    IsHash(r.start.lastHash) && IsHash(r.next.lastHash) && r.start.sequence < r.next.sequence
    && 0 < r.size <= MAX_WINDOW && r.next.offset - r.start.offset == r.size
    && IsHash(r.sha) && Stageable(r.name) && Referable(r.name)
  }

  /** The staged bytes are those of the receipt, and their lines chain from its start to its end. */
  predicate SegmentAccepts(c: Codec, files: Disk, r: SegmentReceipt) {
    SegmentReceiptOk(r) && r.next.sequence - r.start.sequence <= 256
    && r.name in files && |files[r.name]| == r.size && c.sha256(files[r.name]) == r.sha
    && files[r.name][r.size - 1] == NEWLINE
    && |Lines(files[r.name])| == r.next.sequence - r.start.sequence
    && ChainLines(c, Lines(files[r.name]), r.start.sequence, r.start.lastHash) == Some(r.next.lastHash)
  }

  /** Accepted, or the call raised: on what it found, or at a guard. */
  datatype SegmentCheck = SegmentAccepted | SegmentRefused | CheckStopped

  method SplitLines(data: Bytes) returns (lines: seq<Bytes>)
    ensures lines == Lines(data)
  {
    lines := [];
    var rest := data;
    assert forall more: seq<Bytes> :: [] + more == more;
    while true
      invariant lines + Lines(rest) == Lines(data)
      decreases |rest|
    {
      var end := FindNewline(rest, 0);
      if end == |rest| {
        assert lines + [] == lines;
        return lines;
      }
      ghost var before := lines;
      lines := lines + [rest[..end]];
      assert before + ([rest[..end]] + Lines(rest[end + 1..])) == lines + Lines(rest[end + 1..]);
      rest := rest[end + 1..];
    }
  }

  method VerifyStagedSegment(c: Codec, files: Disk, r: SegmentReceipt, quiet: bool) returns (check: SegmentCheck)
    ensures quiet ==> !check.CheckStopped?
    ensures check.SegmentAccepted? ==> SegmentAccepts(c, files, r)
    ensures check.SegmentRefused? ==> !SegmentAccepts(c, files, r)
  {
    hide LineDigest;
    if !SegmentReceiptOk(r) || r.next.sequence - r.start.sequence > 256 { return SegmentRefused; }
    if !quiet { if * { return CheckStopped; } }
    if r.name !in files || |files[r.name]| != r.size { return SegmentRefused; }
    var admitted, body := ReadBlocks(files[r.name], quiet);
    if !admitted { return CheckStopped; }
    if c.sha256(body) != r.sha || body[|body| - 1] != NEWLINE { return SegmentRefused; }
    var previous, sequence := r.start.lastHash, r.start.sequence;
    var rows := SplitLines(body);
    if |rows| != r.next.sequence - r.start.sequence { return SegmentRefused; }
    var i := 0;
    while i < |rows|
      invariant 0 <= i <= |rows| && sequence >= 0
      invariant ChainLines(c, rows, r.start.sequence, r.start.lastHash) == ChainLines(c, rows[i..], sequence, previous)
    {
      if !quiet { if * { return CheckStopped; } }
      var digest := LineDigest(c, rows[i], sequence, previous);
      assert rows[i..][0] == rows[i] && rows[i..][1..] == rows[i + 1..];
      if digest.None? { return SegmentRefused; }
      sequence, previous, i := sequence + 1, digest.value, i + 1;
    }
    assert rows[i..] == [];
    if !quiet { if * { return CheckStopped; } }
    if previous != r.next.lastHash { return SegmentRefused; }
    return SegmentAccepted;
  }

  // ----- The round trip -----

  /** The body decodes to the same value with and without its last byte. */
  predicate NewlineBlind(c: Codec, line: Bytes)
    requires |line| > 0
  {
    c.loads(line[..|line| - 1]) == c.loads(line)
  }

  /** Every row on the way from `a` to `b` decodes to the same value without its newline. */
  predicate RowsNewlineBlind(c: Codec, data: Bytes, a: Cursor, rows: nat)
    requires a.offset <= |data|
    decreases rows
  {
    rows == 0
    || match NextRow(c, data, 0, a)
       case Linked(next) => NewlineBlind(c, data[a.offset..next.offset]) && RowsNewlineBlind(c, data, next, rows - 1)
       case _ => true
  }

  /** Distinct bodies have distinct canonical encodings. */
  ghost predicate CanonicalInjective(c: Codec) {
    forall x: map<string, Json>, y: map<string, Json> :: CanonicalTellsApart(c, x, y)
  }

  predicate CanonicalTellsApart(c: Codec, x: map<string, Json>, y: map<string, Json>) {
    c.canonical(x) == c.canonical(y) ==> x == y
  }

  /** On a line both verifiers decode to the same value, they find the same digest. */
  lemma {:induction false} BlindRowSameDigest(c: Codec, line: Bytes, sequence: nat, previous: string)
    requires |line| > 0 && NewlineBlind(c, line) && RowDigest(c, line, sequence, previous).Some?
    ensures LineDigest(c, line[..|line| - 1], sequence, previous) == RowDigest(c, line, sequence, previous)
  {
  }

  lemma {:induction false} LinesUnfold(data: Bytes)
    ensures var end := FindNewline(data, 0);
            Lines(data) == if end == |data| then [] else [data[..end]] + Lines(data[end + 1..])
  {
    hide FindNewline;
  }

  /** The lines of a range that starts a row are that row and the lines after it. */
  lemma {:induction false} LinesOfRange(c: Codec, data: Bytes, a: Cursor, b: Cursor)
    requires Links(c, data, a, b)
    ensures Lines(data[a.offset..]) == [data[a.offset..b.offset - 1]] + Lines(data[b.offset..])
  {
    hide FindNewline, Lines, RowDigest;
    NewlineIsUnique(data, a.offset, b.offset);
    NewlineShift(data, data[a.offset..], a.offset, 0);
    var part := data[a.offset..];
    var end := FindNewline(part, 0);
    assert part[..end] == data[a.offset..b.offset - 1];
    assert part[end + 1..] == data[b.offset..];
    LinesUnfold(part);
  }

  /** Exactly `rows` rows chain from `a` to `b`, and `b` is the end of the data. */
  predicate WholeRows(c: Codec, data: Bytes, a: Cursor, b: Cursor, rows: nat) {
    a.offset <= |data| == b.offset && b.sequence == a.sequence + rows
    && ScanRows(c, data, 0, a, rows) == Chained(b)
  }

  lemma {:induction false} FirstOfWholeRows(c: Codec, data: Bytes, a: Cursor, b: Cursor, rows: nat) returns (x: Cursor)
    requires WholeRows(c, data, a, b, rows) && rows > 0
    ensures NextRow(c, data, 0, a) == Linked(x) && Links(c, data, a, x) && WholeRows(c, data, x, b, rows - 1)
  {
    x := NextRow(c, data, 0, a).next;
  }

  /** Splitting whole rows at newlines gives one line for each row, and they end with a newline. */
  lemma {:induction false} LinesOfWholeRows(c: Codec, data: Bytes, a: Cursor, b: Cursor, rows: nat)
    requires WholeRows(c, data, a, b, rows)
    ensures |Lines(data[a.offset..])| == rows
    ensures rows > 0 ==> a.offset < |data| && data[|data| - 1] == NEWLINE
    decreases rows
  {
    if rows > 0 {
      var x := FirstOfWholeRows(c, data, a, b, rows);
      LinesOfRange(c, data, a, x);
      LinesOfWholeRows(c, data, x, b, rows - 1);
    }
  }

  /** Rows that decode alike without their newlines chain alike without their newlines. */
  lemma {:induction false} BlindRowsChain(c: Codec, data: Bytes, a: Cursor, b: Cursor, rows: nat)
    requires WholeRows(c, data, a, b, rows) && RowsNewlineBlind(c, data, a, rows)
    ensures ChainLines(c, Lines(data[a.offset..]), a.sequence, a.lastHash) == Some(b.lastHash)
    decreases rows
  {
    hide FindNewline, LineDigest, Lines, RowDigest;
    LinesOfWholeRows(c, data, a, b, rows);
    if rows > 0 {
      var x := FirstOfWholeRows(c, data, a, b, rows);
      SplitFirstLine(c, data, a, x);
      BlindRowSameDigest(c, data[a.offset..x.offset], a.sequence, a.lastHash);
      BlindRowsChain(c, data, x, b, rows - 1);
    }
  }

  lemma {:induction false} SplitFirstLine(c: Codec, data: Bytes, a: Cursor, x: Cursor)
    requires Links(c, data, a, x)
    ensures var line := data[a.offset..x.offset];
            var lines := Lines(data[a.offset..]);
            |line| > 0 && |lines| > 0 && lines[0] == line[..|line| - 1] && lines[1..] == Lines(data[x.offset..])
            && RowDigest(c, line, a.sequence, a.lastHash) == Some(x.lastHash)
  {
    LinesOfRange(c, data, a, x);
    var line := data[a.offset..x.offset];
    assert line[..|line| - 1] == data[a.offset..x.offset - 1];
  }

  /** One digest comes from one row: the same decoded value, after the same predecessor. */
  lemma {:induction false} SameDigestSameRow(c: Codec, line: Bytes, sequence: nat, p: string, q: string, digest: string)
    requires CollisionFree(c) && CanonicalInjective(c) && |line| > 0
    requires LineDigest(c, line[..|line| - 1], sequence, p) == Some(digest) && RowDigest(c, line, sequence, q) == Some(digest)
    ensures p == q && NewlineBlind(c, line)
  {
    var short, long := c.loads(line[..|line| - 1]).value.fields, c.loads(line).value.fields;
    var x, y := short - {"hash"}, long - {"hash"};
    assert Distinguishes(c, c.canonical(x), c.canonical(y)) && CanonicalTellsApart(c, x, y);
    assert x == y;
    FieldsFromBody(short, long, digest);
  }

  lemma {:induction false} FieldsFromBody(x: map<string, Json>, y: map<string, Json>, digest: string)
    requires "hash" in x && "hash" in y && x["hash"] == y["hash"] == Text(digest)
    requires x - {"hash"} == y - {"hash"}
    ensures x == y
  {
    assert x == (x - {"hash"})["hash" := Text(digest)];
    assert y == (y - {"hash"})["hash" := Text(digest)];
  }

  /** Chaining without newlines to the same last hash is possible only row by row. */
  lemma {:induction false} OnlyBlindRowsChain(c: Codec, data: Bytes, a: Cursor, b: Cursor, rows: nat, p: string)
    requires CollisionFree(c) && CanonicalInjective(c) && WholeRows(c, data, a, b, rows)
    requires ChainLines(c, Lines(data[a.offset..]), a.sequence, p) == Some(b.lastHash)
    ensures p == a.lastHash && RowsNewlineBlind(c, data, a, rows)
    decreases rows
  {
    hide FindNewline, LineDigest, Lines, NextRow, RowDigest, ScanRows;
    if rows == 0 {
      LinesOfWholeRows(c, data, a, b, rows);
    } else {
      var x := FirstOfWholeRows(c, data, a, b, rows);
      SplitFirstLine(c, data, a, x);
      var line := data[a.offset..x.offset];
      var digest := LineDigest(c, line[..|line| - 1], a.sequence, p).value;
      OnlyBlindRowsChain(c, data, x, b, rows - 1, digest);
      SameDigestSameRow(c, line, a.sequence, p, a.lastHash, digest);
    }
  }

  /** A published segment, left as it was. */
  predicate Published(c: Codec, src: Bytes, files: Disk, r: SegmentReceipt, cursor: Cursor, maxBytes: nat, limit: nat) {
    var v := WindowVerdict(c, src, cursor, maxBytes, limit);
    && v.Verified? && cursor.offset <= v.next.offset <= |src| && Stageable(r.name)
    && r == ReceiptFor(c, src, r.name, cursor, v.next)
    && r.name in files && files[r.name] == src[cursor.offset..v.next.offset]
  }

  /** The rows a published segment holds. */
  lemma {:induction false} PublishedRows(c: Codec, src: Bytes, files: Disk, r: SegmentReceipt, cursor: Cursor,
                                         maxBytes: nat, limit: nat)
    requires Published(c, src, files, r, cursor, maxBytes, limit)
    ensures var data := src[..r.next.offset];
            var rows := r.next.sequence - r.start.sequence;
            && 1 <= rows <= 256 && WholeRows(c, data, cursor, r.next, rows) && r.start == cursor
            && files[r.name] == data[cursor.offset..]
  {
    hide WindowVerdict, ScanRows;
    WindowVerifiedIsExtension(c, src, cursor, maxBytes, limit);
    WindowPolicyHeld(c, src, cursor, maxBytes, limit);
    assert src[..r.next.offset][cursor.offset..] == src[cursor.offset..r.next.offset];
  }

  /** A published segment's receipt is in order exactly when a plan may refer to its path. */
  lemma {:induction false} PublishedReceipt(c: Codec, src: Bytes, files: Disk, r: SegmentReceipt, cursor: Cursor,
                                            maxBytes: nat, limit: nat)
    requires HexRanges(c, src) && Published(c, src, files, r, cursor, maxBytes, limit)
    ensures SegmentReceiptOk(r) <==> Referable(r.name)
  {
    hide WindowVerdict, ScanRows, Referable, Stageable;
    WindowVerifiedIsExtension(c, src, cursor, maxBytes, limit);
    WindowPolicyHeld(c, src, cursor, maxBytes, limit);
    assert RangeHasHexDigest(c, src, cursor.offset, r.next.offset);
    ExtensionGivesHash(c, src, cursor, r.next);
  }

  lemma {:induction false} WindowPolicyHeld(c: Codec, src: Bytes, cursor: Cursor, maxBytes: nat, limit: nat)
    requires WindowVerdict(c, src, cursor, maxBytes, limit).Verified?
    ensures WindowPolicyOk(cursor, maxBytes, limit)
  {
  }

  lemma {:induction false} ExtensionGivesHash(c: Codec, src: Bytes, a: Cursor, b: Cursor)
    requires Extension(c, src, a, b) && IsHash(a.lastHash)
    ensures IsHash(b.lastHash)
  {
    var path := ScanHasChain(c, src[..b.offset], a, b.sequence - a.sequence);
    if |path| > 1 { assert Links(c, src[..b.offset], path[|path| - 2], path[|path| - 1]); }
  }

  /**
    The round trip, exactly. A published segment left as it was is accepted again, with the end
    cursor of its receipt, if and only if a plan may refer to its path and every row in it decodes
    to the same value without its newline as with it: staging accepts any path, and the second
    verifier strips the newlines before decoding while the first does not.
   */
  lemma {:induction false} RoundTripExact(c: Codec, src: Bytes, files: Disk, r: SegmentReceipt, cursor: Cursor,
                                          maxBytes: nat, limit: nat)
    requires HexRanges(c, src) && CollisionFree(c) && CanonicalInjective(c)
    requires Published(c, src, files, r, cursor, maxBytes, limit)
    ensures cursor.offset <= r.next.offset <= |src| && r.next.sequence > cursor.sequence
    ensures SegmentAccepts(c, files, r)
       <==> Referable(r.name) && RowsNewlineBlind(c, src[..r.next.offset], cursor, r.next.sequence - cursor.sequence)
  {
    hide WindowVerdict, ScanRows, Referable, Stageable;
    PublishedRows(c, src, files, r, cursor, maxBytes, limit);
    PublishedReceipt(c, src, files, r, cursor, maxBytes, limit);
    var data, rows := src[..r.next.offset], r.next.sequence - r.start.sequence;
    LinesOfWholeRows(c, data, cursor, r.next, rows);
    if RowsNewlineBlind(c, data, cursor, rows) { BlindRowsChain(c, data, cursor, r.next, rows); }
    if SegmentAccepts(c, files, r) { OnlyBlindRowsChain(c, data, cursor, r.next, rows, cursor.lastHash); }
  }

  // ----- Who is refused -----

  /**
    A decoder that takes a first byte of zero for the upper half of a two-byte character refuses
    what then ends in half a character.
   */
  ghost predicate RefusesTornText(c: Codec) {
    forall line: Bytes :: TornIsRefused(c, line)
  }

  predicate TornIsRefused(c: Codec, line: Bytes) {
    |line| % 2 == 1 && line[0] == 0 ==> c.loads(line) == None
  }

  /** One of the rows begins with a zero byte, as two-byte text does. */
  predicate HasWideRow(c: Codec, data: Bytes, a: Cursor, rows: nat)
    requires a.offset <= |data|
    decreases rows
  {
    rows > 0
    && match NextRow(c, data, 0, a)
       case Linked(next) => data[a.offset] == 0 || HasWideRow(c, data, next, rows - 1)
       case _ => false
  }

  lemma {:induction false} TornRowIsRefused(c: Codec, line: Bytes, sequence: nat, p: string, q: string)
    requires RefusesTornText(c) && |line| > 0 && line[0] == 0 && RowDigest(c, line, sequence, p).Some?
    ensures LineDigest(c, line[..|line| - 1], sequence, q) == None
  {
    assert TornIsRefused(c, line) && TornIsRefused(c, line[..|line| - 1]);
  }

  lemma {:induction false} WideRowBreaksChain(c: Codec, data: Bytes, a: Cursor, b: Cursor, rows: nat, p: string)
    requires RefusesTornText(c) && WholeRows(c, data, a, b, rows) && HasWideRow(c, data, a, rows)
    ensures ChainLines(c, Lines(data[a.offset..]), a.sequence, p) == None
    decreases rows
  {
    hide FindNewline, LineDigest, Lines, NextRow, RowDigest, ScanRows;
    var x := FirstOfWholeRows(c, data, a, b, rows);
    SplitFirstLine(c, data, a, x);
    var line := data[a.offset..x.offset];
    var short := line[..|line| - 1];
    if data[a.offset] == 0 {
      TornRowIsRefused(c, line, a.sequence, a.lastHash, p);
    } else if LineDigest(c, short, a.sequence, p).Some? {
      WideRowBreaksChain(c, data, x, b, rows - 1, LineDigest(c, short, a.sequence, p).value);
    }
  }

  /** With such a decoder every published segment that holds a row of two-byte text is refused. */
  lemma {:induction false} WideRowsAreRefused(c: Codec, src: Bytes, files: Disk, r: SegmentReceipt, cursor: Cursor,
                                              maxBytes: nat, limit: nat)
    requires RefusesTornText(c) && Published(c, src, files, r, cursor, maxBytes, limit)
    requires cursor.offset <= r.next.offset <= |src| && cursor.sequence <= r.next.sequence
    requires HasWideRow(c, src[..r.next.offset], cursor, r.next.sequence - cursor.sequence)
    ensures !SegmentAccepts(c, files, r)
  {
    hide ChainLines, HasWideRow, Lines, ScanRows, WindowVerdict;
    PublishedRows(c, src, files, r, cursor, maxBytes, limit);
    WideRowBreaksChain(c, src[..r.next.offset], cursor, r.next, r.next.sequence - r.start.sequence, cursor.lastHash);
  }

  // ----- Two published segments that are refused -----

  function Hex(n: nat): char
    requires n < 16
  {
    if n < 10 then (n + 48) as char else (n + 87) as char
  }

  /** The hexadecimal digit at place i of a short text: its length first, then two digits for each byte. */
  function HexAt(x: Bytes, i: nat): char
    requires |x| < 16
  {
    if i == 0 then Hex(|x|)
    else if i > 2 * |x| then '0'
    else if i % 2 == 1 then Hex(x[(i - 1) / 2] as int / 16)
    else Hex(x[(i - 1) / 2] as int % 16)
  }

  /** A digest without collisions that is hexadecimal for short texts. */
  function ShortDigest(x: Bytes): string {
    if |x| < 16 then seq(64, i requires 0 <= i < 64 => HexAt(x, i))
    else seq(|x| + 65, i requires 0 <= i < |x| + 65 => if i < |x| then x[i] as int as char else '0')
  }

  lemma {:induction false} ShortDigestDistinguishes(x: Bytes, y: Bytes)
    requires ShortDigest(x) == ShortDigest(y)
    ensures x == y
  {
    var p, q := ShortDigest(x), ShortDigest(y);
    if |x| < 16 && |y| < 16 {
      assert p[0] == q[0];
      forall k | 0 <= k < |x| ensures x[k] == y[k] {
        assert p[2 * k + 1] == q[2 * k + 1] && p[2 * k + 2] == q[2 * k + 2];
      }
    } else {
      forall k | 0 <= k < |x| && k < |y| ensures x[k] == y[k] { assert p[k] == q[k]; }
    }
  }

  const FIRST_ROW: Cursor := Cursor(0, 0, GENESIS)

  /** A source of one short row, whose decoder also takes it without its newline when `blind` says so. */
  function RowCodec(text: Bytes, blind: bool): Codec
    requires text != []
  {
    var row := map["sequence" := Int(1), "previous_hash" := Text(GENESIS), "hash" := Text(ShortDigest([]))];
    Codec((line: Bytes) => if line == text || (blind && line == text[..|text| - 1]) then Some(Object(row)) else None,
          (body: map<string, Json>) => [], ShortDigest)
  }

  lemma {:induction false} RowCodecLaws(text: Bytes, blind: bool)
    requires 0 < |text| < 16
    ensures var c := RowCodec(text, blind); HexRanges(c, text) && CollisionFree(c) && HasHexDigest(c, [])
  {
    hide HexAt, IsHash;
    var c := RowCodec(text, blind);
    forall x: Bytes, y: Bytes ensures Distinguishes(c, x, y) {
      if c.sha256(x) == c.sha256(y) { ShortDigestDistinguishes(x, y); }
    }
    forall a: nat, b: nat ensures RangeHasHexDigest(c, text, a, b) {
      if a <= b <= |text| { ShortIsHex(text[a..b]); }
    }
    ShortIsHex([]);
  }

  lemma {:induction false} RowLinks(text: Bytes, blind: bool)
    requires 0 < |text| < 16 && FindNewline(text, 0) == |text| - 1
    ensures NextRow(RowCodec(text, blind), text, 0, FIRST_ROW) == Linked(Cursor(|text|, 1, ShortDigest([])))
  {
    hide FindNewline, ShortDigest;
    var c := RowCodec(text, blind);
    RowCodecLaws(text, blind);
    assert c.loads(text).Some?;
    assert text[0..|text|] == text;
    assert RowDigest(c, text, 0, GENESIS) == Some(ShortDigest([]));
  }

  /** Such a row is published, under any path that staging accepts. */
  lemma {:induction false} RowIsPublished(name: Name, text: Bytes, blind: bool) returns (c: Codec, r: SegmentReceipt)
    requires Stageable(name) && 0 < |text| < 16 && FindNewline(text, 0) == |text| - 1
    ensures c == RowCodec(text, blind) && HexRanges(c, text) && CollisionFree(c)
    ensures r.name == name && r.next == Cursor(|text|, 1, ShortDigest([]))
    ensures Published(c, text, map[name := text], r, FIRST_ROW, 128, 1)
    ensures WindowVerdict(c, text, FIRST_ROW, 128, 1) == Verified(r.next, r.sha)
    ensures NextRow(c, text, 0, FIRST_ROW) == Linked(r.next)
  {
    hide CollisionFree, FindNewline, HexRanges, NextRow, RowCodec, ShortDigest, Stageable;
    c := RowCodec(text, blind);
    RowCodecLaws(text, blind);
    RowLinks(text, blind);
    var next := Cursor(|text|, 1, ShortDigest([]));
    assert text[0..|text|] == text == text[..|text|];
    assert ScanRows(c, text, 0, FIRST_ROW, 1) == Chained(next);
    GenesisIsHash();
    assert WindowEnd(text, FIRST_ROW, 128) == |text|;
    assert WindowVerdict(c, text, FIRST_ROW, 128, 1) == Verified(next, c.sha256(text));
    r := ReceiptFor(c, text, name, FIRST_ROW, next);
    assert map[name := text][r.name] == text[0..next.offset];
  }

  lemma {:induction false} ShortIsHex(x: Bytes)
    requires |x| < 16
    ensures IsHash(ShortDigest(x))
  {
  }

  /**
    The two refusals are not vacuous. In each witness the row's text is abbreviated to a pair of
    braces, and the decoder stands for one that reads the row from it: published under any path, a
    row of two-byte text is refused when it is verified again.
   */
  lemma {:induction false} RoundTripCanFail(name: Name) returns (c: Codec, src: Bytes, r: SegmentReceipt)
    requires Stageable(name)
    ensures HexRanges(c, src) && CollisionFree(c) && RefusesTornText(c) && r.name == name
    ensures Published(c, src, map[name := src], r, FIRST_ROW, 128, 1)
    ensures !SegmentAccepts(c, map[name := src], r)
  {
    src := [0, 123, 0, 125, 0, NEWLINE];
    assert FindNewline(src, 5) == 5 == FindNewline(src, 4) == FindNewline(src, 3);
    assert FindNewline(src, 2) == 5 == FindNewline(src, 1) == FindNewline(src, 0);
    c, r := RowIsPublished(name, src, false);
    forall line: Bytes ensures TornIsRefused(c, line) { }
    assert src[..|src|] == src;
    assert HasWideRow(c, src, FIRST_ROW, 1);
    WideRowsAreRefused(c, src, map[name := src], r, FIRST_ROW, 128, 1);
  }

  lemma {:induction false} BlindRow(text: Bytes)
    requires 0 < |text| < 16 && FindNewline(text, 0) == |text| - 1
    ensures RowsNewlineBlind(RowCodec(text, true), text, FIRST_ROW, 1)
  {
    hide FindNewline, NextRow, ShortDigest;
    RowLinks(text, true);
    assert text[0..|text|] == text;
  }

  lemma {:induction false} DottedName() returns (name: Name)
    ensures name == SegmentFile("/x/../y/a.segment.pending") && Stageable(name) && !Referable(name)
  {
    var path := "/x/../y/a.segment.pending";
    name := SegmentFile(path);
    assert path[|path| - 16..] == SEGMENT_SUFFIX;
    assert path[2] == '/' && path[3] == '.' && path[4] == '.' && path[5] == '/';
    assert PartAt(Slashed(path), "..", 3);
  }

  /** A plain row under a path that goes up and down again: published, and refused for its path alone. */
  lemma {:induction false} DottedPathIsRefused() returns (c: Codec, src: Bytes, r: SegmentReceipt)
    ensures HexRanges(c, src) && CollisionFree(c) && r.name == SegmentFile("/x/../y/a.segment.pending")
    ensures Published(c, src, map[r.name := src], r, FIRST_ROW, 128, 1)
    ensures RowsNewlineBlind(c, src, FIRST_ROW, 1) && !SegmentAccepts(c, map[r.name := src], r)
  {
    hide CollisionFree, HexRanges, Published, Referable, RowCodec, RowsNewlineBlind, ShortDigest, Stageable;
    src := [123, 125, NEWLINE];
    assert FindNewline(src, 2) == 2 == FindNewline(src, 1) == FindNewline(src, 0);
    var name := DottedName();
    c, r := RowIsPublished(name, src, true);
    BlindRow(src);
  }
}
