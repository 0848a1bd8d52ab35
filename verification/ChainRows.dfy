/**
  The hash chain itself: what one row must satisfy, the forward scan that both verifiers run,
  and a declarative definition of a chain that the scan is proved to decide.
 */
module ChainRows {
  import opened Foundations

  datatype Cursor = Cursor(offset: nat, sequence: nat, lastHash: string)

  /** The digest a line carries, if the line is the row that follows `sequence` and `previous`. */
  function RowDigest(c: Codec, line: Bytes, sequence: nat, previous: string): Option<string> {
    match c.loads(line)
    case Some(Object(fields)) =>
      if "hash" in fields && fields["hash"].Text? then
        var digest := fields["hash"].text;
        var body := fields - {"hash"};
        if "sequence" in body && body["sequence"] == Int(sequence + 1)
           && "previous_hash" in body && body["previous_hash"] == Text(previous)
           && IsHash(digest) && c.sha256(c.canonical(body)) == digest
        then Some(digest) else None
      else None
    case _ => None
  }

  /** The first newline at or after `from`, or the length when there is none. */
  function FindNewline(data: Bytes, from: nat): (r: nat)
    requires from <= |data|
    ensures from <= r <= |data|
    ensures r < |data| ==> data[r] == NEWLINE
    ensures forall i :: from <= i < r ==> data[i] != NEWLINE
    decreases |data| - from
  {
    if from == |data| || data[from] == NEWLINE then from else FindNewline(data, from + 1)
  }

  datatype Row = Incomplete | Mismatch | Linked(next: Cursor)

  /** The row at `cur`, in bytes `data` that begin at absolute offset `base`. */
  function NextRow(c: Codec, data: Bytes, base: nat, cur: Cursor): (r: Row)
    requires base <= cur.offset <= base + |data|
    ensures r.Linked? ==> cur.offset < r.next.offset <= base + |data| && r.next.sequence == cur.sequence + 1
  {
    var end := FindNewline(data, cur.offset - base);
    if end == |data| then Incomplete
    else
      match RowDigest(c, data[cur.offset - base..end + 1], cur.sequence, cur.lastHash)
      case None => Mismatch
      case Some(digest) => Linked(Cursor(base + end + 1, cur.sequence + 1, digest))
  }

  datatype Scan = Broken | Chained(next: Cursor)

  /**
    Up to `limit` complete rows from `cur`. An incomplete last row is left alone; one row that
    does not link breaks the whole scan.
   */
  function ScanRows(c: Codec, data: Bytes, base: nat, cur: Cursor, limit: nat): (s: Scan)
    requires base <= cur.offset <= base + |data|
    ensures s.Chained? ==> cur.offset <= s.next.offset <= base + |data|
    ensures s.Chained? ==> cur.sequence <= s.next.sequence <= cur.sequence + limit
    ensures s.Chained? ==> (s.next.offset == cur.offset <==> s.next.sequence == cur.sequence)
    ensures s.Chained? && s.next.offset == cur.offset ==> s.next == cur
    decreases limit
  {
    if limit == 0 then Chained(cur)
    else
      match NextRow(c, data, base, cur)
      case Incomplete => Chained(cur)
      case Mismatch => Broken
      case Linked(next) => ScanRows(c, data, base, next, limit - 1)
  }

  /** The rows from `a` to `b` in `src` are exactly a chain: one pass over those bytes ends at `b`. */
  predicate Extension(c: Codec, src: Bytes, a: Cursor, b: Cursor) {
    a.offset <= b.offset <= |src|
    && a.sequence <= b.sequence
    && ScanRows(c, src[..b.offset], 0, a, b.sequence - a.sequence) == Chained(b)
  }

  /** A cursor where a row may start. */
  predicate AtRowStart(src: Bytes, offset: nat) {
    offset <= |src| && (offset == 0 || src[offset - 1] == NEWLINE)
  }

  // ----- The declarative chain -----

  /** Bytes p..q of `data` are one complete line. */
  predicate IsLine(data: Bytes, p: nat, q: nat) {
    p < q <= |data| && data[q - 1] == NEWLINE && forall i :: p <= i < q - 1 ==> data[i] != NEWLINE
  }

  /** One link: the line between two cursors is the row that follows the first and carries the second's hash. */
  predicate Links(c: Codec, data: Bytes, x: Cursor, y: Cursor) {
    IsLine(data, x.offset, y.offset)
    && y.sequence == x.sequence + 1
    && RowDigest(c, data[x.offset..y.offset], x.sequence, x.lastHash) == Some(y.lastHash)
  }

  /** A path of cursors, each linked to the next by a complete row. */
  ghost predicate IsChain(c: Codec, data: Bytes, path: seq<Cursor>) {
    |path| > 0 && path[0].offset <= |data|
    && forall i :: 0 <= i < |path| - 1 ==> Links(c, data, path[i], path[i + 1])
  }

  /** How many complete lines start at or after `from`. */
  function CompleteLines(data: Bytes, from: nat): (n: nat)
    requires from <= |data|
    decreases |data| - from
  {
    var end := FindNewline(data, from);
    if end == |data| then 0 else 1 + CompleteLines(data, end + 1)
  }

  lemma {:induction false} NewlineIsUnique(data: Bytes, p: nat, q: nat)
    requires IsLine(data, p, q)
    ensures FindNewline(data, p) == q - 1
  {
    assert data[q - 1] == NEWLINE;
  }

  /** Every chain of cursors is found: the scan follows it to its end. */
  lemma {:induction false} ScanFollowsChain(c: Codec, data: Bytes, path: seq<Cursor>)
    requires IsChain(c, data, path)
    ensures ScanRows(c, data, 0, path[0], |path| - 1) == Chained(path[|path| - 1])
    decreases |path|
  {
    hide RowDigest;
    if |path| > 1 {
      assert Links(c, data, path[0], path[1]);
      NewlineIsUnique(data, path[0].offset, path[1].offset);
      var rest := path[1..];
      forall i | 0 <= i < |rest| - 1 ensures Links(c, data, rest[i], rest[i + 1]) {
        assert Links(c, data, path[i + 1], path[i + 2]);
      }
      ScanFollowsChain(c, data, rest);
    }
  }

  /** Every successful scan has a chain of cursors behind it. */
  lemma {:induction false} ScanHasChain(c: Codec, data: Bytes, cur: Cursor, limit: nat) returns (path: seq<Cursor>)
    requires cur.offset <= |data|
    requires ScanRows(c, data, 0, cur, limit).Chained?
    ensures IsChain(c, data, path) && path[0] == cur
    ensures path[|path| - 1] == ScanRows(c, data, 0, cur, limit).next
    ensures |path| - 1 == Min(limit, CompleteLines(data, cur.offset))
    decreases limit
  {
    hide RowDigest;
    if limit == 0 || NextRow(c, data, 0, cur).Incomplete? {
      path := [cur];
    } else {
      var y := NextRow(c, data, 0, cur).next;
      var rest := ScanHasChain(c, data, y, limit - 1);
      path := [cur] + rest;
      assert Links(c, data, cur, y);
      forall i | 0 <= i < |path| - 1 ensures Links(c, data, path[i], path[i + 1]) {
        if i > 0 { assert Links(c, data, rest[i - 1], rest[i]); }
      }
    }
  }

  /** Some chain of exactly `rows` links leads from `a` to `b`. */
  ghost predicate ChainReaches(c: Codec, data: Bytes, a: Cursor, rows: nat, b: Cursor) {
    exists path: seq<Cursor> :: IsChain(c, data, path) && |path| == rows + 1 && path[0] == a && path[rows] == b
  }

  /**
    The scan decides chains exactly. With n complete lines after the cursor and limit k it ends
    at `b` if and only if the first min(n, k) complete lines form a chain that leads to `b`.
   */
  lemma {:induction false} ScanReaches(c: Codec, data: Bytes, a: Cursor, limit: nat, b: Cursor)
    requires a.offset <= |data|
    ensures var rows := Min(limit, CompleteLines(data, a.offset));
            (ScanRows(c, data, 0, a, limit) == Chained(b) <==> ChainReaches(c, data, a, rows, b))
            && (ChainReaches(c, data, a, rows, b) ==> b.sequence == a.sequence + rows)
  {
    hide RowDigest, ScanRows;
    var rows := Min(limit, CompleteLines(data, a.offset));
    ScanLimitSlack(c, data, 0, a, rows, limit);
    forall path: seq<Cursor> | IsChain(c, data, path) && |path| == rows + 1 && path[0] == a && path[rows] == b
      ensures ScanRows(c, data, 0, a, limit) == Chained(b) && b.sequence == a.sequence + rows
    {
      ScanFollowsChain(c, data, path);
      ChainSequences(c, data, path);
    }
    if ScanRows(c, data, 0, a, limit) == Chained(b) {
      var path := ScanHasChain(c, data, a, limit);
    }
  }

  /** Raising the limit changes nothing once every complete line has been taken. */
  lemma {:induction false} ScanLimitSlack(c: Codec, data: Bytes, base: nat, cur: Cursor, rows: nat, limit: nat)
    requires base <= cur.offset <= base + |data|
    requires rows == Min(limit, CompleteLines(data, cur.offset - base))
    ensures ScanRows(c, data, base, cur, limit) == ScanRows(c, data, base, cur, rows)
    decreases limit
  {
    if limit > 0 {
      var row := NextRow(c, data, base, cur);
      if row.Linked? { ScanLimitSlack(c, data, base, row.next, rows - 1, limit - 1); }
    }
  }

  // ----- Windows, prefixes and composition -----

  /** A slice of a range of the source is a range of the source. */
  lemma {:induction false} SliceOfRange(src: Bytes, start: nat, end: nat, lo: nat, hi: nat)
    requires start <= end <= |src| && lo <= hi <= end - start
    ensures src[start..end][lo..hi] == src[start + lo..start + hi]
    ensures src[start..end][lo..] == src[start + lo..end] == src[..end][start + lo..]
    ensures src[start..end][..hi] == src[start..start + hi]
  {
    var part := src[start..end];
    assert forall i :: 0 <= i < |part| ==> part[i] == src[start + i];
  }

  lemma {:induction false} NewlineShift(data: Bytes, part: Bytes, base: nat, from: nat)
    requires base + |part| == |data| && part == data[base..]
    requires from <= |part|
    ensures FindNewline(data, base + from) == base + FindNewline(part, from)
    decreases |part| - from
  {
    if from < |part| && part[from] != NEWLINE {
      assert data[base + from] == part[from];
      NewlineShift(data, part, base, from + 1);
    }
  }

  lemma {:induction false} WindowRow(c: Codec, data: Bytes, part: Bytes, base: nat, cur: Cursor)
    requires base + |part| == |data| && part == data[base..]
    requires base <= cur.offset <= base + |part|
    ensures NextRow(c, part, base, cur) == NextRow(c, data, 0, cur)
  {
    hide RowDigest;
    NewlineShift(data, part, base, cur.offset - base);
    var end := FindNewline(part, cur.offset - base);
    if end < |part| { SliceOfRange(data, base, |data|, cur.offset - base, end + 1); }
    assert data[base..|data|] == data[base..];
  }

  /** Scanning a window is scanning the source up to the window's end. */
  lemma {:induction false} WindowScan(c: Codec, data: Bytes, part: Bytes, base: nat, cur: Cursor, limit: nat)
    requires base + |part| == |data| && part == data[base..]
    requires base <= cur.offset <= base + |part|
    ensures ScanRows(c, part, base, cur, limit) == ScanRows(c, data, 0, cur, limit)
    decreases limit
  {
    if limit > 0 {
      WindowRow(c, data, part, base, cur);
      var row := NextRow(c, part, base, cur);
      if row.Linked? { WindowScan(c, data, part, base, row.next, limit - 1); }
    }
  }

  lemma {:induction false} NewlineInPrefix(x: Bytes, y: Bytes, bound: nat, from: nat)
    requires from <= bound <= |x| && bound <= |y| && x[..bound] == y[..bound]
    requires FindNewline(x, from) < bound
    ensures FindNewline(y, from) == FindNewline(x, from)
    decreases bound - from
  {
    if from < bound {
      assert x[from] == x[..bound][from] == y[from];
      if x[from] != NEWLINE { NewlineInPrefix(x, y, bound, from + 1); }
    }
  }

  lemma {:induction false} RowDependsOnPrefix(c: Codec, x: Bytes, y: Bytes, a: Cursor, bound: nat)
    requires a.offset <= bound <= |x| && bound <= |y| && x[..bound] == y[..bound]
    requires NextRow(c, x, 0, a).Linked? && NextRow(c, x, 0, a).next.offset <= bound
    ensures NextRow(c, y, 0, a) == NextRow(c, x, 0, a)
  {
    NewlineInPrefix(x, y, bound, a.offset);
    var end := FindNewline(x, a.offset);
    assert x[a.offset..end + 1] == x[..bound][a.offset..end + 1] == y[..bound][a.offset..end + 1] == y[a.offset..end + 1];
  }

  /** The rows taken depend only on the bytes before the end cursor, not on what follows. */
  lemma {:induction false} ScanDependsOnPrefix(c: Codec, x: Bytes, y: Bytes, a: Cursor, b: Cursor, rows: nat)
    requires a.offset <= |x| && a.offset <= |y|
    requires ScanRows(c, x, 0, a, rows) == Chained(b) && b.sequence == a.sequence + rows
    requires b.offset <= |y| && x[..b.offset] == y[..b.offset]
    ensures ScanRows(c, y, 0, a, rows) == Chained(b)
    decreases rows
  {
    if rows > 0 {
      var row := NextRow(c, x, 0, a);
      RowDependsOnPrefix(c, x, y, a, b.offset);
      ScanDependsOnPrefix(c, x, y, row.next, b, rows - 1);
    }
  }

  /** A limited scan is also an exact scan of the rows it took, over just the bytes it took. */
  lemma {:induction false} ScanTaken(c: Codec, data: Bytes, a: Cursor, limit: nat)
    requires a.offset <= |data|
    requires ScanRows(c, data, 0, a, limit).Chained?
    ensures var b := ScanRows(c, data, 0, a, limit).next;
            ScanRows(c, data, 0, a, b.sequence - a.sequence) == Chained(b)
    ensures Extension(c, data, a, ScanRows(c, data, 0, a, limit).next)
    decreases limit
  {
    var b := ScanRows(c, data, 0, a, limit).next;
    var path := ScanHasChain(c, data, a, limit);
    ScanFollowsChain(c, data, path);
    ChainSequences(c, data, path);
    ScanDependsOnPrefix(c, data, data[..b.offset], a, b, b.sequence - a.sequence);
  }

  lemma {:induction false} ChainSequences(c: Codec, data: Bytes, path: seq<Cursor>)
    requires IsChain(c, data, path)
    ensures path[|path| - 1].sequence == path[0].sequence + |path| - 1
    decreases |path|
  {
    if |path| > 1 {
      assert Links(c, data, path[0], path[1]);
      var rest := path[1..];
      forall i | 0 <= i < |rest| - 1 ensures Links(c, data, rest[i], rest[i + 1]) {
        assert Links(c, data, path[i + 1], path[i + 2]);
      }
      ChainSequences(c, data, rest);
    }
  }

  /** Taking j rows and then k more is taking j + k rows. */
  lemma {:induction false} ScanComposes(c: Codec, data: Bytes, a: Cursor, b: Cursor, j: nat, k: nat)
    requires a.offset <= |data|
    requires ScanRows(c, data, 0, a, j) == Chained(b) && b.sequence == a.sequence + j
    ensures ScanRows(c, data, 0, a, j + k) == ScanRows(c, data, 0, b, k)
    decreases j
  {
    if j > 0 {
      ScanComposes(c, data, NextRow(c, data, 0, a).next, b, j - 1, k);
    }
  }

  /** Two adjacent extensions are one: the verdict and end cursor of a single pass. */
  lemma {:induction false} ExtensionsCompose(c: Codec, src: Bytes, a: Cursor, b: Cursor, d: Cursor)
    requires Extension(c, src, a, b) && Extension(c, src, b, d)
    ensures Extension(c, src, a, d)
  {
    hide ScanRows;
    var whole := src[..d.offset];
    assert src[..b.offset] == src[..b.offset][..b.offset] == whole[..b.offset];
    ScanDependsOnPrefix(c, src[..b.offset], whole, a, b, b.sequence - a.sequence);
    ScanComposes(c, whole, a, b, b.sequence - a.sequence, d.sequence - b.sequence);
  }

  lemma {:induction false} ExtensionOfSelf(c: Codec, src: Bytes, a: Cursor)
    requires a.offset <= |src|
    ensures Extension(c, src, a, a)
  {
  }

  /** An extension stays one when the source grows. */
  lemma {:induction false} ExtensionSurvivesAppend(c: Codec, src: Bytes, more: Bytes, a: Cursor, b: Cursor)
    requires Extension(c, src, a, b)
    ensures Extension(c, src + more, a, b)
  {
    assert (src + more)[..b.offset] == src[..b.offset];
  }

  /** A source and a start cursor have at most one extension of a given number of rows. */
  lemma {:induction false} ExtensionIsUnique(c: Codec, src: Bytes, a: Cursor, b: Cursor, d: Cursor)
    requires Extension(c, src, a, b) && Extension(c, src, a, d)
    requires b.sequence == d.sequence
    ensures b == d
  {
    hide NextRow;
    var rows := b.sequence - a.sequence;
    assert src[..b.offset] == src[..b.offset][..b.offset] == src[..b.offset];
    ScanDependsOnPrefix(c, src[..b.offset], src, a, b, rows);
    ScanDependsOnPrefix(c, src[..d.offset], src, a, d, rows);
  }

  /** An extension that takes rows ends where a row may start. */
  lemma {:induction false} ExtensionEndsAtRowStart(c: Codec, src: Bytes, a: Cursor, b: Cursor)
    requires Extension(c, src, a, b) && a.offset < b.offset
    ensures AtRowStart(src, b.offset)
  {
    var data := src[..b.offset];
    var path := ScanHasChain(c, data, a, b.sequence - a.sequence);
    assert Links(c, data, path[|path| - 2], path[|path| - 1]);
  }

  // ----- What an extension means -----

  lemma {:induction false} LinksInPrefix(c: Codec, src: Bytes, n: nat, x: Cursor, y: Cursor)
    requires n <= |src| && y.offset <= n
    ensures Links(c, src[..n], x, y) <==> Links(c, src, x, y)
  {
    if x.offset < y.offset { assert src[..n][x.offset..y.offset] == src[x.offset..y.offset]; }
  }

  /** A path never goes back. */
  lemma {:induction false} PathGoesForward(c: Codec, data: Bytes, path: seq<Cursor>, i: nat)
    requires IsChain(c, data, path) && i < |path|
    ensures path[0].offset <= path[i].offset <= path[|path| - 1].offset <= |data|
    decreases |path|
  {
    if |path| > 1 {
      assert Links(c, data, path[0], path[1]);
      var rest := path[1..];
      forall k | 0 <= k < |rest| - 1 ensures Links(c, data, rest[k], rest[k + 1]) {
        assert Links(c, data, path[k + 1], path[k + 2]);
      }
      PathGoesForward(c, data, rest, if i == 0 then 0 else i - 1);
    }
  }

  lemma {:induction false} PathInPrefix(c: Codec, src: Bytes, path: seq<Cursor>, n: nat)
    requires n <= |src| && |path| > 0 && path[|path| - 1].offset <= n
    requires IsChain(c, src[..n], path) || IsChain(c, src, path)
    ensures IsChain(c, src[..n], path) && IsChain(c, src, path)
  {
    if IsChain(c, src, path) { PathGoesForward(c, src, path, 0); } else { PathGoesForward(c, src[..n], path, 0); }
    forall i | 0 <= i < |path| - 1 ensures Links(c, src, path[i], path[i + 1]) && Links(c, src[..n], path[i], path[i + 1]) {
      if IsChain(c, src, path) {
        PathGoesForward(c, src, path, i + 1);
      } else {
        PathGoesForward(c, src[..n], path, i + 1);
      }
      LinksInPrefix(c, src, n, path[i], path[i + 1]);
    }
  }

  /**
    An extension is exactly a chain: the bytes between the cursors are complete rows, one for each
    sequence number, each carrying the hash of the one before it.
   */
  lemma {:induction false} ExtensionIsChain(c: Codec, src: Bytes, a: Cursor, b: Cursor)
    requires a.offset <= |src| && b.offset <= |src| && a.sequence <= b.sequence
    ensures Extension(c, src, a, b) <==> ChainReaches(c, src, a, b.sequence - a.sequence, b)
  {
    hide RowDigest;
    var rows := b.sequence - a.sequence;
    if Extension(c, src, a, b) {
      var path := ScanHasChain(c, src[..b.offset], a, rows);
      ChainSequences(c, src[..b.offset], path);
      PathInPrefix(c, src, path, b.offset);
    }
    forall path: seq<Cursor> | IsChain(c, src, path) && |path| == rows + 1 && path[0] == a && path[rows] == b
      ensures Extension(c, src, a, b)
    {
      PathGoesForward(c, src, path, 0);
      PathInPrefix(c, src, path, b.offset);
      ScanFollowsChain(c, src[..b.offset], path);
    }
  }
}
