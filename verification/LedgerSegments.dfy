/** What the window verifier and the segment verifier make of a written log. */
module LedgerSegments {
  import opened Foundations
  import opened ChainRows
  import opened FragmentedRow
  import opened ChainWindow
  import opened Segments
  import opened LedgerWriter

  /** The bytes a window shows: at most the limit, in which the byte before the cursor counts. */
  function Shown(src: Bytes, cursor: Cursor, maxBytes: nat): Bytes
    requires cursor.offset <= |src|
  {
    var room := if cursor.offset == 0 || maxBytes == 0 then maxBytes else maxBytes - 1;
    if |src| - cursor.offset <= room then src[cursor.offset..] else src[cursor.offset..cursor.offset + room]
  }

  /** A call is refused exactly when its cursor, its limit or its window is not in order. */
  lemma {:induction false} WindowRefusedExactly(c: Codec, src: Bytes, cursor: Cursor, maxBytes: nat, limit: nat)
    ensures WindowVerdict(c, src, cursor, maxBytes, limit) == Refused
       <==> !GoodCall(cursor, limit) || !(128 <= maxBytes <= 1048576)
  {
    hide ScanRows;
  }

  lemma {:induction false} ShownIsWindow(src: Bytes, cursor: Cursor, maxBytes: nat)
    requires cursor.offset <= |src| && maxBytes >= 128
    ensures Shown(src, cursor, maxBytes) == src[cursor.offset..WindowEnd(src, cursor, maxBytes)]
  {
  }

  /** A scan of the window alone is a scan of the source up to its end. */
  lemma {:induction false} WindowScans(c: Codec, src: Bytes, cursor: Cursor, maxBytes: nat, limit: nat)
    requires GoodCall(cursor, limit) && 128 <= maxBytes <= 1048576 && StartsRow(src, cursor)
    ensures var shown := Shown(src, cursor, maxBytes);
            WindowVerdict(c, src, cursor, maxBytes, limit)
            == (match ScanRows(c, src[..cursor.offset] + shown, 0, cursor, limit)
                case Broken => Rejected
                case Chained(next) =>
                  if next.sequence == cursor.sequence then NoCompleteRow
                  else Verified(next, c.sha256(src[cursor.offset..next.offset])))
  {
    hide ScanRows;
    ShownIsWindow(src, cursor, maxBytes);
    WindowFromSource(c, src, cursor, maxBytes, limit);
    SplitAtCursor(src, cursor.offset, WindowEnd(src, cursor, maxBytes));
  }

  /** Away from a row start the window is rejected. */
  lemma {:induction false} WindowInsideRowRejected(c: Codec, src: Bytes, cursor: Cursor, maxBytes: nat, limit: nat)
    requires GoodCall(cursor, limit) && 128 <= maxBytes <= 1048576 && !StartsRow(src, cursor)
    ensures WindowVerdict(c, src, cursor, maxBytes, limit) == Rejected
  {
    hide ScanRows;
  }

  /** The first min(n, limit) of the written rows that the window shows whole are verified. */
  lemma {:induction false} WrittenRowsInWindow(c: Codec, src: Bytes, cursor: Cursor, maxBytes: nat, limit: nat,
                                               rows: seq<LogRow>, tail: Bytes)
    requires GoodCall(cursor, limit) && 128 <= maxBytes <= 1048576 && StartsRow(src, cursor)
    requires Written(c, rows, cursor.sequence, cursor.lastHash) && NEWLINE !in tail
    requires Shown(src, cursor, maxBytes) == LogBytes(rows) + tail
    ensures var taken := rows[..Min(limit, |rows|)];
            WindowVerdict(c, src, cursor, maxBytes, limit)
            == if rows == [] then NoCompleteRow else Verified(CursorAfter(c, taken, cursor), c.sha256(LogBytes(taken)))
  {
    hide CursorAfter, FindNewline, LogBytes, NextRow, ScanRows, WindowVerdict, Written;
    var taken := rows[..Min(limit, |rows|)];
    var shown := Shown(src, cursor, maxBytes);
    WindowScans(c, src, cursor, maxBytes, limit);
    assert src[..cursor.offset] + shown == src[..cursor.offset] + LogBytes(rows) + tail;
    WrittenRowsScan(c, src[..cursor.offset], rows, tail, cursor, limit);
    RowsEnd(c, taken, cursor);
    LogPrefix(rows, |taken|);
    ShownPrefix(src, cursor, maxBytes, |LogBytes(taken)|);
    assert shown[..|LogBytes(taken)|] == LogBytes(rows)[..|LogBytes(taken)|];
  }

  lemma {:induction false} ShownPrefix(src: Bytes, cursor: Cursor, maxBytes: nat, n: nat)
    requires cursor.offset <= |src| && n <= |Shown(src, cursor, maxBytes)|
    ensures cursor.offset + n <= |src| && src[cursor.offset..cursor.offset + n] == Shown(src, cursor, maxBytes)[..n]
  {
  }

  /** A line that reads as no row which follows, among those that would be taken, gets the window rejected. */
  lemma {:induction false} BadLineInWindowRejected(c: Codec, src: Bytes, cursor: Cursor, maxBytes: nat, limit: nat,
                                                   rows: seq<LogRow>, bad: Bytes, rest: Bytes)
    requires GoodCall(cursor, limit) && 128 <= maxBytes <= 1048576 && StartsRow(src, cursor)
    requires Written(c, rows, cursor.sequence, cursor.lastHash) && OneLine(bad) && |rows| < limit
    requires Shown(src, cursor, maxBytes) == LogBytes(rows) + (bad + rest)
    requires ReadsAsNothing(c, bad, CursorAfter(c, rows, cursor))
    ensures WindowVerdict(c, src, cursor, maxBytes, limit) == Rejected
  {
    hide CursorAfter, FindNewline, LogBytes, NextRow, ReadsAsNothing, ScanRows, WindowVerdict, Written;
    WindowScans(c, src, cursor, maxBytes, limit);
    assert src[..cursor.offset] + Shown(src, cursor, maxBytes) == src[..cursor.offset] + LogBytes(rows) + (bad + rest);
    BadLineBreaks(c, src[..cursor.offset], rows, bad, rest, cursor, limit);
  }

  // ----- Segments -----

  /** Each line reads as its body, and the bodies follow one another to the last digest. */
  predicate LinesRead(c: Codec, lines: seq<Bytes>, bodies: seq<map<string, Json>>, sequence: nat, previous: string, last: string)
    decreases |lines|
  {
    |lines| == |bodies|
    && if lines == [] then last == previous
       else ReadsAs(c, lines[0], bodies[0], sequence, previous, DigestOf(c, bodies[0]))
            && LinesRead(c, lines[1..], bodies[1..], sequence + 1, DigestOf(c, bodies[0]), last)
  }

  lemma {:induction false} ReadLinesChain(c: Codec, lines: seq<Bytes>, bodies: seq<map<string, Json>>, sequence: nat,
                                          previous: string, last: string)
    requires LinesRead(c, lines, bodies, sequence, previous, last)
    ensures ChainLines(c, lines, sequence, previous) == Some(last)
    decreases |lines|
  {
    hide LineDigest, ReadsAs;
    if lines != [] {
      var digest := DigestOf(c, bodies[0]);
      LineAcceptedExactly(c, lines[0], sequence, previous, digest);
      ReadLinesChain(c, lines[1..], bodies[1..], sequence + 1, digest, last);
    }
  }

  lemma {:induction false} ChainedLinesRead(c: Codec, lines: seq<Bytes>, sequence: nat, previous: string, last: string)
      returns (bodies: seq<map<string, Json>>)
    requires ChainLines(c, lines, sequence, previous) == Some(last)
    ensures LinesRead(c, lines, bodies, sequence, previous, last)
    decreases |lines|
  {
    hide LineDigest;
    if lines == [] {
      bodies := [];
    } else {
      var digest := LineDigest(c, lines[0], sequence, previous).value;
      LineAcceptedExactly(c, lines[0], sequence, previous, digest);
      var body: map<string, Json> :| ReadsAs(c, lines[0], body, sequence, previous, digest);
      var rest := ChainedLinesRead(c, lines[1..], sequence + 1, digest, last);
      bodies := [body] + rest;
      assert bodies[1..] == rest;
    }
  }

  /** The receipt of a segment of one to 256 rows and at most a mebibyte, under a path a plan may refer to. */
  predicate GoodSegmentReceipt(r: SegmentReceipt) {
    && IsHash(r.start.lastHash) && IsHash(r.next.lastHash) && IsHash(r.sha)
    && r.start.sequence < r.next.sequence <= r.start.sequence + 256
    && r.start.offset < r.next.offset <= r.start.offset + 1048576 && r.size == r.next.offset - r.start.offset
    && Stageable(r.name) && Referable(r.name)
  }

  /**
    A segment is accepted exactly when its receipt is in order, its file has the receipt's size and
    digest and ends with a newline, and its lines, as many as the receipt says, read as bodies that
    follow one another from the receipt's start to its end.
   */
  lemma {:induction false} SegmentAcceptedExactly(c: Codec, files: Disk, r: SegmentReceipt)
    ensures SegmentAccepts(c, files, r)
       <==> && GoodSegmentReceipt(r) && r.name in files
            && |files[r.name]| == r.size && c.sha256(files[r.name]) == r.sha && files[r.name][r.size - 1] == NEWLINE
            && |Lines(files[r.name])| == r.next.sequence - r.start.sequence
            && exists bodies: seq<map<string, Json>> ::
                 LinesRead(c, Lines(files[r.name]), bodies, r.start.sequence, r.start.lastHash, r.next.lastHash)
  {
    hide ChainLines, Lines, LinesRead, Referable, Stageable;
    if SegmentAccepts(c, files, r) {
      var bodies := ChainedLinesRead(c, Lines(files[r.name]), r.start.sequence, r.start.lastHash, r.next.lastHash);
    }
    if r.name in files {
      forall bodies: seq<map<string, Json>>
        | LinesRead(c, Lines(files[r.name]), bodies, r.start.sequence, r.start.lastHash, r.next.lastHash)
        ensures ChainLines(c, Lines(files[r.name]), r.start.sequence, r.start.lastHash) == Some(r.next.lastHash)
      {
        ReadLinesChain(c, Lines(files[r.name]), bodies, r.start.sequence, r.start.lastHash, r.next.lastHash);
      }
    }
  }

  /** A path without a dot beside a separator or at an end, and not too long, may be referred to. */
  lemma {:induction false} PlainPathReferable(path: string)
    requires 1 <= |path| <= 1024 && path[0] != '.'
    requires forall ch :: ch in path ==> ch != '\\' && ch != '\0'
    requires forall i :: 0 < i < |path| && path[i] == '.' ==> path[i - 1] != '/'
    ensures Referable(SegmentFile(path))
  {
    var s := Slashed(path);
    forall i | 0 <= i < |path| ensures s[i] == path[i] { assert path[i] in path; }
    forall i | 0 <= i <= |s| - 1 ensures !PartAt(s, ".", i) {
      assert s[i..i + 1][0] == s[i];
    }
    forall i | 0 <= i <= |s| - 2 ensures !PartAt(s, "..", i) {
      assert s[i..i + 2][0] == s[i];
    }
  }

  /** The lines of written rows are those rows without their newlines. */
  lemma {:induction false} LinesOfLog(rows: seq<LogRow>)
    requires forall i :: 0 <= i < |rows| ==> OneLine(rows[i].line)
    ensures |Lines(LogBytes(rows))| == |rows|
    ensures forall i :: 0 <= i < |rows| ==> rows[i].line != [] && Lines(LogBytes(rows))[i] == rows[i].line[..|rows[i].line| - 1]
    decreases |rows|
  {
    hide FindNewline, Lines, OneLine;
    LinesUnfold(LogBytes(rows));
    if rows == [] {
      var nothing: Bytes := [];
      NoNewline(nothing, nothing);
      assert nothing + nothing == nothing;
    } else {
      var line, more := rows[0].line, LogBytes(rows[1..]);
      LinesOfLog(rows[1..]);
      FirstLine(line, more);
      assert LogBytes(rows) == line + more;
    }
  }

  lemma {:induction false} FirstLine(line: Bytes, more: Bytes)
    requires OneLine(line)
    ensures FindNewline(line + more, 0) == |line| - 1 < |line + more|
    ensures (line + more)[..|line| - 1] == line[..|line| - 1] && (line + more)[|line| - 1 + 1..] == more
  {
    NewlineOfLine([], line, more);
    assert [] + line + more == line + more;
  }

  /**
    Written rows make an accepted segment: one to 256 of them, each of which decodes alike without
    its newline, staged with the receipt of exactly their bytes under a path a plan may refer to.
   */
  lemma {:induction false} WrittenSegmentAccepted(c: Codec, files: Disk, r: SegmentReceipt, rows: seq<LogRow>)
    requires Written(c, rows, r.start.sequence, r.start.lastHash) && 1 <= |rows| <= 256
    requires forall i :: 0 <= i < |rows| ==> DecodesAlike(c, rows[i].line)
    requires r.next == CursorAfter(c, rows, r.start) && r.size == |LogBytes(rows)| <= 1048576
    requires r.sha == c.sha256(LogBytes(rows)) && IsHash(r.sha) && IsHash(r.start.lastHash)
    requires Stageable(r.name) && Referable(r.name) && r.name in files && files[r.name] == LogBytes(rows)
    ensures SegmentAccepts(c, files, r)
  {
    hide ChainLines, CursorAfter, Lines, LogBytes, Referable, Stageable, Written;
    AllOneLine(c, rows, r.start.sequence, r.start.lastHash);
    LinesOfLog(rows);
    RowsEnd(c, rows, r.start);
    LastByte(c, rows, r.start);
    WrittenLinesChain(c, rows, Lines(LogBytes(rows)), r.start);
  }

  predicate DecodesAlike(c: Codec, line: Bytes) {
    line != [] && c.loads(line[..|line| - 1]) == c.loads(line)
  }

  lemma {:induction false} AllOneLine(c: Codec, rows: seq<LogRow>, sequence: nat, previous: string)
    requires Written(c, rows, sequence, previous)
    ensures forall i :: 0 <= i < |rows| ==> OneLine(rows[i].line)
    decreases |rows|
  {
    hide OneLine;
    if rows != [] {
      AllOneLine(c, rows[1..], sequence + 1, DigestOf(c, rows[0].body));
      forall i | 0 <= i < |rows| ensures OneLine(rows[i].line) {
        if i > 0 { assert rows[i] == rows[1..][i - 1]; }
      }
    }
  }

  lemma {:induction false} LastByte(c: Codec, rows: seq<LogRow>, a: Cursor)
    requires Written(c, rows, a.sequence, a.lastHash) && rows != []
    ensures LogBytes(rows) != [] && LogBytes(rows)[|LogBytes(rows)| - 1] == NEWLINE
    ensures IsHash(CursorAfter(c, rows, a).lastHash)
    decreases |rows|
  {
    hide IsHash;
    var b := WrittenUnfolds(c, rows, a);
    if rows[1..] != [] { LastByte(c, rows[1..], b); }
  }

  lemma {:induction false} WrittenLinesChain(c: Codec, rows: seq<LogRow>, lines: seq<Bytes>, a: Cursor)
    requires Written(c, rows, a.sequence, a.lastHash) && |lines| == |rows|
    requires forall i :: 0 <= i < |rows| ==> DecodesAlike(c, rows[i].line)
    requires forall i :: 0 <= i < |rows| ==> rows[i].line != [] && lines[i] == rows[i].line[..|rows[i].line| - 1]
    ensures ChainLines(c, lines, a.sequence, a.lastHash) == Some(CursorAfter(c, rows, a).lastHash)
    decreases |rows|
  {
    hide LineDigest, Written;
    if rows != [] {
      var b := WrittenUnfolds(c, rows, a);
      assert ReadsAs(c, lines[0], rows[0].body, a.sequence, a.lastHash, DigestOf(c, rows[0].body));
      LineAcceptedExactly(c, lines[0], a.sequence, a.lastHash, DigestOf(c, rows[0].body));
      WrittenLinesChain(c, rows[1..], lines[1..], b);
    }
  }
}
