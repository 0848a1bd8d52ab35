/**
  The log as its writer makes it, defined without either verifier, and what the verifiers make of
  it: whatever the rows hold, written rows are accepted, and changed ones are rejected.
 */
module LedgerWriter {
  import opened Foundations
  import opened ChainRows
  import opened FragmentedRow
  import opened Segments

  /** A row as it is written: its line, and the body behind it. */
  datatype LogRow = LogRow(line: Bytes, body: map<string, Json>)

  function DigestOf(c: Codec, body: map<string, Json>): string {
    c.sha256(c.canonical(body))
  }

  /** A body that follows a sequence number and a hash, whatever else it holds. */
  predicate FollowsAs(body: map<string, Json>, sequence: nat, previous: string) {
    && "hash" !in body
    && "sequence" in body && body["sequence"] == Int(sequence + 1)
    && "previous_hash" in body && body["previous_hash"] == Text(previous)
  }

  /** One line: a newline at its end and nowhere else. */
  predicate OneLine(line: Bytes) {
    line != [] && line[|line| - 1] == NEWLINE && NEWLINE !in line[..|line| - 1]
  }

  /** The line is one, and decodes to the body with the body's digest beside it. */
  predicate WrittenRow(c: Codec, row: LogRow, sequence: nat, previous: string) {
    && OneLine(row.line) && FollowsAs(row.body, sequence, previous) && IsHash(DigestOf(c, row.body))
    && c.loads(row.line) == Some(Object(row.body["hash" := Text(DigestOf(c, row.body))]))
  }

  /** Rows written one after another. */
  predicate Written(c: Codec, rows: seq<LogRow>, sequence: nat, previous: string)
    decreases |rows|
  {
    rows == []
    || (WrittenRow(c, rows[0], sequence, previous) && Written(c, rows[1..], sequence + 1, DigestOf(c, rows[0].body)))
  }

  function LogBytes(rows: seq<LogRow>): Bytes
    decreases |rows|
  {
    if rows == [] then [] else rows[0].line + LogBytes(rows[1..])
  }

  /** The cursor past some written rows. */
  function CursorAfter(c: Codec, rows: seq<LogRow>, a: Cursor): Cursor
    decreases |rows|
  {
    if rows == [] then a
    else CursorAfter(c, rows[1..], Cursor(a.offset + |rows[0].line|, a.sequence + 1, DigestOf(c, rows[0].body)))
  }

  // ----- One event of the ledger -----

  /** What the ledger is asked to record. */
  datatype Event = Event(schema: Json, timestamp: Json, kind: string, payload: Json)

  /** The body the ledger makes of an event. */
  function BodyOf(e: Event, sequence: nat, previous: string): map<string, Json> {
    map["schema" := e.schema, "sequence" := Int(sequence + 1), "timestamp" := e.timestamp,
        "event_type" := Text(e.kind), "previous_hash" := Text(previous), "payload" := e.payload]
  }

  /** Writing a row as text is a given function: one line, read back as the row. */
  predicate WritesRow(c: Codec, dump: map<string, Json> -> Bytes, row: map<string, Json>) {
    NEWLINE !in dump(row) && c.loads(dump(row) + [NEWLINE]) == Some(Object(row))
  }

  /** The rows the ledger appends for some events. */
  function Recorded(c: Codec, dump: map<string, Json> -> Bytes, events: seq<Event>, sequence: nat, previous: string): seq<LogRow>
    decreases |events|
  {
    if events == [] then []
    else
      var body := BodyOf(events[0], sequence, previous);
      var digest := DigestOf(c, body);
      [LogRow(dump(body["hash" := Text(digest)]) + [NEWLINE], body)]
      + Recorded(c, dump, events[1..], sequence + 1, digest)
  }

  ghost predicate WritesAll(c: Codec, dump: map<string, Json> -> Bytes, events: seq<Event>, sequence: nat, previous: string)
    decreases |events|
  {
    events == []
    || (var body := BodyOf(events[0], sequence, previous);
        && IsHash(DigestOf(c, body)) && WritesRow(c, dump, body["hash" := Text(DigestOf(c, body))])
        && WritesAll(c, dump, events[1..], sequence + 1, DigestOf(c, body)))
  }

  /** What the ledger appends is a written log, whatever the events are. */
  lemma {:induction false} RecordedIsWritten(c: Codec, dump: map<string, Json> -> Bytes, events: seq<Event>,
                                             sequence: nat, previous: string)
    requires WritesAll(c, dump, events, sequence, previous)
    ensures Written(c, Recorded(c, dump, events, sequence, previous), sequence, previous)
    ensures |Recorded(c, dump, events, sequence, previous)| == |events|
    decreases |events|
  {
    if events != [] {
      var body := BodyOf(events[0], sequence, previous);
      var rows := Recorded(c, dump, events, sequence, previous);
      RecordedIsWritten(c, dump, events[1..], sequence + 1, DigestOf(c, body));
      assert rows[1..] == Recorded(c, dump, events[1..], sequence + 1, DigestOf(c, body));
      var text := dump(body["hash" := Text(DigestOf(c, body))]);
      assert (text + [NEWLINE])[..|text + [NEWLINE]| - 1] == text;
    }
  }

  // ----- Which rows are accepted -----

  /** The line decodes to a body that follows, beside the given digest, which is the body's own. */
  predicate ReadsAs(c: Codec, line: Bytes, body: map<string, Json>, sequence: nat, previous: string, digest: string) {
    FollowsAs(body, sequence, previous) && digest == DigestOf(c, body)
    && c.loads(line) == Some(Object(body["hash" := Text(digest)]))
  }

  /** The first verifier accepts a line exactly when it reads as some body that follows, with a hexadecimal digest. */
  lemma {:induction false} RowAcceptedExactly(c: Codec, line: Bytes, sequence: nat, previous: string, digest: string)
    ensures RowDigest(c, line, sequence, previous) == Some(digest)
       <==> IsHash(digest) && exists body: map<string, Json> :: ReadsAs(c, line, body, sequence, previous, digest)
  {
    if RowDigest(c, line, sequence, previous) == Some(digest) {
      var fields := c.loads(line).value.fields;
      BodyAndHash(fields, digest);
      assert ReadsAs(c, line, fields - {"hash"}, sequence, previous, digest);
    }
    forall body: map<string, Json> | ReadsAs(c, line, body, sequence, previous, digest) && IsHash(digest)
      ensures RowDigest(c, line, sequence, previous) == Some(digest)
    {
      HashApart(body, digest);
    }
  }

  /** The second verifier accepts one exactly when it reads so without its newline; the form of the digest is not looked at. */
  lemma {:induction false} LineAcceptedExactly(c: Codec, line: Bytes, sequence: nat, previous: string, digest: string)
    ensures LineDigest(c, line, sequence, previous) == Some(digest)
       <==> exists body: map<string, Json> :: ReadsAs(c, line, body, sequence, previous, digest)
  {
    if LineDigest(c, line, sequence, previous) == Some(digest) {
      var fields := c.loads(line).value.fields;
      BodyAndHash(fields, digest);
      assert ReadsAs(c, line, fields - {"hash"}, sequence, previous, digest);
    }
    forall body: map<string, Json> | ReadsAs(c, line, body, sequence, previous, digest)
      ensures LineDigest(c, line, sequence, previous) == Some(digest)
    {
      HashApart(body, digest);
    }
  }

  lemma {:induction false} BodyAndHash(fields: map<string, Json>, digest: string)
    requires "hash" in fields && fields["hash"] == Text(digest)
    ensures fields == (fields - {"hash"})["hash" := Text(digest)]
  {
  }

  lemma {:induction false} HashApart(body: map<string, Json>, digest: string)
    requires "hash" !in body
    ensures body["hash" := Text(digest)] - {"hash"} == body
  {
  }

  // ----- Written rows are accepted -----

  lemma {:induction false} NewlineOfLine(prefix: Bytes, line: Bytes, rest: Bytes)
    requires OneLine(line)
    ensures FindNewline(prefix + line + rest, |prefix|) == |prefix| + |line| - 1
    ensures (prefix + line + rest)[|prefix|..|prefix| + |line|] == line
  {
    var data := prefix + line + rest;
    assert data[|prefix| + |line| - 1] == NEWLINE;
    forall i | |prefix| <= i < |prefix| + |line| - 1 ensures data[i] != NEWLINE {
      assert data[i] == line[..|line| - 1][i - |prefix|];
    }
  }

  lemma {:induction false} NoNewline(prefix: Bytes, tail: Bytes)
    requires NEWLINE !in tail
    ensures FindNewline(prefix + tail, |prefix|) == |prefix + tail|
  {
    var data := prefix + tail;
    forall i | |prefix| <= i < |data| ensures data[i] != NEWLINE { assert data[i] == tail[i - |prefix|]; }
  }

  lemma {:induction false} LogUnfolds(prefix: Bytes, rows: seq<LogRow>, tail: Bytes)
    requires rows != []
    ensures prefix + LogBytes(rows) + tail == prefix + rows[0].line + (LogBytes(rows[1..]) + tail)
    ensures prefix + LogBytes(rows) + tail == (prefix + rows[0].line) + LogBytes(rows[1..]) + tail
  {
    var line, more := rows[0].line, LogBytes(rows[1..]);
    assert LogBytes(rows) == line + more;
    assert prefix + (line + more) + tail == prefix + line + (more + tail);
    assert prefix + (line + more) + tail == (prefix + line) + more + tail;
  }

  lemma {:induction false} WrittenUnfolds(c: Codec, rows: seq<LogRow>, a: Cursor) returns (b: Cursor)
    requires Written(c, rows, a.sequence, a.lastHash) && rows != []
    ensures WrittenRow(c, rows[0], a.sequence, a.lastHash) && Written(c, rows[1..], b.sequence, b.lastHash)
    ensures b == Cursor(a.offset + |rows[0].line|, a.sequence + 1, DigestOf(c, rows[0].body))
    ensures CursorAfter(c, rows, a) == CursorAfter(c, rows[1..], b)
  {
    b := Cursor(a.offset + |rows[0].line|, a.sequence + 1, DigestOf(c, rows[0].body));
  }

  /** The scan takes the first min(n, limit) of the rows written after the cursor, and what follows them is left alone. */
  lemma {:induction false} WrittenRowsScan(c: Codec, prefix: Bytes, rows: seq<LogRow>, tail: Bytes, a: Cursor, limit: nat)
    requires Written(c, rows, a.sequence, a.lastHash) && NEWLINE !in tail && a.offset == |prefix|
    ensures ScanRows(c, prefix + LogBytes(rows) + tail, 0, a, limit)
         == Chained(CursorAfter(c, rows[..Min(limit, |rows|)], a))
    decreases |rows|
  {
    hide CursorAfter, FindNewline, LogBytes, NextRow, ScanRows, Written, WrittenRow;
    ScanUnfolds(c, prefix + LogBytes(rows) + tail, 0, a, limit);
    NothingAfter(c, a);
    if rows == [] {
      EmptyLog(prefix, tail);
      NoRowLeft(c, prefix, tail, a);
    } else if limit > 0 {
      LogUnfolds(prefix, rows, tail);
      var b := WrittenUnfolds(c, rows, a);
      WrittenLinks(c, prefix, rows[0], LogBytes(rows[1..]) + tail, a);
      WrittenRowsScan(c, prefix + rows[0].line, rows[1..], tail, b, limit - 1);
      var taken := rows[..Min(limit, |rows|)];
      assert taken[1..] == rows[1..][..Min(limit - 1, |rows| - 1)];
      CursorUnfolds(c, taken, a);
    }
  }

  lemma {:induction false} NothingAfter(c: Codec, a: Cursor)
    ensures CursorAfter(c, [], a) == a
  {
  }

  lemma {:induction false} CursorUnfolds(c: Codec, rows: seq<LogRow>, a: Cursor)
    requires rows != []
    ensures CursorAfter(c, rows, a)
         == CursorAfter(c, rows[1..], Cursor(a.offset + |rows[0].line|, a.sequence + 1, DigestOf(c, rows[0].body)))
  {
  }

  lemma {:induction false} NoRowLeft(c: Codec, prefix: Bytes, tail: Bytes, a: Cursor)
    requires NEWLINE !in tail && a.offset == |prefix|
    ensures NextRow(c, prefix + tail, 0, a) == Incomplete
  {
    hide FindNewline;
    NoNewline(prefix, tail);
  }

  lemma {:induction false} EmptyLog(prefix: Bytes, tail: Bytes)
    ensures prefix + LogBytes([]) + tail == prefix + tail
  {
    assert prefix + [] == prefix;
  }

  lemma {:induction false} WrittenLinks(c: Codec, prefix: Bytes, row: LogRow, rest: Bytes, a: Cursor)
    requires WrittenRow(c, row, a.sequence, a.lastHash) && a.offset == |prefix|
    ensures NextRow(c, prefix + row.line + rest, 0, a)
         == Linked(Cursor(a.offset + |row.line|, a.sequence + 1, DigestOf(c, row.body)))
  {
    hide FindNewline;
    NewlineOfLine(prefix, row.line, rest);
    HashApart(row.body, DigestOf(c, row.body));
  }

  /** The bytes of written rows end where their last cursor says. */
  lemma {:induction false} RowsEnd(c: Codec, rows: seq<LogRow>, a: Cursor)
    ensures CursorAfter(c, rows, a).offset == a.offset + |LogBytes(rows)|
    ensures CursorAfter(c, rows, a).sequence == a.sequence + |rows|
    decreases |rows|
  {
    if rows != [] {
      RowsEnd(c, rows[1..], Cursor(a.offset + |rows[0].line|, a.sequence + 1, DigestOf(c, rows[0].body)));
    }
  }

  lemma {:induction false} LogPrefix(rows: seq<LogRow>, n: nat)
    requires n <= |rows|
    ensures |LogBytes(rows[..n])| <= |LogBytes(rows)| && LogBytes(rows)[..|LogBytes(rows[..n])|] == LogBytes(rows[..n])
    decreases n
  {
    if n > 0 {
      LogPrefix(rows[1..], n - 1);
      assert rows[..n][1..] == rows[1..][..n - 1];
      var line, part := rows[0].line, LogBytes(rows[1..][..n - 1]);
      assert LogBytes(rows)[..|line + part|] == line + LogBytes(rows[1..])[..|part|];
    }
  }

  // ----- The conditions on a call, spelled out -----

  /** A cursor and a limit that a call may be given. */
  predicate GoodCall(cursor: Cursor, limit: nat) {
    && IsHash(cursor.lastHash) && 1 <= limit <= 256
    && (cursor.offset == 0 ==> cursor.sequence == 0 && cursor.lastHash == GENESIS)
  }

  /** A raw fragment on disk that is what its receipt says, and the receipt is that of a range of the source. */
  predicate GoodFragment(c: Codec, files: Disk, src: Bytes, r: Receipt) {
    && r.staged && IsRawName(r.input.name) && r.input.offset < r.input.end <= |src| && r.input.end <= r.input.extent
    && r.input.size == r.input.end - r.input.offset <= 1048576
    && r.input.sha == c.sha256(src[r.input.offset..r.input.end]) && IsHash(r.input.sha)
    && r.input.name in files && files[r.input.name] == src[r.input.offset..r.input.end]
  }

  /** One fragment that contains the cursor, or two adjacent ones of the same capture of which the first does. */
  predicate GoodFragments(c: Codec, files: Disk, src: Bytes, receipts: seq<Receipt>, cursor: Cursor) {
    && 1 <= |receipts| <= 2 && GoodFragment(c, files, src, receipts[0])
    && receipts[0].input.offset <= cursor.offset < receipts[0].input.end
    && (|receipts| == 2 ==>
          && GoodFragment(c, files, src, receipts[1]) && receipts[1].input.offset == receipts[0].input.end
          && receipts[1].input.extent == receipts[0].input.extent && receipts[1].input.name != receipts[0].input.name)
  }

  /** The cursor is at the beginning of the source or just past a newline. */
  predicate StartsRow(src: Bytes, cursor: Cursor) {
    cursor.offset <= |src| && (cursor.offset > 0 ==> src[cursor.offset - 1] == 10)
  }

  /** What counts as a hash. */
  lemma {:induction false} HashExactly(s: string)
    ensures IsHash(s) <==> |s| == 64 && forall ch :: ch in s ==> ch in "0123456789abcdef"
  {
    if IsHash(s) {
      forall ch | ch in s ensures ch in "0123456789abcdef" {
        var i :| 0 <= i < |s| && s[i] == ch;
        HexDigits(ch);
      }
    }
    if |s| == 64 && forall ch :: ch in s ==> ch in "0123456789abcdef" {
      forall i | 0 <= i < 64 ensures '0' <= s[i] <= '9' || 'a' <= s[i] <= 'f' {
        assert s[i] in s;
        HexDigits(s[i]);
      }
    }
  }

  lemma {:induction false} HexDigits(ch: char)
    ensures ch in "0123456789abcdef" <==> '0' <= ch <= '9' || 'a' <= ch <= 'f'
  {
    var d := "0123456789abcdef";
    assert d[0] == '0' && d[1] == '1' && d[2] == '2' && d[3] == '3' && d[4] == '4' && d[5] == '5' && d[6] == '6';
    assert d[7] == '7' && d[8] == '8' && d[9] == '9' && d[10] == 'a' && d[11] == 'b' && d[12] == 'c' && d[13] == 'd';
    assert d[14] == 'e' && d[15] == 'f';
  }

  lemma {:induction false} GoodFragmentsPass(c: Codec, files: Disk, src: Bytes, receipts: seq<Receipt>, cursor: Cursor, limit: nat)
    requires GoodCall(cursor, limit) && GoodFragments(c, files, src, receipts, cursor)
    ensures PolicyOk(cursor, receipts, limit) && ReceiptsOk(receipts, cursor) && FilesMatch(files, src, Inputs(receipts))
    ensures Joined(c, files, Inputs(receipts)).Some?
  {
    var inputs := Inputs(receipts);
    forall i | 0 <= i < |inputs| ensures FileMatches(files, src, inputs[i]) { assert inputs[i] == receipts[i].input; }
    if |inputs| == 2 {
      assert inputs[1..] == [inputs[1]] && inputs[1..][1..] == [];
      assert Joined(c, files, inputs[1..]).Some?;
    } else {
      assert inputs[1..] == [];
    }
  }

  /** A call is refused exactly when its cursor, its limit or the number of receipts is not in order. */
  lemma {:induction false} RefusedExactly(c: Codec, files: Disk, receipts: seq<Receipt>, cursor: Cursor, limit: nat)
    ensures FragmentVerdict(c, files, receipts, cursor, limit) == Refused
       <==> !GoodCall(cursor, limit) || !(1 <= |receipts| <= 2)
  {
    hide Joined, ReceiptsOk, ScanRows;
  }

  /**
    Written rows are verified. After a row start, over fragments of any source whose bytes from the
    cursor to the fragments' end are written rows and then no further newline, the verdict is that
    the first min(n, limit) rows verify, with the digest of exactly their bytes.
   */
  lemma {:induction false} WrittenRowsVerify(c: Codec, files: Disk, src: Bytes, receipts: seq<Receipt>, cursor: Cursor,
                                             limit: nat, rows: seq<LogRow>, tail: Bytes)
    requires GoodCall(cursor, limit) && GoodFragments(c, files, src, receipts, cursor)
    requires StartsRow(src, cursor) && rows != [] && NEWLINE !in tail
    requires Written(c, rows, cursor.sequence, cursor.lastHash)
    requires src[cursor.offset..receipts[|receipts| - 1].input.end] == LogBytes(rows) + tail
    ensures var taken := rows[..Min(limit, |rows|)];
            FragmentVerdict(c, files, receipts, cursor, limit)
            == Verified(CursorAfter(c, taken, cursor), c.sha256(LogBytes(taken)))
  {
    hide CursorAfter, FindNewline, FragmentVerdict, Joined, LogBytes, NextRow, PolicyOk, ReceiptsOk, ScanRows, Written;
    var end := receipts[|receipts| - 1].input.end;
    var taken := rows[..Min(limit, |rows|)];
    GoodFragmentsPass(c, files, src, receipts, cursor, limit);
    VerdictFromSource(c, files, src, receipts, cursor, limit);
    SplitAtCursor(src, cursor.offset, end);
    assert src[..end] == src[..cursor.offset] + LogBytes(rows) + tail;
    WrittenRowsScan(c, src[..cursor.offset], rows, tail, cursor, limit);
    RowsEnd(c, taken, cursor);
    LogPrefix(rows, |taken|);
    assert src[cursor.offset..cursor.offset + |LogBytes(taken)|]
        == src[cursor.offset..end][..|LogBytes(taken)|] == LogBytes(taken);
  }

  /** No complete row after the cursor is no verdict on any. */
  lemma {:induction false} NoRowsNoVerdict(c: Codec, files: Disk, src: Bytes, receipts: seq<Receipt>, cursor: Cursor, limit: nat)
    requires GoodCall(cursor, limit) && GoodFragments(c, files, src, receipts, cursor) && StartsRow(src, cursor)
    requires NEWLINE !in src[cursor.offset..receipts[|receipts| - 1].input.end]
    ensures FragmentVerdict(c, files, receipts, cursor, limit) == NoCompleteRow
  {
    hide FragmentVerdict, Joined, PolicyOk, ReceiptsOk;
    var end := receipts[|receipts| - 1].input.end;
    GoodFragmentsPass(c, files, src, receipts, cursor, limit);
    VerdictFromSource(c, files, src, receipts, cursor, limit);
    SplitAtCursor(src, cursor.offset, end);
    NoRowLeft(c, src[..cursor.offset], src[cursor.offset..end], cursor);
  }

  /** A fragment that shows that the cursor is inside a row gets the call rejected. */
  lemma {:induction false} InsideRowRejected(c: Codec, files: Disk, src: Bytes, receipts: seq<Receipt>, cursor: Cursor, limit: nat)
    requires GoodCall(cursor, limit) && GoodFragments(c, files, src, receipts, cursor)
    requires receipts[0].input.offset < cursor.offset <= |src| && src[cursor.offset - 1] != NEWLINE
    ensures FragmentVerdict(c, files, receipts, cursor, limit) == Rejected
  {
    hide FragmentVerdict, Joined, PolicyOk, ReceiptsOk, ScanRows;
    GoodFragmentsPass(c, files, src, receipts, cursor, limit);
    VerdictFromSource(c, files, src, receipts, cursor, limit);
  }

  lemma {:induction false} SplitAtCursor(src: Bytes, at: nat, end: nat)
    requires at <= end <= |src|
    ensures src[..end] == src[..at] + src[at..end]
  {
  }

  // ----- Changed rows and changed files are rejected -----

  /** The line reads as no body that follows the cursor with a hexadecimal digest. */
  ghost predicate ReadsAsNothing(c: Codec, line: Bytes, b: Cursor) {
    forall body: map<string, Json>, h: string :: IsHash(h) ==> !ReadsAs(c, line, body, b.sequence, b.lastHash, h)
  }

  lemma {:induction false} NothingIsMismatch(c: Codec, prefix: Bytes, bad: Bytes, rest: Bytes, a: Cursor)
    requires a.offset == |prefix| && OneLine(bad) && ReadsAsNothing(c, bad, a)
    ensures NextRow(c, prefix + bad + rest, 0, a) == Mismatch
  {
    hide FindNewline, ReadsAs, RowDigest;
    NewlineOfLine(prefix, bad, rest);
    if RowDigest(c, bad, a.sequence, a.lastHash).Some? {
      RowAcceptedExactly(c, bad, a.sequence, a.lastHash, RowDigest(c, bad, a.sequence, a.lastHash).value);
    }
  }

  /** A complete line that reads as no row which follows breaks the whole scan. */
  lemma {:induction false} BadLineBreaks(c: Codec, prefix: Bytes, rows: seq<LogRow>, bad: Bytes, rest: Bytes, a: Cursor, limit: nat)
    requires Written(c, rows, a.sequence, a.lastHash) && a.offset == |prefix| && OneLine(bad) && |rows| < limit
    requires ReadsAsNothing(c, bad, CursorAfter(c, rows, a))
    ensures ScanRows(c, prefix + LogBytes(rows) + (bad + rest), 0, a, limit) == Broken
    decreases |rows|
  {
    hide CursorAfter, FindNewline, LogBytes, NextRow, ReadsAsNothing, ScanRows, Written, WrittenRow;
    var tail := bad + rest;
    ScanUnfolds(c, prefix + LogBytes(rows) + tail, 0, a, limit);
    NothingAfter(c, a);
    if rows == [] {
      EmptyLog(prefix, tail);
      assert prefix + tail == prefix + bad + rest;
      NothingIsMismatch(c, prefix, bad, rest, a);
    } else {
      LogUnfolds(prefix, rows, tail);
      var b := WrittenUnfolds(c, rows, a);
      WrittenLinks(c, prefix, rows[0], LogBytes(rows[1..]) + tail, a);
      BadLineBreaks(c, prefix + rows[0].line, rows[1..], bad, rest, b, limit - 1);
    }
  }

  /** Any such line among the rows that would be taken gets the whole batch rejected. */
  lemma {:induction false} BadLineRejected(c: Codec, files: Disk, src: Bytes, receipts: seq<Receipt>, cursor: Cursor,
                                           limit: nat, rows: seq<LogRow>, bad: Bytes, rest: Bytes)
    requires GoodCall(cursor, limit) && GoodFragments(c, files, src, receipts, cursor)
    requires Written(c, rows, cursor.sequence, cursor.lastHash) && OneLine(bad) && |rows| < limit
    requires src[cursor.offset..receipts[|receipts| - 1].input.end] == LogBytes(rows) + (bad + rest)
    requires ReadsAsNothing(c, bad, CursorAfter(c, rows, cursor))
    ensures FragmentVerdict(c, files, receipts, cursor, limit) == Rejected
  {
    hide FragmentVerdict, Joined, PolicyOk, ReadsAs, ReceiptsOk, ScanRows, Written;
    var end := receipts[|receipts| - 1].input.end;
    GoodFragmentsPass(c, files, src, receipts, cursor, limit);
    VerdictFromSource(c, files, src, receipts, cursor, limit);
    SplitAtCursor(src, cursor.offset, end);
    assert src[..end] == src[..cursor.offset] + LogBytes(rows) + (bad + rest);
    BadLineBreaks(c, src[..cursor.offset], rows, bad, rest, cursor, limit);
  }

  /** A row was changed: its line now decodes to another body beside the digest it was written with. */
  predicate Changed(c: Codec, bad: Bytes, body: map<string, Json>, now: map<string, Json>) {
    now != body && "hash" !in now && c.loads(bad) == Some(Object(now["hash" := Text(DigestOf(c, body))]))
  }

  lemma {:induction false} ChangedReadsAsNothing(c: Codec, bad: Bytes, body: map<string, Json>, now: map<string, Json>, b: Cursor)
    requires CollisionFree(c) && CanonicalInjective(c) && Changed(c, bad, body, now)
    ensures ReadsAsNothing(c, bad, b)
  {
    assert Distinguishes(c, c.canonical(now), c.canonical(body)) && CanonicalTellsApart(c, now, body);
    forall other: map<string, Json>, h: string ensures !ReadsAs(c, bad, other, b.sequence, b.lastHash, h) {
      if ReadsAs(c, bad, other, b.sequence, b.lastHash, h) { SameObject(other, h, now, DigestOf(c, body)); }
    }
  }

  lemma {:induction false} SameObject(x: map<string, Json>, h: string, y: map<string, Json>, g: string)
    requires "hash" !in x && "hash" !in y && x["hash" := Text(h)] == y["hash" := Text(g)]
    ensures x == y && h == g
  {
    HashApart(x, h);
    HashApart(y, g);
    assert x["hash" := Text(h)]["hash"] == Text(h);
  }

  /**
    Changing anything in a written row, its payload, its sequence number, its previous hash or any
    other field, while its digest is kept, gets it rejected together with the rows before it.
   */
  lemma {:induction false} ChangedRowRejected(c: Codec, files: Disk, src: Bytes, receipts: seq<Receipt>, cursor: Cursor,
                                              limit: nat, rows: seq<LogRow>, bad: Bytes, rest: Bytes,
                                              body: map<string, Json>, now: map<string, Json>)
    requires CollisionFree(c) && CanonicalInjective(c)
    requires GoodCall(cursor, limit) && GoodFragments(c, files, src, receipts, cursor)
    requires Written(c, rows, cursor.sequence, cursor.lastHash) && OneLine(bad) && |rows| < limit
    requires src[cursor.offset..receipts[|receipts| - 1].input.end] == LogBytes(rows) + (bad + rest)
    requires Changed(c, bad, body, now)
    ensures FragmentVerdict(c, files, receipts, cursor, limit) == Rejected
  {
    hide GoodFragments, Written;
    ChangedReadsAsNothing(c, bad, body, now, CursorAfter(c, rows, cursor));
    BadLineRejected(c, files, src, receipts, cursor, limit, rows, bad, rest);
  }

  /** A fragment that is missing, has another size or another digest than its receipt gets the call rejected, whatever its rows. */
  lemma {:induction false} ForeignFileRejected(c: Codec, files: Disk, receipts: seq<Receipt>, cursor: Cursor, limit: nat, i: nat)
    requires GoodCall(cursor, limit) && 1 <= |receipts| <= 2 && i < |receipts|
    requires var r := receipts[i].input;
             !(r.name in files && |files[r.name]| == r.size && c.sha256(files[r.name]) == r.sha)
    ensures FragmentVerdict(c, files, receipts, cursor, limit) == Rejected
  {
    hide ScanRows;
    var inputs := Inputs(receipts);
    assert inputs[i] == receipts[i].input && !Intact(c, files, inputs[i]);
    if i == 1 {
      assert inputs[1..][0] == inputs[1];
      assert Joined(c, files, inputs[1..]) == None;
    }
    assert Joined(c, files, inputs) == None;
  }

  /** Receipts that are malformed, out of place or not adjacent get the call rejected before any file is read. */
  lemma {:induction false} BadReceiptsRejected(c: Codec, files: Disk, receipts: seq<Receipt>, cursor: Cursor, limit: nat)
    requires GoodCall(cursor, limit) && 1 <= |receipts| <= 2
    requires var x, y := receipts[0].input, receipts[|receipts| - 1].input;
             || (exists r :: r in receipts
                   && !(r.staged && IsRawName(r.input.name) && 1 <= r.input.size <= 1048576 && IsHash(r.input.sha)
                        && r.input.end == r.input.offset + r.input.size <= r.input.extent))
             || !(x.offset <= cursor.offset < x.end)
             || (|receipts| == 2 && (y.offset != x.end || y.extent != x.extent || y.name == x.name))
    ensures FragmentVerdict(c, files, receipts, cursor, limit) == Rejected
  {
    hide Joined, JoinedVerdict, IsHash, ScanRows;
    assert |receipts| == 2 ==> receipts == [receipts[0], receipts[1]];
    assert |receipts| == 1 ==> receipts == [receipts[0]];
  }

  /**
    The ledger's own file, whole and in one fragment, is verified from its beginning: whatever was
    recorded, the first min(n, limit) events are taken.
   */
  lemma {:induction false} LedgerFileVerifies(c: Codec, dump: map<string, Json> -> Bytes, events: seq<Event>, files: Disk,
                                              r: Receipt, limit: nat)
    requires WritesAll(c, dump, events, 0, GENESIS) && events != [] && 1 <= limit <= 256
    requires var src := LogBytes(Recorded(c, dump, events, 0, GENESIS));
             GoodFragment(c, files, src, r) && r.input.offset == 0 && r.input.end == |src|
    ensures |Recorded(c, dump, events, 0, GENESIS)| == |events|
    ensures var taken := Recorded(c, dump, events, 0, GENESIS)[..Min(limit, |events|)];
            FragmentVerdict(c, files, [r], Cursor(0, 0, GENESIS), limit)
               == Verified(CursorAfter(c, taken, Cursor(0, 0, GENESIS)), c.sha256(LogBytes(taken)))
  {
    hide FragmentVerdict, Recorded, Written;
    var rows := Recorded(c, dump, events, 0, GENESIS);
    var src := LogBytes(rows);
    GenesisIsHash();
    RecordedIsWritten(c, dump, events, 0, GENESIS);
    assert src[0..|src|] == src + [];
    WrittenRowsVerify(c, files, src, [r], Cursor(0, 0, GENESIS), limit, rows, []);
    assert rows[..Min(limit, |rows|)] == rows[..Min(limit, |events|)];
  }
}
