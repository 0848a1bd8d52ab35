/** The health probe by its responses: which bytes are decoded, what they tell, and where the others fail. */
module HealthForm {
  import opened Foundations
  import opened HealthProbe

  /** What a decoded object tells: each of the four fields when it has the form asked of it, and nothing else. */
  ghost predicate Tells(fields: map<string, Json>, h: Health) {
    && (forall s: string :: h.status == Some(s) <==>
          "status" in fields && fields["status"] == Text(s) && (s == "healthy" || s == "degraded" || s == "unhealthy"))
    && (forall b: bool :: h.locked == Some(b) <==>
          "live_submission_locked" in fields && fields["live_submission_locked"] == Bool(b))
    && (forall b: bool :: h.readOnly == Some(b) <==> "read_only" in fields && fields["read_only"] == Bool(b))
    && (forall n: int :: h.records == Some(n) <==>
          "committed_program_records" in fields && fields["committed_program_records"] == Int(n)
          && 0 <= n <= 9223372036854775807)
  }

  lemma {:induction false} HealthTells(fields: map<string, Json>)
    ensures Tells(fields, HealthOf(fields))
  {
    forall s: string ensures HealthOf(fields).status == Some(s) <==>
        "status" in fields && fields["status"] == Text(s) && (s == "healthy" || s == "degraded" || s == "unhealthy") {
    }
  }

  /** The four bytes of a blank line begin at `i`. */
  predicate BlankAt(data: Bytes, i: nat) {
    i + 4 <= |data| && data[i] == 13 && data[i + 1] == 10 && data[i + 2] == 13 && data[i + 3] == 10
  }

  /** The first blank line begins at `i`, and the headers with it fit their budget. */
  ghost predicate HeadersAre(data: Bytes, i: nat) {
    BlankAt(data, i) && i + 4 <= 16384 && forall j: nat :: j < i ==> !BlankAt(data, j)
  }

  lemma {:induction false} BlankIsEnd(data: Bytes, i: nat)
    ensures BlankAt(data, i) <==> EndsAt(data, i)
  {
    if i + 4 <= |data| { assert data[i..i + 4] == [data[i], data[i + 1], data[i + 2], data[i + 3]]; }
  }

  /** The whole probe finds the headers exactly where they are. */
  lemma {:induction false} FindsHeaders(data: Bytes, i: nat)
    ensures HeadersAre(data, i) <==> HeadersEnd(data[..Min(|data|, HEADER_BUDGET)], 0) == Some(i + 4)
  {
    hide HeadersEnd, EndsAt, BlankAt;
    var seen := data[..Min(|data|, HEADER_BUDGET)];
    forall j: nat ensures EndsAt(seen, j) <==> BlankAt(data, j) && j + 4 <= 16384 {
      EndsAtInPrefix(data, |seen|, j);
      BlankIsEnd(data, j);
      BlankFits(data, j);
    }
    if HeadersAre(data, i) {
      BlankFits(data, i);
      FirstBlankLine(seen, 0, i + 4);
    }
  }

  lemma {:induction false} BlankFits(data: Bytes, j: nat)
    ensures BlankAt(data, j) ==> j + 4 <= |data|
  {
  }

  /** A response of these parts whose headers are accepted, with a body of the declared length, or one undeclared. */
  ghost predicate Responds(p: Parser, data: Bytes, maxBody: nat, block: Bytes, body: Bytes, rest: Bytes) {
    && data == block + [13, 10, 13, 10] + body + rest && HeadersAre(data, |block|)
    && |body| <= maxBody
    && (p.head(block) == GoodHead(Some(|body|)) || (p.head(block) == GoodHead(None) && rest == []))
  }

  lemma {:induction false} PartsOf(data: Bytes, block: Bytes, body: Bytes, rest: Bytes)
    requires data == block + [13, 10, 13, 10] + body + rest
    ensures var e := |block| + 4;
            |data| == e + |body| + |rest| && data[..e - 4] == block && data[e..e + |body|] == body
  {
  }

  /** Every response without excess bytes is decoded, however it is cut, and tells what its object tells. */
  lemma {:induction false} ResponseIsDecoded(p: Parser, data: Bytes, cuts: Cuts, maxBody: nat,
                                             block: Bytes, body: Bytes, fields: map<string, Json>)
    requires Responds(p, data, maxBody, block, body, []) && p.loads(body) == Some(Object(fields))
    ensures PiecewiseProbe(p, data, cuts, maxBody).Decoded?
    ensures Tells(fields, PiecewiseProbe(p, data, cuts, maxBody).health)
  {
    hide PiecewiseProbe, HeadersEnd, HealthOf, Tells;
    PartsOf(data, block, body, []);
    assert data[|block| + 4..] == body;
    FindsHeaders(data, |block|);
    CutsDoNotMatter(p, data, cuts, maxBody);
    HealthTells(fields);
  }

  /**
    And nothing else is: whatever is decoded, however it was cut, came as such a response, after
    which only bytes past the declared length may follow, and tells what its object tells.
   */
  lemma {:induction false} DecodedIsResponse(p: Parser, data: Bytes, cuts: Cuts, maxBody: nat)
      returns (block: Bytes, body: Bytes, rest: Bytes)
    requires PiecewiseProbe(p, data, cuts, maxBody).Decoded?
    ensures Responds(p, data, maxBody, block, body, rest)
    ensures p.loads(body).Some? && p.loads(body).value.Object?
    ensures Tells(p.loads(body).value.fields, PiecewiseProbe(p, data, cuts, maxBody).health)
  {
    hide HeaderRead, HeadersEnd, HealthOf, Tells, BodyProbe, HeadersAre;
    HeaderReadDecides(data, cuts, 0);
    var e := HeadersEnd(data[..Min(|data|, HEADER_BUDGET)], 0).value;
    var position := HeaderRead(data, cuts, 0).value;
    SameEnd(data, e, position);
    BodyOfCuts(p, data, cuts, e, position, maxBody);
    FindsHeaders(data, e - 4);
    block := data[..e - 4];
    var head := p.head(block);
    var end := if head.length.Some? then e + head.length.value else |data|;
    assert data[e..|data|] == data[e..];
    body, rest := data[e..end], data[end..];
    AtBlank(data, e - 4);
    assert data == block + [13, 10, 13, 10] + body + rest;
    HealthTells(p.loads(body).value.fields);
  }

  lemma {:induction false} AtBlank(data: Bytes, i: nat)
    requires HeadersAre(data, i)
    ensures i + 4 <= |data| && data == data[..i] + [13, 10, 13, 10] + data[i + 4..]
  {
  }

  /** Where a response fails as a whole, and that it fails there for every cut without excess bytes. */
  lemma {:induction false} FailsWhere(p: Parser, data: Bytes, cuts: Cuts, maxBody: nat)
    requires !HasExcess(p, data, maxBody)
    ensures PiecewiseProbe(p, data, cuts, maxBody) == ProbeFailed(InHeaders) <==>
            !exists i: nat :: HeadersAre(data, i) && Accepted(p, data, i, maxBody)
    ensures PiecewiseProbe(p, data, cuts, maxBody) == ProbeFailed(InBody) <==>
            exists i: nat :: HeadersAre(data, i) && Accepted(p, data, i, maxBody) && !BodyFits(p, data, i, maxBody)
    ensures PiecewiseProbe(p, data, cuts, maxBody) == ProbeFailed(InDecode) <==>
            exists i: nat :: HeadersAre(data, i) && Accepted(p, data, i, maxBody) && BodyFits(p, data, i, maxBody)
                             && !(p.loads(data[i + 4..]).Some? && p.loads(data[i + 4..]).value.Object?)
  {
    hide PiecewiseProbe, HeadersEnd, HeadersAre, HealthOf;
    CutsDoNotMatter(p, data, cuts, maxBody);
    var found := HeadersEnd(data[..Min(|data|, HEADER_BUDGET)], 0);
    forall i: nat ensures HeadersAre(data, i) <==> found == Some(i + 4) { FindsHeaders(data, i); }
    if found.Some? { assert HeadersAre(data, found.value - 4); }
  }

  /** The header block is accepted, and what it declares is within the budget. */
  predicate Accepted(p: Parser, data: Bytes, i: nat, maxBody: nat) {
    i + 4 <= |data| && p.head(data[..i]).GoodHead?
    && (p.head(data[..i]).length.None? || p.head(data[..i]).length.value <= maxBody)
  }

  /** What follows the headers has the declared length, or is within the budget when none is declared. */
  predicate BodyFits(p: Parser, data: Bytes, i: nat, maxBody: nat)
    requires Accepted(p, data, i, maxBody)
  {
    match p.head(data[..i]).length
    case None => |data| - i - 4 <= maxBody
    case Some(length) => |data| - i - 4 == length
  }

  /** The headers declare a body of this length, and more than that follows them. */
  ghost predicate Overfull(p: Parser, data: Bytes, maxBody: nat, i: nat, length: nat) {
    && HeadersAre(data, i) && i + 4 <= |data| && p.head(data[..i]) == GoodHead(Some(length))
    && length <= maxBody && i + 4 + length < |data|
  }

  /** The outcome depends on the cuts exactly when it is less than 4095 bytes and ends before byte 16384. */
  lemma {:induction false} CutsMatterWhen(p: Parser, data: Bytes, maxBody: nat)
    ensures CutsMatter(p, data, maxBody)
       <==> exists i: nat, length: nat :: Overfull(p, data, maxBody, i, length) && length < 4095 && i + 4 + length < 16384
  {
    hide CutsMatter, HeadersEnd, HeadersAre;
    CutsMatterExactly(p, data, maxBody);
    var found := HeadersEnd(data[..Min(|data|, HEADER_BUDGET)], 0);
    forall i: nat ensures HeadersAre(data, i) <==> found == Some(i + 4) { FindsHeaders(data, i); }
    if MayOverrun(p, data, maxBody) {
      var i := found.value - 4;
      assert Overfull(p, data, maxBody, i, p.head(data[..i]).length.value);
    }
  }
}
