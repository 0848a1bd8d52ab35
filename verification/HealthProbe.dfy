/** The bounded health probe: an incremental reader of one HTTP response, whatever pieces it arrives in. */
module HealthProbe {
  import opened Foundations

  const HEADER_BUDGET: nat := 16384
  const PIECE: nat := 4096
  const BLANK_LINE: Bytes := [13, 10, 13, 10]

  /** What the header block says: refused, or accepted with the declared length of the body if there is one. */
  datatype Head = BadHead | GoodHead(length: Option<nat>)

  /** The foreign parts: interpreting the header block, and strict JSON decoding (None when it raises). */
  datatype Parser = Parser(head: Bytes -> Head, loads: Bytes -> Option<Json>)

  datatype Stage = InHeaders | InBody | InDecode

  datatype Health = Health(status: Option<string>, locked: Option<bool>, readOnly: Option<bool>, records: Option<int>)

  /** ProbeFailed: what was received is refused at that stage. ProbeStopped: a deadline or the socket raised. */
  datatype Probe = ProbeFailed(stage: Stage) | ProbeStopped | Decoded(health: Health)

  // ----- The response as a whole -----

  predicate EndsAt(data: Bytes, i: nat) {
    i + 4 <= |data| && data[i..i + 4] == BLANK_LINE
  }

  /** Where the header block ends: just past the first blank line at or after `i`. */
  function HeadersEnd(data: Bytes, i: nat): (e: Option<nat>)
    ensures e.Some? ==> i + 4 <= e.value <= |data| && EndsAt(data, e.value - 4)
    ensures e.Some? ==> forall j: nat :: i <= j < e.value - 4 ==> !EndsAt(data, j)
    ensures e.None? ==> forall j: nat :: i <= j ==> !EndsAt(data, j)
    decreases |data| - i
  {
    if i + 4 > |data| then None else if EndsAt(data, i) then Some(i + 4) else HeadersEnd(data, i + 1)
  }

  function FieldFlag(fields: map<string, Json>, key: string): Option<bool> {
    if key in fields && fields[key].Bool? then Some(fields[key].flag) else None
  }

  function HealthOf(fields: map<string, Json>): Health {
    Health(
      if "status" in fields && fields["status"] in [Text("healthy"), Text("degraded"), Text("unhealthy")]
      then Some(fields["status"].text) else None,
      FieldFlag(fields, "live_submission_locked"),
      FieldFlag(fields, "read_only"),
      if "committed_program_records" in fields && fields["committed_program_records"].Int?
         && 0 <= fields["committed_program_records"].value <= 0x7FFF_FFFF_FFFF_FFFF
      then Some(fields["committed_program_records"].value) else None)
  }

  function DecodeBody(p: Parser, body: Bytes): Probe {
    match p.loads(body)
    case Some(Object(fields)) => Decoded(HealthOf(fields))
    case _ => ProbeFailed(InDecode)
  }

  /** Parsing the whole response at once, under the header and body budgets. */
  function WholeProbe(p: Parser, data: Bytes, maxBody: nat): Probe {
    match HeadersEnd(data[..Min(|data|, HEADER_BUDGET)], 0)
    case None => ProbeFailed(InHeaders)
    case Some(e) =>
      match p.head(data[..e - 4])
      case BadHead => ProbeFailed(InHeaders)
      case GoodHead(None) => if |data| - e > maxBody then ProbeFailed(InBody) else DecodeBody(p, data[e..])
      case GoodHead(Some(length)) =>
        if length > maxBody then ProbeFailed(InHeaders)
        else if |data| - e != length then ProbeFailed(InBody)
        else DecodeBody(p, data[e..])
  }

  // ----- The response in pieces -----

  /**
    How a peer hands over its bytes: at each position some number of them, at least one while any
    are left. Positions only grow, so this covers every way to cut the response.
   */
  type Cuts = nat -> nat

  function Piece(data: Bytes, cuts: Cuts, position: nat, size: nat): (n: nat)
    requires position <= |data|
    ensures n <= size && position + n <= |data|
    ensures n == 0 <==> size == 0 || position == |data|
  {
    Min(Min(size, |data| - position), if cuts(position) == 0 then 1 else cuts(position))
  }

  /** How much has been received when the header loop ends; None when it raises. */
  function HeaderRead(data: Bytes, cuts: Cuts, position: nat): Option<nat>
    requires position <= |data|
    decreases |data| - position
  {
    if HeadersEnd(data[..position], 0).Some? then Some(position)
    else if position >= HEADER_BUDGET then None
    else
      var n := Piece(data, cuts, position, Min(PIECE, HEADER_BUDGET - position));
      if n == 0 then None else HeaderRead(data, cuts, position + n)
  }

  /** Where the body loop ends, for a body that starts at `start`; None when it raises. */
  function BodyRead(data: Bytes, cuts: Cuts, start: nat, position: nat, length: Option<nat>, maxBody: nat): Option<nat>
    requires start <= position <= |data|
    decreases |data| - position
  {
    var have := position - start;
    if length.Some? && have >= length.value then Some(position)
    else if have > maxBody then None
    else
      var count := Min(PIECE, maxBody + 1 - have);
      var n := Piece(data, cuts, position, if length.Some? then Min(count, length.value - have) else count);
      if n == 0 then (if length.Some? then None else Some(position))
      else BodyRead(data, cuts, start, position + n, length, maxBody)
  }

  /** What the probe concludes from a response cut up in this way. */
  function PiecewiseProbe(p: Parser, data: Bytes, cuts: Cuts, maxBody: nat): Probe {
    match HeaderRead(data, cuts, 0)
    case None => ProbeFailed(InHeaders)
    case Some(position) =>
      if position > |data| || HeadersEnd(data[..position], 0).None? then ProbeFailed(InHeaders)
      else BodyProbe(p, data, cuts, HeadersEnd(data[..position], 0).value, position, maxBody)
  }

  function BodyProbe(p: Parser, data: Bytes, cuts: Cuts, e: nat, position: nat, maxBody: nat): Probe
    requires 4 <= e <= position <= |data|
  {
    match p.head(data[..e - 4])
    case BadHead => ProbeFailed(InHeaders)
    case GoodHead(length) =>
      if length.Some? && length.value > maxBody then ProbeFailed(InHeaders)
      else
        match BodyRead(data, cuts, e, position, length, maxBody)
        case None => ProbeFailed(InBody)
        case Some(end) =>
          if !(e <= end <= |data|) || end - e > maxBody || (length.Some? && end - e != length.value)
          then ProbeFailed(InBody) else DecodeBody(p, data[e..end])
  }

  // ----- The probe itself -----

  /** A connected peer: everything it will send before it closes, and how it cuts it up. */
  class Peer {
    const data: Bytes
    const cuts: Cuts
    const quiet: bool
    var position: nat

    constructor (data: Bytes, cuts: Cuts, quiet: bool)
      ensures this.data == data && this.cuts == cuts && this.quiet == quiet && position == 0
    {
      this.data := data;
      this.cuts := cuts;
      this.quiet := quiet;
      position := 0;
    }

    /** At most `size` more bytes; none when the peer has closed. Unless it is quiet it may also time out. */
    method Receive(size: nat) returns (ok: bool, block: Bytes)
      requires position <= |data|
      modifies this
      ensures position <= |data|
      ensures quiet ==> ok
      ensures ok ==>
                var n := Piece(data, cuts, old(position), size);
                position == old(position) + n && block == data[old(position)..position]
    {
      if !quiet { if * { return false, []; } }
      var n := Piece(data, cuts, position, size);
      block := data[position..position + n];
      position := position + n;
      ok := true;
    }
  }

  method ReadHeaders(peer: Peer) returns (ok: bool, found: Option<Bytes>)
    requires peer.position == 0
    modifies peer
    ensures peer.position <= |peer.data|
    ensures peer.quiet ==> ok
    ensures ok && found.Some? ==>
              HeaderRead(peer.data, peer.cuts, 0) == Some(peer.position) && found.value == peer.data[..peer.position]
              && HeadersEnd(found.value, 0).Some?
    ensures ok && found.None? ==> HeaderRead(peer.data, peer.cuts, 0) == None
  {
    hide HeaderRead, HeadersEnd;
    var buf: Bytes := [];
    while HeadersEnd(buf, 0).None?
      invariant peer.position <= |peer.data| && buf == peer.data[..peer.position]
      invariant peer.position <= HEADER_BUDGET
      invariant peer.position == HEADER_BUDGET ==> HeadersEnd(buf, 0).Some?
      invariant HeaderRead(peer.data, peer.cuts, 0) == HeaderRead(peer.data, peer.cuts, peer.position)
      decreases |peer.data| - peer.position
    {
      HeaderStep(peer.data, peer.cuts, peer.position);
      var received, block := peer.Receive(Min(PIECE, HEADER_BUDGET - |buf|));
      if !received { return false, None; }
      if block == [] { return true, None; }
      buf := buf + block;
      assert buf == peer.data[..peer.position];
      if |buf| >= HEADER_BUDGET && HeadersEnd(buf, 0).None? {
        HeaderStep(peer.data, peer.cuts, peer.position);
        return true, None;
      }
    }
    HeaderStep(peer.data, peer.cuts, peer.position);
    return true, Some(buf);
  }

  lemma {:induction false} HeaderStep(data: Bytes, cuts: Cuts, position: nat)
    requires position <= |data|
    ensures HeaderRead(data, cuts, position)
         == if HeadersEnd(data[..position], 0).Some? then Some(position)
            else if position >= HEADER_BUDGET then None
            else
              var n := Piece(data, cuts, position, Min(PIECE, HEADER_BUDGET - position));
              if n == 0 then None else HeaderRead(data, cuts, position + n)
  {
    hide HeadersEnd;
  }

  method ReadBody(peer: Peer, start: nat, length: Option<nat>, maxBody: nat) returns (ok: bool, body: Option<Bytes>)
    requires start <= peer.position <= |peer.data|
    modifies peer
    ensures peer.quiet ==> ok
    ensures ok ==>
              match BodyRead(peer.data, peer.cuts, start, old(peer.position), length, maxBody)
              case None => body.None?
              case Some(end) => start <= end <= |peer.data| && body == Some(peer.data[start..end])
  {
    hide BodyRead;
    var data := peer.data[start..peer.position];
    while length.None? || |data| < length.value
      invariant start <= peer.position <= |peer.data| && data == peer.data[start..peer.position]
      invariant BodyRead(peer.data, peer.cuts, start, old(peer.position), length, maxBody)
             == BodyRead(peer.data, peer.cuts, start, peer.position, length, maxBody)
      decreases |peer.data| - peer.position
    {
      BodyStep(peer.data, peer.cuts, start, peer.position, length, maxBody);
      if |data| > maxBody { return true, None; }
      var count := Min(PIECE, maxBody + 1 - |data|);
      if length.Some? { count := Min(count, length.value - |data|); }
      var received, block := peer.Receive(count);
      if !received { return false, None; }
      if block == [] {
        if length.Some? { return true, None; }
        break;
      }
      data := data + block;
    }
    BodyStep(peer.data, peer.cuts, start, peer.position, length, maxBody);
    return true, Some(data);
  }

  lemma {:induction false} BodyStep(data: Bytes, cuts: Cuts, start: nat, position: nat, length: Option<nat>, maxBody: nat)
    requires start <= position <= |data|
    ensures var have := position - start;
            BodyRead(data, cuts, start, position, length, maxBody)
            == if length.Some? && have >= length.value then Some(position)
               else if have > maxBody then None
               else
                 var count := Min(PIECE, maxBody + 1 - have);
                 var n := Piece(data, cuts, position, if length.Some? then Min(count, length.value - have) else count);
                 if n == 0 then (if length.Some? then None else Some(position))
                 else BodyRead(data, cuts, start, position + n, length, maxBody)
  {
  }

  /** Unless a deadline or the socket stops it, the outcome is that of the response as it was cut. */
  method RunProbe(p: Parser, peer: Peer, maxBody: nat) returns (r: Probe)
    requires peer.position == 0
    modifies peer
    ensures r == ProbeStopped || r == PiecewiseProbe(p, peer.data, peer.cuts, maxBody)
    ensures peer.quiet ==> r == PiecewiseProbe(p, peer.data, peer.cuts, maxBody)
  {
    hide DecodeBody, HeadersEnd;
    var ok, found := ReadHeaders(peer);
    if !ok { return ProbeStopped; }
    if found.None? { return ProbeFailed(InHeaders); }
    var e := HeadersEnd(found.value, 0).value;
    assert found.value[..e - 4] == peer.data[..e - 4];
    var head := p.head(found.value[..e - 4]);
    if head.BadHead? { return ProbeFailed(InHeaders); }
    if head.length.Some? && head.length.value > maxBody { return ProbeFailed(InHeaders); }
    var received, body := ReadBody(peer, e, head.length, maxBody);
    if !received { return ProbeStopped; }
    if body.None? { return ProbeFailed(InBody); }
    if |body.value| > maxBody || (head.length.Some? && |body.value| != head.length.value) { return ProbeFailed(InBody); }
    if !peer.quiet { if * { return ProbeStopped; } }
    return DecodeBody(p, body.value);
  }

  // ----- How much the cuts matter -----

  /** A prefix has the header end of the whole exactly when it reaches it. */
  lemma {:induction false} PrefixHeadersEnd(data: Bytes, n: nat)
    requires n <= |data|
    ensures HeadersEnd(data[..n], 0) == match HeadersEnd(data, 0)
                                        case None => None
                                        case Some(e) => if e <= n then Some(e) else None
  {
    hide EndsAt, HeadersEnd;
    forall j: nat ensures EndsAt(data[..n], j) <==> EndsAt(data, j) && j + 4 <= n { EndsAtInPrefix(data, n, j); }
  }

  lemma {:induction false} EndsAtInPrefix(data: Bytes, n: nat, j: nat)
    requires n <= |data|
    ensures EndsAt(data[..n], j) <==> EndsAt(data, j) && j + 4 <= n
  {
    if j + 4 <= n { assert data[..n][j..j + 4] == data[j..j + 4]; }
  }

  /** The header loop ends just past the blank line or within one piece of it, or fails as the whole would. */
  lemma {:induction false} HeaderReadDecides(data: Bytes, cuts: Cuts, position: nat)
    requires position <= |data| && position <= HEADER_BUDGET
    ensures match HeadersEnd(data[..Min(|data|, HEADER_BUDGET)], 0)
            case None => HeaderRead(data, cuts, position) == None
            case Some(e) =>
              && HeaderRead(data, cuts, position).Some?
              && var p := HeaderRead(data, cuts, position).value;
                 && e <= p <= Min(|data|, HEADER_BUDGET)
                 && p >= position && (position < e ==> p < e + PIECE) && (position >= e ==> p == position)
    decreases |data| - position
  {
    hide HeaderRead, HeadersEnd;
    HeaderStep(data, cuts, position);
    PrefixHeadersEnd(data, position);
    PrefixHeadersEnd(data, Min(|data|, HEADER_BUDGET));
    if HeadersEnd(data[..position], 0).None? && position < HEADER_BUDGET {
      var n := Piece(data, cuts, position, Min(PIECE, HEADER_BUDGET - position));
      if n > 0 { HeaderReadDecides(data, cuts, position + n); }
    }
  }

  /** With no declared length the body loop reads to the close, or fails past the budget. */
  lemma {:induction false} UndeclaredBody(data: Bytes, cuts: Cuts, start: nat, position: nat, maxBody: nat)
    requires start <= position <= |data|
    ensures var end := BodyRead(data, cuts, start, position, None, maxBody);
            if |data| - start > maxBody then end == None else end == Some(|data|)
    decreases |data| - position
  {
    if position - start <= maxBody {
      var n := Piece(data, cuts, position, Min(PIECE, maxBody + 1 - (position - start)));
      if n > 0 { UndeclaredBody(data, cuts, start, position + n, maxBody); }
    }
  }

  /** With a declared length the body loop never reads past it. */
  lemma {:induction false} DeclaredBody(data: Bytes, cuts: Cuts, start: nat, position: nat, length: nat, maxBody: nat)
    requires start <= position <= |data| && length <= maxBody
    ensures var end := BodyRead(data, cuts, start, position, Some(length), maxBody);
            if position - start >= length then end == Some(position)
            else if |data| - start < length then end == None
            else end == Some(start + length)
    decreases |data| - position
  {
    var have := position - start;
    if have < length {
      var n := Piece(data, cuts, position, Min(Min(PIECE, maxBody + 1 - have), length - have));
      if n > 0 { DeclaredBody(data, cuts, start, position + n, length, maxBody); }
    }
  }

  /** Bytes follow a body whose declared length is within the budget. */
  predicate HasExcess(p: Parser, data: Bytes, maxBody: nat) {
    match HeadersEnd(data[..Min(|data|, HEADER_BUDGET)], 0)
    case None => false
    case Some(e) =>
      match p.head(data[..e - 4])
      case GoodHead(Some(length)) => length <= maxBody && |data| - e > length
      case _ => false
  }

  /**
    The incremental reader refines the whole one: without excess bytes, every way of cutting the
    response gives the outcome of parsing it at once.
   */
  lemma {:induction false} CutsDoNotMatter(p: Parser, data: Bytes, cuts: Cuts, maxBody: nat)
    requires !HasExcess(p, data, maxBody)
    ensures PiecewiseProbe(p, data, cuts, maxBody) == WholeProbe(p, data, maxBody)
  {
    hide BodyProbe, DecodeBody, HeaderRead, HeadersEnd;
    HeaderReadDecides(data, cuts, 0);
    var whole := HeadersEnd(data[..Min(|data|, HEADER_BUDGET)], 0);
    if whole.Some? {
      var e, position := whole.value, HeaderRead(data, cuts, 0).value;
      SameEnd(data, e, position);
      BodyOfCuts(p, data, cuts, e, position, maxBody);
      assert data[e..|data|] == data[e..];
    }
  }

  lemma {:induction false} SameEnd(data: Bytes, e: nat, position: nat)
    requires HeadersEnd(data[..Min(|data|, HEADER_BUDGET)], 0) == Some(e)
    requires e <= position <= Min(|data|, HEADER_BUDGET)
    ensures HeadersEnd(data[..position], 0) == Some(e)
  {
    PrefixHeadersEnd(data, position);
    PrefixHeadersEnd(data, Min(|data|, HEADER_BUDGET));
  }

  /** What the body yields once the headers have been read up to `position`. */
  lemma {:induction false} BodyOfCuts(p: Parser, data: Bytes, cuts: Cuts, e: nat, position: nat, maxBody: nat)
    requires 4 <= e <= position <= |data|
    ensures BodyProbe(p, data, cuts, e, position, maxBody)
         == match p.head(data[..e - 4])
            case BadHead => ProbeFailed(InHeaders)
            case GoodHead(None) => if |data| - e > maxBody then ProbeFailed(InBody) else DecodeBody(p, data[e..])
            case GoodHead(Some(length)) =>
              if length > maxBody then ProbeFailed(InHeaders)
              else if position - e > length || |data| - e < length then ProbeFailed(InBody)
              else DecodeBody(p, data[e..e + length])
  {
    hide DecodeBody;
    match p.head(data[..e - 4])
    case BadHead =>
    case GoodHead(None) =>
      UndeclaredBody(data, cuts, e, position, maxBody);
      assert data[e..|data|] == data[e..];
    case GoodHead(Some(length)) =>
      if length <= maxBody { DeclaredBody(data, cuts, e, position, length, maxBody); }
  }

  // ----- Excess bytes: exactly when the cuts do matter -----

  /** With excess bytes the outcome hangs on whether the header loop read past the declared body. */
  lemma {:induction false} ExcessOutcome(p: Parser, data: Bytes, cuts: Cuts, maxBody: nat, e: nat, length: nat)
    requires HeadersEnd(data[..Min(|data|, HEADER_BUDGET)], 0) == Some(e) && e <= |data|
    requires p.head(data[..e - 4]) == GoodHead(Some(length)) && length <= maxBody && |data| - e > length
    ensures HeaderRead(data, cuts, 0).Some?
    ensures PiecewiseProbe(p, data, cuts, maxBody)
         == if HeaderRead(data, cuts, 0).value > e + length then ProbeFailed(InBody)
            else DecodeBody(p, data[e..e + length])
  {
    hide BodyProbe, DecodeBody, HeaderRead, HeadersEnd;
    HeaderReadDecides(data, cuts, 0);
    var position := HeaderRead(data, cuts, 0).value;
    SameEnd(data, e, position);
    BodyOfCuts(p, data, cuts, e, position, maxBody);
  }

  /** Cut into single bytes up to `e - 1`, the header loop stops after the one piece that completes the blank line. */
  lemma {:induction false} SingleBytesRead(data: Bytes, cuts: Cuts, e: nat, position: nat)
    requires HeadersEnd(data[..Min(|data|, HEADER_BUDGET)], 0) == Some(e) && 4 <= e <= |data|
    requires position < e <= HEADER_BUDGET && forall i: nat :: i < e - 1 ==> cuts(i) == 1
    ensures HeaderRead(data, cuts, position)
         == Some(e - 1 + Piece(data, cuts, e - 1, Min(PIECE, HEADER_BUDGET - (e - 1))))
    decreases e - position
  {
    hide HeaderRead, HeadersEnd;
    PrefixHeadersEnd(data, Min(|data|, HEADER_BUDGET));
    PrefixHeadersEnd(data, position);
    HeaderStep(data, cuts, position);
    if position < e - 1 {
      SingleBytesRead(data, cuts, e, position + 1);
    } else {
      var end := position + Piece(data, cuts, position, Min(PIECE, HEADER_BUDGET - position));
      PrefixHeadersEnd(data, end);
      HeaderStep(data, cuts, end);
    }
  }

  /** Two ways of cutting the response end differently. */
  ghost predicate CutsMatter(p: Parser, data: Bytes, maxBody: nat) {
    exists x: Cuts, y: Cuts :: OutcomesDiffer(p, data, maxBody, x, y)
  }

  predicate OutcomesDiffer(p: Parser, data: Bytes, maxBody: nat, x: Cuts, y: Cuts) {
    PiecewiseProbe(p, data, x, maxBody) != PiecewiseProbe(p, data, y, maxBody)
  }

  /** The piece that completes the headers may run past the declared body, and it is followed by more. */
  predicate MayOverrun(p: Parser, data: Bytes, maxBody: nat) {
    HasExcess(p, data, maxBody)
    && var e := HeadersEnd(data[..Min(|data|, HEADER_BUDGET)], 0).value;
       var length := p.head(data[..e - 4]).length.value;
       length + 1 < PIECE && e + length < HEADER_BUDGET
  }

  /**
    The outcome depends on the cuts exactly when bytes follow a declared body that is short
    enough to be overrun by the piece that completes the headers.
   */
  lemma {:induction false} CutsMatterExactly(p: Parser, data: Bytes, maxBody: nat)
    ensures CutsMatter(p, data, maxBody) <==> MayOverrun(p, data, maxBody)
  {
    hide PiecewiseProbe, WholeProbe;
    if MayOverrun(p, data, maxBody) {
      OverrunShows(p, data, maxBody);
    } else {
      forall x: Cuts, y: Cuts ensures !OutcomesDiffer(p, data, maxBody, x, y) {
        if HasExcess(p, data, maxBody) {
          NoOverrun(p, data, x, maxBody);
          NoOverrun(p, data, y, maxBody);
        } else {
          CutsDoNotMatter(p, data, x, maxBody);
          CutsDoNotMatter(p, data, y, maxBody);
        }
      }
    }
  }

  lemma {:induction false} NoOverrun(p: Parser, data: Bytes, cuts: Cuts, maxBody: nat)
    requires HasExcess(p, data, maxBody) && !MayOverrun(p, data, maxBody)
    ensures var e := HeadersEnd(data[..Min(|data|, HEADER_BUDGET)], 0).value;
            var length := p.head(data[..e - 4]).length.value;
            PiecewiseProbe(p, data, cuts, maxBody) == DecodeBody(p, data[e..e + length])
  {
    hide DecodeBody, PiecewiseProbe, HeaderRead;
    var e := HeadersEnd(data[..Min(|data|, HEADER_BUDGET)], 0).value;
    ExcessOutcome(p, data, cuts, maxBody, e, p.head(data[..e - 4]).length.value);
    HeaderReadDecides(data, cuts, 0);
  }

  lemma {:induction false} OverrunShows(p: Parser, data: Bytes, maxBody: nat)
    requires MayOverrun(p, data, maxBody)
    ensures CutsMatter(p, data, maxBody)
  {
    hide PiecewiseProbe, HeaderRead;
    var e := HeadersEnd(data[..Min(|data|, HEADER_BUDGET)], 0).value;
    var length := p.head(data[..e - 4]).length.value;
    var slow: Cuts := (i: nat) => 1;
    var last: Cuts := (i: nat) => if i < e - 1 then 1 else PIECE;
    SingleBytesRead(data, slow, e, 0);
    SingleBytesRead(data, last, e, 0);
    ExcessOutcome(p, data, slow, maxBody, e, length);
    ExcessOutcome(p, data, last, maxBody, e, length);
    assert OutcomesDiffer(p, data, maxBody, slow, last);
  }

  lemma {:induction false} FirstBlankLine(data: Bytes, i: nat, e: nat)
    requires i + 4 <= e <= |data| && EndsAt(data, e - 4) && forall j: nat :: i <= j < e - 4 ==> !EndsAt(data, j)
    ensures HeadersEnd(data, i) == Some(e)
    decreases e - i
  {
    if i + 4 < e { FirstBlankLine(data, i + 1, e); }
  }

  lemma {:induction false} BlockEnds(block: Bytes, rest: Bytes)
    requires |block| + 4 <= HEADER_BUDGET
    requires forall j: nat :: j < |block| ==> !EndsAt(block + BLANK_LINE + rest, j)
    ensures var data := block + BLANK_LINE + rest;
            HeadersEnd(data[..Min(|data|, HEADER_BUDGET)], 0) == Some(|block| + 4) && data[..|block|] == block
  {
    hide EndsAt, HeadersEnd;
    var data := block + BLANK_LINE + rest;
    var seen := data[..Min(|data|, HEADER_BUDGET)];
    forall j: nat | j + 4 <= |seen| ensures EndsAt(seen, j) == EndsAt(data, j) { SameBlankLine(data, |seen|, j); }
    JoinHasBlankLine(block, rest);
    FirstBlankLine(seen, 0, |block| + 4);
  }

  lemma {:induction false} SameBlankLine(data: Bytes, n: nat, j: nat)
    requires j + 4 <= n <= |data|
    ensures EndsAt(data[..n], j) == EndsAt(data, j)
  {
    assert data[..n][j..j + 4] == data[j..j + 4];
  }

  lemma {:induction false} JoinHasBlankLine(block: Bytes, rest: Bytes)
    ensures EndsAt(block + BLANK_LINE + rest, |block|)
    ensures (block + BLANK_LINE + rest)[..|block|] == block
  {
    var data := block + BLANK_LINE + rest;
    assert data[|block|..|block| + 4] == BLANK_LINE;
  }

  /** Every response that declares a short body and sends more than that is such a one. */
  lemma {:induction false} ExcessAfterShortBody(p: Parser, block: Bytes, rest: Bytes, length: nat, maxBody: nat)
    requires p.head(block) == GoodHead(Some(length)) && length <= maxBody && length < |rest|
    requires length + 1 < PIECE && |block| + 4 + length < HEADER_BUDGET
    requires forall j: nat :: j < |block| ==> !EndsAt(block + BLANK_LINE + rest, j)
    ensures CutsMatter(p, block + BLANK_LINE + rest, maxBody)
  {
    hide CutsMatter, EndsAt, HeadersEnd;
    var data := block + BLANK_LINE + rest;
    BlockEnds(block, rest);
    CutsMatterExactly(p, data, maxBody);
  }

  /** The bytes of a status line and of a header that declares two bytes. */
  const STATUS_LINE: Bytes := [72, 84, 84, 80, 47, 49, 46, 49, 32, 50, 48, 48, 32, 79, 75]
  const LENGTH_LINE: Bytes := [67, 111, 110, 116, 101, 110, 116, 45, 76, 101, 110, 103, 116, 104, 58, 32, 50]

  lemma {:induction false} LinesHaveNoReturn()
    ensures forall i :: 0 <= i < |STATUS_LINE| ==> STATUS_LINE[i] != 13
    ensures forall i :: 0 <= i < |LENGTH_LINE| ==> LENGTH_LINE[i] != 13
  {
  }

  lemma {:induction false} BlankLineReturns(data: Bytes, j: nat)
    requires EndsAt(data, j)
    ensures data[j] == 13 && data[j + 2] == 13
  {
    assert data[j] == data[j..j + 4][0] && data[j + 2] == data[j..j + 4][2];
  }

  /**
    A real one: after `HTTP/1.1 200 OK` and `Content-Length: 2` come two braces and a newline. Read
    together with the headers the newline makes the body too long; read apart from them it is never read.
   */
  lemma {:induction false} OneByteTooMany(p: Parser, maxBody: nat)
    requires p.head(STATUS_LINE + [13, 10] + LENGTH_LINE) == GoodHead(Some(2)) && maxBody >= 2
    ensures CutsMatter(p, STATUS_LINE + [13, 10] + LENGTH_LINE + BLANK_LINE + [123, 125, 10], maxBody)
  {
    hide CutsMatter;
    var block: Bytes := STATUS_LINE + [13, 10] + LENGTH_LINE;
    var data := block + BLANK_LINE + [123, 125, 10];
    LinesHaveNoReturn();
    forall j: nat | j < |block| ensures !EndsAt(data, j) {
      assert data[j] == block[j] && data[17] == LENGTH_LINE[0];
      if EndsAt(data, j) { BlankLineReturns(data, j); }
    }
    ExcessAfterShortBody(p, block, [123, 125, 10], 2, maxBody);
  }
}
