/**
  Any number of cooperating recorders on one progress file, interleaved one file operation at a
  time. Writers take the lock file, read and check the pin, verify, confirm the pin again and
  replace the file; an exception releases the lock at any point, a hard kill leaves it.
 */
module ConcurrentWriters {
  import opened Foundations
  import opened FragmentProgress

  datatype Phase =
    | Idle
    | Holding(pin: Option<string>)
    | Prepared(pin: Option<string>, step: Step, payload: Bytes)
    | Confirmed(pin: Option<string>, step: Step, payload: Bytes)
    | Killed

  /** A successful call: the pin it was given, the pin it returned and the step it added. */
  datatype Update = Update(prior: Option<string>, pin: string, step: Step)

  datatype World = World(file: Option<Bytes>, lock: Option<nat>, phases: map<nat, Phase>, log: seq<Update>)

  function PhaseOf(w: World, id: nat): Phase {
    if id in w.phases then w.phases[id] else Idle
  }

  function WithPhase(w: World, id: nat, p: Phase): World {
    w.(phases := w.phases[id := p])
  }

  function Files(l: Ledger, w: World): Disk {
    match w.file
    case None => map[]
    case Some(bytes) => map[l.path := bytes]
  }

  function PinOf(l: Ledger, file: Option<Bytes>): Option<string> {
    match file
    case None => None
    case Some(bytes) => Some(l.codec.sha256(bytes))
  }

  /** Opens the lock file exclusively. */
  predicate Acquire(w: World, w': World, id: nat, pin: Option<string>) {
    PhaseOf(w, id) == Idle && w.lock == None
    && w' == WithPhase(w, id, Holding(pin)).(lock := Some(id))
  }

  /** Reads the pinned history, verifies a batch and builds the longer history. */
  predicate Prepare(l: Ledger, w: World, w': World, id: nat, step: Step) {
    PhaseOf(w, id).Holding?
    && var pin := PhaseOf(w, id).pin;
       match ReadHistory(l, Files(l, w), pin)
       case None => false
       case Some(h) =>
         match Appended(l, h, step)
         case None => false
         case Some(longer) => w' == WithPhase(w, id, Prepared(pin, step, l.doc.dump(longer)))
  }

  /** Checks the pin again, just before publishing. */
  predicate Confirm(l: Ledger, w: World, w': World, id: nat) {
    var p := PhaseOf(w, id);
    p.Prepared? && PinOf(l, w.file) == p.pin
    && w' == WithPhase(w, id, Confirmed(p.pin, p.step, p.payload))
  }

  /** The atomic link or replace. */
  predicate Replace(l: Ledger, w: World, w': World, id: nat) {
    var p := PhaseOf(w, id);
    p.Confirmed?
    && w' == WithPhase(w, id, Holding(p.pin)).(file := Some(p.payload),
                                               log := w.log + [Update(p.pin, l.codec.sha256(p.payload), p.step)])
  }

  /** Returning or raising releases the lock, from any phase that holds it. */
  predicate Release(w: World, w': World, id: nat) {
    var p := PhaseOf(w, id);
    (p.Holding? || p.Prepared? || p.Confirmed?)
    && w' == WithPhase(w, id, Idle).(lock := None)
  }

  /** The process dies; whatever it held stays. */
  predicate Kill(w: World, w': World, id: nat) {
    w' == WithPhase(w, id, Killed)
  }

  /** An operator removes the lock file of a dead holder. */
  predicate Reconcile(w: World, w': World) {
    w.lock.Some? && PhaseOf(w, w.lock.value) == Killed && w' == w.(lock := None)
  }

  ghost predicate Action(l: Ledger, w: World, w': World, id: nat) {
    || (exists pin: Option<string> :: Acquire(w, w', id, pin))
    || (exists step: Step :: Prepare(l, w, w', id, step))
    || Confirm(l, w, w', id)
    || Replace(l, w, w', id)
    || Release(w, w', id)
    || Kill(w, w', id)
  }

  ghost predicate Next(l: Ledger, w: World, w': World) {
    Reconcile(w, w') || exists id: nat :: Action(l, w, w', id)
  }

  ghost predicate Run(l: Ledger, ws: seq<World>) {
    |ws| > 0 && forall i :: 0 <= i < |ws| - 1 ==> NextAt(l, ws, i)
  }

  ghost predicate NextAt(l: Ledger, ws: seq<World>, i: nat)
    requires i < |ws| - 1
  {
    Next(l, ws[i], ws[i + 1])
  }

  lemma {:induction false} RunPrefix(l: Ledger, ws: seq<World>)
    requires Run(l, ws) && |ws| > 1
    ensures Run(l, ws[..|ws| - 1]) && Next(l, ws[|ws| - 2], ws[|ws| - 1])
  {
    hide Next;
    var before := ws[..|ws| - 1];
    forall i | 0 <= i < |before| - 1 ensures NextAt(l, before, i) { assert NextAt(l, ws, i); }
    assert NextAt(l, ws, |ws| - 2);
  }

  /** Nobody is at work and nothing has been logged. */
  predicate Initial(l: Ledger, w: World) {
    w.lock == None && w.phases == map[] && w.log == []
    && ReadHistory(l, Files(l, w), PinOf(l, w.file)).Some?
  }

  function Steps(log: seq<Update>): (steps: seq<Step>)
    ensures |steps| == |log|
  {
    if log == [] then [] else Steps(log[..|log| - 1]) + [log[|log| - 1].step]
  }

  /** Each call's prior pin is the pin the call before it returned; the first call's is `first`. */
  predicate Chain(log: seq<Update>, first: Option<string>) {
    forall i :: 0 <= i < |log| ==> log[i].prior == LastPin(log[..i], first)
  }

  function LastPin(log: seq<Update>, first: Option<string>): Option<string> {
    if log == [] then first else Some(log[|log| - 1].pin)
  }

  /** The successful calls form one chain of pins from the first file to the present one. */
  predicate Chained(l: Ledger, first: Option<Bytes>, w: World) {
    Chain(w.log, PinOf(l, first)) && PinOf(l, w.file) == LastPin(w.log, PinOf(l, first))
  }

  /** The file holds the first history followed by every logged step, in order: nothing is lost. */
  predicate HoldsAll(l: Ledger, start: History, w: World) {
    ReadHistory(l, Files(l, w), PinOf(l, w.file)) == Some(start.(steps := start.steps + Steps(w.log)))
  }

  predicate WorkUnderLock(l: Ledger, w: World) {
    forall id :: id in w.phases ==>
      var p := w.phases[id];
      (p.Holding? || p.Prepared? || p.Confirmed? ==> w.lock == Some(id))
      && (p.Prepared? ==> PayloadFits(l, w, p.pin, p.step, p.payload))
      && (p.Confirmed? ==> PayloadFits(l, w, p.pin, p.step, p.payload) && PinOf(l, w.file) == p.pin)
  }

  /** If the file is still the pinned one, the payload is that history with the step appended. */
  predicate PayloadFits(l: Ledger, w: World, pin: Option<string>, step: Step, payload: Bytes) {
    PinOf(l, w.file) == pin ==>
      match ReadHistory(l, Files(l, w), pin)
      case None => false
      case Some(h) =>
        match Appended(l, h, step)
        case None => false
        case Some(longer) => payload == l.doc.dump(longer)
  }

  predicate Inv(l: Ledger, first: Option<Bytes>, start: History, w: World) {
    Chained(l, first, w) && HoldsAll(l, start, w) && WorkUnderLock(l, w)
  }

  lemma {:induction false} ChainGrows(log: seq<Update>, first: Option<string>, u: Update)
    requires Chain(log, first) && u.prior == LastPin(log, first)
    ensures Chain(log + [u], first)
  {
    forall i | 0 <= i < |log + [u]| ensures (log + [u])[i].prior == LastPin((log + [u])[..i], first) {
      if i < |log| {
        assert (log + [u])[..i] == log[..i];
      } else {
        assert (log + [u])[..i] == log;
      }
    }
  }

  lemma {:induction false} NextKeepsInv(l: Ledger, first: Option<Bytes>, start: History, w: World, w': World)
    requires Faithful(l.doc) && Inv(l, first, start, w) && Next(l, w, w')
    ensures Inv(l, first, start, w')
    ensures w'.log == w.log || (|w'.log| == |w.log| + 1 && w'.log[..|w.log|] == w.log)
  {
    hide Appended, ReadHistory;
    if !Reconcile(w, w') {
      var id: nat :| Action(l, w, w', id);
      if Replace(l, w, w', id) {
        ReplaceKeepsInv(l, first, start, w, w', id);
      } else {
        assert w'.file == w.file && w'.log == w.log;
        QuietKeepsWork(l, w, w', id);
      }
    }
  }

  /** An action that leaves the file alone leaves every other writer's work in order. */
  lemma {:induction false} QuietKeepsWork(l: Ledger, w: World, w': World, id: nat)
    requires WorkUnderLock(l, w) && Action(l, w, w', id) && !Replace(l, w, w', id)
    requires w'.file == w.file
    ensures WorkUnderLock(l, w')
  {
    forall x | x in w'.phases && x != id ensures x in w.phases && w'.phases[x] == w.phases[x] { }
  }

  lemma {:induction false} ReplaceKeepsInv(l: Ledger, first: Option<Bytes>, start: History,
                                           w: World, w': World, id: nat)
    requires Faithful(l.doc) && Inv(l, first, start, w) && Replace(l, w, w', id)
    ensures Inv(l, first, start, w')
    ensures |w'.log| == |w.log| + 1 && w'.log[..|w.log|] == w.log
  {
    hide Appended, ReadHistory;
    var p := w.phases[id];
    assert w'.log[..|w'.log| - 1] == w.log;
    ReplaceHoldsAll(l, start, w, w', id);
    ChainGrows(w.log, PinOf(l, first), Update(p.pin, l.codec.sha256(p.payload), p.step));
    forall x | x in w'.phases && x != id
      ensures !(w'.phases[x].Holding? || w'.phases[x].Prepared? || w'.phases[x].Confirmed?)
    {
      assert x in w.phases && w'.phases[x] == w.phases[x];
    }
  }

  /** The replaced file holds the history it was read with and the one step more. */
  lemma {:induction false} ReplaceHoldsAll(l: Ledger, start: History, w: World, w': World, id: nat)
    requires Faithful(l.doc) && HoldsAll(l, start, w) && Replace(l, w, w', id)
    requires PayloadFits(l, w, PhaseOf(w, id).pin, PhaseOf(w, id).step, PhaseOf(w, id).payload)
    requires PinOf(l, w.file) == PhaseOf(w, id).pin
    ensures HoldsAll(l, start, w')
  {
    hide StateCursor;
    var p := w.phases[id];
    var h := ReadHistory(l, Files(l, w), p.pin).value;
    var longer := Appended(l, h, p.step).value;
    assert w'.log[..|w'.log| - 1] == w.log;
    assert start.steps + Steps(w'.log) == (start.steps + Steps(w.log)) + [p.step];
    assert ReadsBack(l.doc, longer);
  }

  lemma {:induction false} RunKeepsInv(l: Ledger, ws: seq<World>, start: History)
    requires Faithful(l.doc) && Run(l, ws) && Initial(l, ws[0])
    requires ReadHistory(l, Files(l, ws[0]), PinOf(l, ws[0].file)) == Some(start)
    ensures Inv(l, ws[0].file, start, ws[|ws| - 1])
    decreases |ws|
  {
    hide Next, Run;
    if |ws| > 1 {
      var n := |ws| - 1;
      RunPrefix(l, ws);
      RunKeepsInv(l, ws[..n], start);
      NextKeepsInv(l, ws[0].file, start, ws[n - 1], ws[n]);
    } else {
      assert start.steps + [] == start.steps;
      RunIsNotEmpty(l, ws);
    }
  }

  lemma {:induction false} RunIsNotEmpty(l: Ledger, ws: seq<World>)
    requires Run(l, ws)
    ensures ws != []
  {
  }

  /** The last update wrote the file there is. */
  lemma {:induction false} LastUpdateIsFile(l: Ledger, first: Option<Bytes>, start: History, w: World)
    requires Chained(l, first, w) && HoldsAll(l, start, w) && w.log != []
    ensures w.file.Some? && l.codec.sha256(w.file.value) == w.log[|w.log| - 1].pin
    ensures l.doc.load(w.file.value).Some?
            && |l.doc.load(w.file.value).value.steps| == |start.steps| + |w.log|
  {
    hide Chain;
  }

  /**
    Linearizable: in every interleaving the successful calls form one chain in which each call's
    prior pin is the pin the call before it returned, and the file holds every step of the chain.
   */
  lemma {:induction false} SuccessesFormOneChain(l: Ledger, ws: seq<World>, start: History)
    requires Faithful(l.doc) && Run(l, ws) && Initial(l, ws[0])
    requires ReadHistory(l, Files(l, ws[0]), PinOf(l, ws[0].file)) == Some(start)
    ensures Chained(l, ws[0].file, ws[|ws| - 1])
    ensures HoldsAll(l, start, ws[|ws| - 1])
  {
    RunKeepsInv(l, ws, start);
  }

  /** Some reachable file content for a prefix of the log. */
  lemma {:induction false} LogPrefixWasWritten(l: Ledger, ws: seq<World>, start: History, i: nat)
      returns (bytes: Bytes)
    requires Faithful(l.doc) && Run(l, ws) && Initial(l, ws[0])
    requires ReadHistory(l, Files(l, ws[0]), PinOf(l, ws[0].file)) == Some(start)
    requires i < |ws[|ws| - 1].log|
    ensures l.codec.sha256(bytes) == ws[|ws| - 1].log[i].pin
    ensures l.doc.load(bytes).Some? && |l.doc.load(bytes).value.steps| == |start.steps| + i + 1
    decreases |ws|
  {
    hide Chained, HoldsAll, Next, ReadHistory, Run, WorkUnderLock;
    var n := |ws| - 1;
    RunIsNotEmpty(l, ws);
    RunPrefix(l, ws);
    RunKeepsInv(l, ws[..n], start);
    NextKeepsInv(l, ws[0].file, start, ws[n - 1], ws[n]);
    if i < |ws[n - 1].log| {
      bytes := LogPrefixWasWritten(l, ws[..n], start, i);
    } else {
      LastUpdateIsFile(l, ws[0].file, start, ws[n]);
      bytes := ws[n].file.value;
    }
  }

  /** No pin ever recurs, if the digest is free of collisions. */
  lemma {:induction false} NoPinRecurs(l: Ledger, ws: seq<World>, start: History, i: nat, j: nat)
    requires Faithful(l.doc) && CollisionFree(l.codec)
    requires Run(l, ws) && Initial(l, ws[0])
    requires ReadHistory(l, Files(l, ws[0]), PinOf(l, ws[0].file)) == Some(start)
    requires i < j < |ws[|ws| - 1].log|
    ensures ws[|ws| - 1].log[i].pin != ws[|ws| - 1].log[j].pin
    ensures PinOf(l, ws[0].file) != Some(ws[|ws| - 1].log[j].pin)
  {
    var x := LogPrefixWasWritten(l, ws, start, i);
    var y := LogPrefixWasWritten(l, ws, start, j);
    assert x != y && Distinguishes(l.codec, x, y);
    if ws[0].file.Some? { assert Distinguishes(l.codec, ws[0].file.value, y); }
  }

  /** While a killed writer's lock is left in place, the file does not change. */
  lemma {:induction false} LeftLockFreezesFile(l: Ledger, first: Option<Bytes>, start: History, w: World, w': World)
    requires Faithful(l.doc) && Inv(l, first, start, w) && Next(l, w, w')
    requires w.lock.Some? && PhaseOf(w, w.lock.value) == Killed
    ensures w'.file == w.file && w'.log == w.log
  {
  }
}
