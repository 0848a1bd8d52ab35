/** Preserving one bounded byte range of the append-only source. */
module RawChunk {
  import opened Foundations
  import opened FragmentedRow
  import opened Pacing

  /** StageStopped: the call raised. */
  datatype StageResult = Staged(input: Input, charged: nat, elapsed: real) | StageStopped

  /** The range one call covers. */
  function ChunkSize(offset: nat, extent: nat, maxBytes: nat): nat
    requires offset < extent
  {
    Min(maxBytes, extent - offset)
  }

  /** The receipt for a range that holds exactly its source bytes. */
  function RangeInput(c: Codec, src: Bytes, name: Name, offset: nat, size: nat, extent: nat): Input
    requires offset + size <= |src|
  {
    Input(name, offset, offset + size, size, extent, c.sha256(src[offset..offset + size]))
  }

  /** Copies the range in blocks, charging two bytes for each; `read` counts the source bytes read. */
  method CopyRange(src: Bytes, offset: nat, size: nat, pacer: Pacer) returns (ok: bool, copy: Bytes, read: nat)
    requires offset + size <= |src| && pacer.rate > 0
    modifies pacer
    ensures read <= size && pacer.elapsed >= old(pacer.elapsed)
    ensures pacer.quiet ==> ok
    ensures ok ==> copy == src[offset..offset + size] && read == size
                   && pacer.charged == old(pacer.charged) + 2 * size
  {
    copy := [];
    var remaining := size;
    while remaining > 0
      invariant 0 <= remaining <= size && copy == src[offset..offset + (size - remaining)]
      invariant pacer.charged == old(pacer.charged) + 2 * (size - remaining)
      invariant pacer.elapsed >= old(pacer.elapsed)
    {
      var admitted := pacer.Guard();
      if !admitted { return false, copy, size - remaining; }
      var at := offset + size - remaining;
      var amount := Min(BLOCK, remaining);
      copy := copy + src[at..at + amount];
      remaining := remaining - amount;
      var charged := pacer.Charge(2 * amount);
      if !charged { return false, copy, size - remaining; }
    }
    return true, copy, size;
  }

  /** Reads a saved copy back in blocks, charging one byte for each. */
  method ReadBack(saved: Bytes, size: nat, pacer: Pacer) returns (ok: bool, again: Bytes)
    requires pacer.rate > 0
    modifies pacer
    ensures pacer.elapsed >= old(pacer.elapsed)
    ensures pacer.quiet && |saved| == size ==> ok
    ensures ok ==> again == saved && |saved| == size && pacer.charged == old(pacer.charged) + size
    ensures ok && size > 0 ==> Paced(pacer.charged, pacer.rate, pacer.elapsed)
  {
    again := [];
    var read := 0;
    while read < size
      invariant 0 <= read <= size && read <= |saved| && again == saved[..read]
      invariant pacer.charged == old(pacer.charged) + read
      invariant pacer.elapsed >= old(pacer.elapsed)
      invariant read > 0 ==> Paced(pacer.charged, pacer.rate, pacer.elapsed)
    {
      var admitted := pacer.Guard();
      if !admitted { return false, again; }
      var amount := Min(Min(BLOCK, size - read), |saved| - read);
      if amount == 0 { return false, again; }
      again := again + saved[read..read + amount];
      read := read + amount;
      var charged := pacer.Charge(amount);
      if !charged { return false, again; }
    }
    if read < |saved| { return false, again; }
    assert saved[..read] == saved;
    return true, again;
  }

  /** What staging demands of its arguments and of what it finds. */
  predicate MayStage(locks: set<Lock>, files: Disk, src: Bytes, name: Name, offset: nat, extent: nat,
                     maxBytes: nat, rate: nat, deadline: real) {
    && offset < extent <= |src| && 1 <= maxBytes <= MAX_WINDOW && IsRawName(name) && name !in files
    && PaceOk(rate, deadline) && SegmentLock !in locks
  }

  predicate PaceOk(rate: nat, deadline: real) {
    1 <= rate <= MAX_WINDOW && 0.0 < deadline <= 60.0
  }

  /**
    Copies, reads back and publishes one range under the segment lock. The only file it can ever
    add is the exact source range; a successful call has charged three bytes for each byte staged
    and has taken at least that long at the given rate. A quiet call passes over its deadline too;
    any other can only succeed within it, and so only when the rate allows three times the size.
   */
  method StageRawChunk(store: Store, c: Codec, src: Bytes, name: Name, offset: nat, extent: nat,
                       maxBytes: nat, rate: nat, deadline: real, quiet: bool) returns (r: StageResult, read: nat)
    modifies store
    ensures quiet ==> (r.Staged? <==> MayStage(store.locks, old(store.files), src, name, offset, extent, maxBytes, rate, deadline))
    ensures store.locks == old(store.locks)
    ensures store.files == old(store.files)
         || (offset < extent <= |src| && name !in old(store.files)
             && store.files == old(store.files)[name := src[offset..offset + ChunkSize(offset, extent, maxBytes)]])
    ensures offset < extent ==> read <= ChunkSize(offset, extent, maxBytes)
    ensures offset >= extent ==> read == 0
    ensures name in old(store.files) || SegmentLock in old(store.locks) ==>
              r.StageStopped? && read == 0 && store.files == old(store.files)
    ensures r.Staged? ==>
              && offset < extent <= |src| && name !in old(store.files)
              && var size := ChunkSize(offset, extent, maxBytes);
              && r.input == RangeInput(c, src, name, offset, size, extent) && read == size
              && store.files == old(store.files)[name := src[offset..offset + size]]
              && r.charged == 3 * size && 1 <= rate && Paced(3 * size, rate, r.elapsed)
              && (!quiet ==> r.elapsed < deadline && Paced(3 * size, rate, deadline))
  {
    read := 0;
    if !(offset < extent) || !(1 <= maxBytes <= MAX_WINDOW) || !(1 <= rate <= MAX_WINDOW)
       || !(0.0 < deadline <= 60.0) || !IsRawName(name) || name in store.files {
      return StageStopped, 0;
    }
    var size := ChunkSize(offset, extent, maxBytes);
    var pacer := new Pacer(rate, deadline, quiet);
    var admitted := pacer.Guard();
    if !admitted || SegmentLock in store.locks { return StageStopped, 0; }
    store.locks := store.locks + {SegmentLock};
    if |src| < extent {
      store.locks := store.locks - {SegmentLock};
      return StageStopped, 0;
    }
    var copied, temporary, count := CopyRange(src, offset, size, pacer);
    read := count;
    var ok := copied;
    if ok {
      var saved, again := ReadBack(temporary, size, pacer);
      ok := saved && c.sha256(again) == c.sha256(temporary);
    }
    ghost var onPace := pacer.elapsed;
    if ok { ok := pacer.Guard(); }
    if ok {
      store.files := store.files[name := temporary];
      if !quiet { if * { ok := false; } }
    }
    store.locks := store.locks - {SegmentLock};
    if !ok { return StageStopped, read; }
    PaceHolds(pacer.charged, rate, onPace, pacer.elapsed);
    if !quiet { PaceHolds(pacer.charged, rate, pacer.elapsed, deadline); }
    return Staged(RangeInput(c, src, name, offset, size, extent), pacer.charged, pacer.elapsed), read;
  }

  lemma {:induction false} PaceHolds(charged: nat, rate: nat, before: real, after: real)
    requires rate > 0 && Paced(charged, rate, before) && before <= after
    ensures Paced(charged, rate, after)
  {
    MulMono(before + SLACK, after + SLACK, rate as real);
  }
}
