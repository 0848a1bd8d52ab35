/** Retiring a backup file: it is deleted only once a verified archive and a durable receipt can replace it. */
module Consolidation {
  import opened Foundations

  const CHUNK: nat := 1048576

  /** The files one retirement touches. */
  datatype Item = SourceCopy | Archive | Scratch(id: string) | ReceiptItem(title: string)

  type Shelf = map<Item, Bytes>

  /** The foreign parts: compression (None when expanding raises), the digest, and the database check. */
  datatype Tools = Tools(
    deflate: Bytes -> Bytes,
    inflate: Bytes -> Option<Bytes>,
    sha256: Bytes -> string,
    sqliteOk: Bytes -> bool)

  predicate Restores(k: Tools, x: Bytes) {
    k.inflate(k.deflate(x)) == Some(x)
  }

  ghost predicate Lossless(k: Tools) {
    forall x: Bytes :: Restores(k, x)
  }

  predicate TellsApart(k: Tools, x: Bytes, y: Bytes) {
    k.sha256(x) == k.sha256(y) ==> x == y
  }

  ghost predicate NoCollisions(k: Tools) {
    forall x: Bytes, y: Bytes :: TellsApart(k, x, y)
  }

  /** What a receipt says about the archive, and whether the original has been removed. */
  datatype Retirement = Retirement(retired: bool, archive: Item, sha: string, bytes: nat)

  /** One request: the digest and size the trusted earlier receipt gives for the file. */
  datatype Request = Request(tools: Tools, receipts: Doc<Retirement>, sha: string, bytes: nat)

  predicate Trusted(q: Request, x: Bytes) {
    q.tools.sha256(x) == q.sha && |x| == q.bytes
  }

  /** The archive expands to the trusted bytes, and they pass the database check. */
  predicate ArchiveGood(q: Request, d: Shelf) {
    Archive in d
    && match q.tools.inflate(d[Archive])
       case None => false
       case Some(x) => Trusted(q, x) && q.tools.sqliteOk(x)
  }

  /** A receipt on disk names the archive and the trusted digest and size. */
  predicate Receipted(q: Request, d: Shelf, item: Item) {
    item.ReceiptItem? && item in d
    && match q.receipts.load(d[item])
       case None => false
       case Some(r) => r.archive == Archive && r.sha == q.sha && r.bytes == q.bytes
  }

  ghost predicate HasReceipt(q: Request, d: Shelf) {
    exists item: Item :: Receipted(q, d, item)
  }

  /** Nothing is lost: the file is there untouched, or a good archive and a receipt that names it are. */
  ghost predicate Safe(q: Request, original: Bytes, d: Shelf) {
    if SourceCopy in d then d[SourceCopy] == original
    else ArchiveGood(q, d) && q.tools.inflate(d[Archive]) == Some(original) && HasReceipt(q, d)
  }

  // ----- The durable actions -----

  predicate PublishesArchive(q: Request, d: Shelf, d': Shelf) {
    Archive !in d && SourceCopy in d && q.tools.sha256(d[SourceCopy]) == q.sha
    && d' == d[Archive := q.tools.deflate(d[SourceCopy])]
  }

  predicate TouchesScratch(d: Shelf, d': Shelf, id: string) {
    (Scratch(id) in d' && d' == d[Scratch(id) := d'[Scratch(id)]]) || d' == d - {Scratch(id)}
  }

  predicate PublishesReceipt(q: Request, d: Shelf, d': Shelf, item: Item) {
    item.ReceiptItem? && item !in d && SourceCopy in d && Trusted(q, d[SourceCopy]) && ArchiveGood(q, d)
    && d' == d[item := q.receipts.dump(Retirement(false, Archive, q.sha, q.bytes))]
  }

  predicate RemovesSource(q: Request, d: Shelf, d': Shelf, item: Item) {
    SourceCopy in d && Trusted(q, d[SourceCopy]) && ArchiveGood(q, d) && Receipted(q, d, item)
    && d' == d - {SourceCopy}
  }

  predicate FinishesReceipt(q: Request, d: Shelf, d': Shelf, item: Item) {
    SourceCopy !in d && Receipted(q, d, item)
    && d' == d[item := q.receipts.dump(Retirement(true, Archive, q.sha, q.bytes))]
  }

  ghost predicate Act(q: Request, d: Shelf, d': Shelf) {
    || PublishesArchive(q, d, d')
    || (exists id: string :: TouchesScratch(d, d', id))
    || (exists item: Item :: PublishesReceipt(q, d, d', item))
    || (exists item: Item :: RemovesSource(q, d, d', item))
    || (exists item: Item :: FinishesReceipt(q, d, d', item))
  }

  /** The durable states some calls pass through, in order. */
  ghost predicate ShelfRun(q: Request, ds: seq<Shelf>) {
    |ds| > 0 && forall i :: 0 <= i < |ds| - 1 ==> ShelfStep(q, ds, i)
  }

  ghost predicate ShelfStep(q: Request, ds: seq<Shelf>, i: nat)
    requires i < |ds| - 1
  {
    ds[i + 1] == ds[i] || Act(q, ds[i], ds[i + 1])
  }

  lemma {:induction false} ShelfRunGrows(q: Request, ds: seq<Shelf>, d: Shelf)
    requires ShelfRun(q, ds) && (d == ds[|ds| - 1] || Act(q, ds[|ds| - 1], d))
    ensures ShelfRun(q, ds + [d])
  {
    hide Act;
    var more := ds + [d];
    forall i | 0 <= i < |more| - 1 ensures ShelfStep(q, more, i) {
      if i < |ds| - 1 { assert ShelfStep(q, ds, i); }
    }
  }

  // ----- Safety over whole runs -----

  lemma {:induction false} ActKeepsSafe(q: Request, original: Bytes, d: Shelf, d': Shelf)
    requires NoCollisions(q.tools) && Faithful(q.receipts)
    requires Safe(q, original, d) && Act(q, d, d')
    ensures Safe(q, original, d')
  {
    if PublishesArchive(q, d, d') {
    } else if item: Item :| RemovesSource(q, d, d', item) {
      var x := q.tools.inflate(d[Archive]).value;
      assert TellsApart(q.tools, x, original);
      assert Receipted(q, d', item);
    } else if item: Item :| PublishesReceipt(q, d, d', item) {
    } else if item: Item :| FinishesReceipt(q, d, d', item) {
      assert ReadsBack(q.receipts, Retirement(true, Archive, q.sha, q.bytes));
      assert Receipted(q, d', item);
    } else {
      var id: string :| TouchesScratch(d, d', id);
      if SourceCopy !in d {
        var item: Item :| Receipted(q, d, item);
        assert Receipted(q, d', item);
      }
    }
  }

  /** An archive that is there is never changed. */
  lemma {:induction false} ArchiveIsKept(q: Request, d: Shelf, d': Shelf)
    requires Act(q, d, d') && Archive in d
    ensures Archive in d' && d'[Archive] == d[Archive]
  {
    if PublishesArchive(q, d, d') {
    } else if item: Item :| PublishesReceipt(q, d, d', item) {
    } else if item: Item :| RemovesSource(q, d, d', item) {
    } else if item: Item :| FinishesReceipt(q, d, d', item) {
    }
  }

  lemma {:induction false} ShelfPrefix(q: Request, ds: seq<Shelf>)
    requires ShelfRun(q, ds) && |ds| > 1
    ensures ShelfRun(q, ds[..|ds| - 1])
    ensures ds[|ds| - 1] == ds[|ds| - 2] || Act(q, ds[|ds| - 2], ds[|ds| - 1])
  {
    hide Act;
    var before := ds[..|ds| - 1];
    assert ShelfStep(q, ds, |ds| - 2);
    forall i | 0 <= i < |before| - 1 ensures ShelfStep(q, before, i) { assert ShelfStep(q, ds, i); }
  }

  /**
    Deletion safety. In every state that any number of calls can reach, each interrupted
    anywhere and retried with any receipts, the file is there with its bytes, or an archive
    expands to exactly those bytes and a durable receipt names it.
   */
  lemma {:induction false} NothingIsLost(q: Request, original: Bytes, ds: seq<Shelf>)
    requires NoCollisions(q.tools) && Faithful(q.receipts)
    requires ShelfRun(q, ds) && SourceCopy in ds[0] && ds[0][SourceCopy] == original
    ensures Safe(q, original, ds[|ds| - 1])
    decreases |ds|
  {
    hide Act, Safe;
    var n := |ds| - 1;
    if n == 0 {
      SourceIsSafe(q, original, ds[0]);
    } else {
      ShelfPrefix(q, ds);
      assert ds[..n][0] == ds[0];
      NothingIsLost(q, original, ds[..n]);
      if ds[n] != ds[n - 1] { ActKeepsSafe(q, original, ds[n - 1], ds[n]); }
    }
  }

  lemma {:induction false} SourceIsSafe(q: Request, original: Bytes, d: Shelf)
    requires SourceCopy in d && d[SourceCopy] == original
    ensures Safe(q, original, d)
  {
  }

  /**
    A wrong archive that was there before never leads to deletion, however often the request is
    retried; and the wrong archive itself is kept as it was.
   */
  lemma {:induction false} WrongArchiveNeverDeletes(q: Request, ds: seq<Shelf>)
    requires ShelfRun(q, ds) && SourceCopy in ds[0] && Archive in ds[0] && !ArchiveGood(q, ds[0])
    ensures var d := ds[|ds| - 1];
            && SourceCopy in d && d[SourceCopy] == ds[0][SourceCopy]
            && Archive in d && d[Archive] == ds[0][Archive]
    decreases |ds|
  {
    hide Act;
    var n := |ds| - 1;
    if n > 0 {
      ShelfPrefix(q, ds);
      assert ds[..n][0] == ds[0] && ds[..n][n - 1] == ds[n - 1];
      WrongArchiveNeverDeletes(q, ds[..n]);
      if ds[n] != ds[n - 1] {
        ArchiveIsKept(q, ds[n - 1], ds[n]);
        WrongArchiveKeepsSource(q, ds[n - 1], ds[n]);
      }
    }
  }

  lemma {:induction false} WrongArchiveKeepsSource(q: Request, d: Shelf, d': Shelf)
    requires Act(q, d, d') && SourceCopy in d && Archive in d && !ArchiveGood(q, d)
    ensures SourceCopy in d' && d'[SourceCopy] == d[SourceCopy]
  {
    if PublishesArchive(q, d, d') {
    } else if item: Item :| PublishesReceipt(q, d, d', item) {
    } else if item: Item :| FinishesReceipt(q, d, d', item) {
    }
  }

  // ----- The program -----

  class Vault {
    var files: Shelf

    constructor (files: Shelf)
      ensures this.files == files
    {
      this.files := files;
    }
  }

  /** Reads everything in chunks; unless the call is quiet it may raise at any of them. */
  method ReadAll(content: Bytes, quiet: bool) returns (ok: bool, data: Bytes)
    ensures quiet ==> ok
    ensures ok ==> data == content
  {
    data := [];
    while |data| < |content|
      invariant |data| <= |content| && data == content[..|data|]
    {
      if !quiet { if * { return false, data; } }
      data := data + content[|data|..|data| + Min(CHUNK, |content| - |data|)];
    }
    return true, data;
  }

  /** Expands an archive in chunks, never past one byte more than expected; None when it raises. */
  method ExpandBounded(k: Tools, archive: Bytes, expected: nat, quiet: bool)
      returns (data: Option<Bytes>, produced: nat)
    ensures quiet && data.None? ==> k.inflate(archive).None? || |k.inflate(archive).value| > expected
    ensures produced <= expected + 1
    ensures data.Some? ==> k.inflate(archive) == data && |data.value| <= expected
  {
    produced := 0;
    var expanded := k.inflate(archive);
    if expanded.None? { return None, 0; }
    var content := expanded.value;
    var output: Bytes := [];
    while |output| < |content|
      invariant |output| <= |content| && output == content[..|output|]
      invariant produced == |output| <= expected
      decreases |content| - |output|
    {
      if !quiet { if * { return None, produced; } }
      var amount := Min(Min(CHUNK, expected - produced + 1), |content| - |output|);
      produced := produced + amount;
      if produced > expected { return None, produced; }
      output := output + content[|output|..|output| + amount];
    }
    assert output == content;
    return Some(output), produced;
  }

  /** The shelf once the archive is there: the one that was there before, or the source's own. */
  function WithArchive(q: Request, d: Shelf): Shelf
    requires SourceCopy in d
  {
    if Archive in d then d else d[Archive := q.tools.deflate(d[SourceCopy])]
  }

  /** Everything a request needs to end with the file retired. */
  predicate MayRetire(q: Request, d: Shelf, title: string, id: string) {
    && IsHash(q.sha) && ReceiptItem(title) !in d && Scratch(id) !in d
    && SourceCopy in d && Trusted(q, d[SourceCopy]) && ArchiveGood(q, WithArchive(q, d))
  }

  /** Publishes a new archive that has been expanded again and compared; the source is only read. */
  method CompressBackup(vault: Vault, q: Request, quiet: bool) returns (ok: bool)
    modifies vault
    ensures (quiet && IsHash(q.sha) && SourceCopy in old(vault.files) && Archive !in old(vault.files)
             && Trusted(q, old(vault.files)[SourceCopy]) && ArchiveGood(q, WithArchive(q, old(vault.files)))) ==> ok
    ensures vault.files == old(vault.files) || PublishesArchive(q, old(vault.files), vault.files)
    ensures ok ==> PublishesArchive(q, old(vault.files), vault.files)
    ensures Archive in old(vault.files) ==> !ok && vault.files == old(vault.files)
  {
    if !IsHash(q.sha) || SourceCopy !in vault.files || Archive in vault.files { return false; }
    var read, data := ReadAll(vault.files[SourceCopy], quiet);
    if !read { return false; }
    var temporary := q.tools.deflate(data);
    if q.tools.sha256(data) != q.sha { return false; }
    var expanded := q.tools.inflate(temporary);
    if expanded.None? || q.tools.sha256(expanded.value) != q.sha || |expanded.value| != |data| { return false; }
    if !quiet { if * { return false; } }
    vault.files := vault.files[Archive := temporary];
    if !quiet { if * { return false; } }
    return true;
  }

  /** Restores the archive to a new scratch file; it succeeds only on the trusted bytes. */
  method RestoreArchive(vault: Vault, q: Request, id: string, quiet: bool) returns (ok: bool)
    modifies vault
    ensures quiet && IsHash(q.sha) && Scratch(id) !in old(vault.files) && ArchiveGood(q, old(vault.files)) ==> ok
    ensures vault.files == old(vault.files) || TouchesScratch(old(vault.files), vault.files, id)
    ensures ok ==>
              && IsHash(q.sha) && ArchiveGood(q, old(vault.files)) && Scratch(id) !in old(vault.files)
              && vault.files == old(vault.files)[Scratch(id) := q.tools.inflate(old(vault.files)[Archive]).value]
  {
    if !IsHash(q.sha) || Archive !in vault.files || Scratch(id) in vault.files { return false; }
    var data, produced := ExpandBounded(q.tools, vault.files[Archive], q.bytes, quiet);
    if data.None? || |data.value| != q.bytes || q.tools.sha256(data.value) != q.sha { return false; }
    var read, again := ReadAll(data.value, quiet);
    if !read || q.tools.sha256(again) != q.sha { return false; }
    if !q.tools.sqliteOk(data.value) { return false; }
    if !quiet { if * { return false; } }
    vault.files := vault.files[Scratch(id) := data.value];
    if !quiet { if * { return false; } }
    return true;
  }

  /**
    One request. Every durable state it passes through is in `run`; when it reports success the
    file is gone, and the archive and a receipt that says so are there. It never starts on a
    receipt that exists.
   */
  method Consolidate(vault: Vault, q: Request, title: string, id: string, quiet: bool) returns (ok: bool, ghost run: seq<Shelf>)
    requires Faithful(q.receipts)
    modifies vault
    ensures ShelfRun(q, run) && run[0] == old(vault.files) && run[|run| - 1] == vault.files
    ensures ok ==>
              && SourceCopy in old(vault.files) && Trusted(q, old(vault.files)[SourceCopy])
              && SourceCopy !in vault.files && ArchiveGood(q, vault.files)
              && Receipted(q, vault.files, ReceiptItem(title))
              && q.receipts.load(vault.files[ReceiptItem(title)]) == Some(Retirement(true, Archive, q.sha, q.bytes))
    ensures ReceiptItem(title) in old(vault.files) ==> !ok && vault.files == old(vault.files)
    ensures ok ==> MayRetire(q, old(vault.files), title, id)
    ensures quiet && MayRetire(q, old(vault.files), title, id) ==> ok
  {
    run := [vault.files];
    if !quiet { if * { return false, run; } }
    if ReceiptItem(title) in vault.files || SourceCopy !in vault.files || |vault.files[SourceCopy]| != q.bytes {
      return false, run;
    }
    if Archive !in vault.files {
      ok := CompressBackup(vault, q, quiet);
      ShelfRunGrows(q, run, vault.files);
      run := run + [vault.files];
      if !ok { return false, run; }
    }
    ok, run := CheckAndRetire(vault, q, title, id, quiet, run);
  }

  /** The restore check, and after it the receipt, the removal and the final receipt; the scratch file always goes. */
  method CheckAndRetire(vault: Vault, q: Request, title: string, id: string, quiet: bool, ghost before: seq<Shelf>)
      returns (ok: bool, ghost run: seq<Shelf>)
    requires Faithful(q.receipts) && ShelfRun(q, before) && before[|before| - 1] == vault.files
    requires SourceCopy in vault.files && |vault.files[SourceCopy]| == q.bytes
    requires ReceiptItem(title) !in vault.files
    modifies vault
    ensures ok ==> MayRetire(q, old(vault.files), title, id)
    ensures quiet && Archive in old(vault.files) && MayRetire(q, old(vault.files), title, id) ==> ok
    ensures ShelfRun(q, run) && run[0] == before[0] && run[|run| - 1] == vault.files
    ensures ok ==>
              && Trusted(q, old(vault.files)[SourceCopy]) && SourceCopy !in vault.files && ArchiveGood(q, vault.files)
              && Receipted(q, vault.files, ReceiptItem(title))
              && q.receipts.load(vault.files[ReceiptItem(title)]) == Some(Retirement(true, Archive, q.sha, q.bytes))
  {
    hide ArchiveGood;
    ghost var start := vault.files;
    ok := RestoreArchive(vault, q, id, quiet);
    ScratchIsAct(q, start, vault.files, id);
    ShelfRunGrows(q, before, vault.files);
    run := before + [vault.files];
    if ok {
      ScratchKeepsArchive(q, start, vault.files, id);
      ok, run := Retire(vault, q, title, quiet, run);
    }
    ghost var left := vault.files;
    vault.files := vault.files - {Scratch(id)};
    ScratchIsAct(q, left, vault.files, id);
    ShelfRunGrows(q, run, vault.files);
    run := run + [vault.files];
    if ok { ScratchKeepsArchive(q, left, vault.files, id); }
  }

  lemma {:induction false} ScratchIsAct(q: Request, d: Shelf, d': Shelf, id: string)
    requires d' == d || TouchesScratch(d, d', id)
    ensures d' == d || Act(q, d, d')
  {
  }

  lemma {:induction false} ScratchKeepsArchive(q: Request, d: Shelf, d': Shelf, id: string)
    requires TouchesScratch(d, d', id) && ArchiveGood(q, d)
    ensures ArchiveGood(q, d')
  {
  }

  /** Re-reads the source, publishes the receipt, removes the source and completes the receipt. */
  method Retire(vault: Vault, q: Request, title: string, quiet: bool, ghost before: seq<Shelf>) returns (ok: bool, ghost run: seq<Shelf>)
    requires Faithful(q.receipts) && ShelfRun(q, before) && before[|before| - 1] == vault.files
    requires SourceCopy in vault.files && |vault.files[SourceCopy]| == q.bytes && ArchiveGood(q, vault.files)
    requires ReceiptItem(title) !in vault.files
    modifies vault
    ensures quiet && Trusted(q, old(vault.files)[SourceCopy]) ==> ok
    ensures ShelfRun(q, run) && run[0] == before[0] && run[|run| - 1] == vault.files
    ensures ok ==>
              && Trusted(q, old(vault.files)[SourceCopy]) && SourceCopy !in vault.files && ArchiveGood(q, vault.files)
              && Receipted(q, vault.files, ReceiptItem(title))
              && q.receipts.load(vault.files[ReceiptItem(title)]) == Some(Retirement(true, Archive, q.sha, q.bytes))
  {
    run := before;
    var read, data := ReadAll(vault.files[SourceCopy], quiet);
    if !read || q.tools.sha256(data) != q.sha { return false, run; }
    if !quiet { if * { return false, run; } }
    var item := ReceiptItem(title);
    ghost var d := vault.files;
    vault.files := vault.files[item := q.receipts.dump(Retirement(false, Archive, q.sha, q.bytes))];
    assert PublishesReceipt(q, d, vault.files, item);
    ShelfRunGrows(q, run, vault.files);
    run := run + [vault.files];
    if !quiet { if * { return false, run; } }
    assert ReadsBack(q.receipts, Retirement(false, Archive, q.sha, q.bytes));
    d := vault.files;
    vault.files := vault.files - {SourceCopy};
    assert RemovesSource(q, d, vault.files, item);
    ShelfRunGrows(q, run, vault.files);
    run := run + [vault.files];
    if !quiet { if * { return false, run; } }
    d := vault.files;
    vault.files := vault.files[item := q.receipts.dump(Retirement(true, Archive, q.sha, q.bytes))];
    assert FinishesReceipt(q, d, vault.files, item);
    ShelfRunGrows(q, run, vault.files);
    run := run + [vault.files];
    assert ReadsBack(q.receipts, Retirement(true, Archive, q.sha, q.bytes));
    ok := true;
  }

  /** Lossless compression makes the program's own archive always good for a trusted source that passes the check. */
  lemma {:induction false} OwnArchiveIsGood(q: Request, d: Shelf, d': Shelf)
    requires Lossless(q.tools) && PublishesArchive(q, d, d')
    requires Trusted(q, d[SourceCopy]) && q.tools.sqliteOk(d[SourceCopy])
    ensures ArchiveGood(q, d') && q.tools.inflate(d'[Archive]) == Some(d[SourceCopy])
  {
    assert Restores(q.tools, d[SourceCopy]);
  }
}
