/** Retiring a backup file by what is on the shelf: when it may be retired, what is left, and what receipts say. */
module RetirementForm {
  import opened Foundations
  import opened Consolidation

  /** Expanding these bytes gives a database of the trusted digest and size that passes its check. */
  ghost predicate RestoresTo(q: Request, packed: Bytes, x: Bytes) {
    && q.tools.inflate(packed) == Some(x)
    && q.tools.sha256(x) == q.sha && |x| == q.bytes && q.tools.sqliteOk(x)
  }

  /** What would be restored: the archive that is there, or the one that compressing the file makes. */
  function Packed(q: Request, d: Shelf): Bytes
    requires SourceCopy in d
  {
    if Archive in d then d[Archive] else q.tools.deflate(d[SourceCopy])
  }

  /**
    When a request that nothing stops retires the file: the file is there with the trusted digest
    and size, what would be restored is too and passes the database check, and the receipt and the
    scratch file are new.
   */
  lemma {:induction false} RetiresExactly(q: Request, d: Shelf, title: string, id: string)
    ensures MayRetire(q, d, title, id)
       <==> && IsHash(q.sha) && ReceiptItem(title) !in d && Scratch(id) !in d
            && SourceCopy in d && q.tools.sha256(d[SourceCopy]) == q.sha && |d[SourceCopy]| == q.bytes
            && exists x: Bytes :: RestoresTo(q, Packed(q, d), x)
  {
    if SourceCopy in d && q.tools.inflate(Packed(q, d)).Some? {
      var x := q.tools.inflate(Packed(q, d)).value;
      assert RestoresTo(q, Packed(q, d), x) <==> Trusted(q, x) && q.tools.sqliteOk(x);
    }
  }

  /** With lossless compression and no earlier archive it takes no more than a trusted file that passes the check. */
  lemma {:induction false} FreshRetires(q: Request, d: Shelf, title: string, id: string)
    requires Lossless(q.tools) && Archive !in d
    ensures MayRetire(q, d, title, id)
       <==> && IsHash(q.sha) && ReceiptItem(title) !in d && Scratch(id) !in d
            && SourceCopy in d && RestoresTo(q, q.tools.deflate(d[SourceCopy]), d[SourceCopy])
  {
    if SourceCopy in d { assert Restores(q.tools, d[SourceCopy]); }
    RetiresExactly(q, d, title, id);
  }

  /** A receipt that names the archive and the trusted digest and size; `retired` when it says that the file is gone. */
  predicate Says(q: Request, d: Shelf, item: Item, retired: bool) {
    item.ReceiptItem? && item in d && q.receipts.load(d[item]) == Some(Retirement(retired, Archive, q.sha, q.bytes))
  }

  /**
    Over any number of interrupted and retried calls the file is gone only when the archive on the
    shelf expands to it, it passes the database check, it had the trusted digest and size, and a
    receipt says so; until then it is there as it was.
   */
  lemma {:induction false} GoneMeansRestorable(q: Request, original: Bytes, ds: seq<Shelf>)
    requires NoCollisions(q.tools) && Faithful(q.receipts)
    requires ShelfRun(q, ds) && SourceCopy in ds[0] && ds[0][SourceCopy] == original
    ensures var d := ds[|ds| - 1];
            if SourceCopy in d then d[SourceCopy] == original
            else Archive in d && RestoresTo(q, d[Archive], original)
                 && exists item: Item, retired: bool :: Says(q, d, item, retired)
  {
    NothingIsLost(q, original, ds);
    var d := ds[|ds| - 1];
    if SourceCopy !in d {
      var item: Item :| Receipted(q, d, item);
      var r := q.receipts.load(d[item]).value;
      assert r == Retirement(r.retired, Archive, q.sha, q.bytes);
      assert Says(q, d, item, r.retired);
    }
  }

  /** A file of another digest or size, or one that fails the database check, is never removed. */
  lemma {:induction false} DamagedIsKept(q: Request, original: Bytes, ds: seq<Shelf>)
    requires NoCollisions(q.tools) && Faithful(q.receipts)
    requires ShelfRun(q, ds) && SourceCopy in ds[0] && ds[0][SourceCopy] == original
    requires q.tools.sha256(original) != q.sha || |original| != q.bytes || !q.tools.sqliteOk(original)
    ensures SourceCopy in ds[|ds| - 1] && ds[|ds| - 1][SourceCopy] == original
  {
    GoneMeansRestorable(q, original, ds);
  }

  /** Receipts written since the start: the wording of the request, and `retired` only once the file is gone. */
  ghost predicate TellsTruth(q: Request, d0: Shelf, d: Shelf) {
    forall item: Item :: item.ReceiptItem? && item in d && item !in d0 ==>
      Says(q, d, item, false) || (Says(q, d, item, true) && SourceCopy !in d)
  }

  lemma {:induction false} ActKeepsTruth(q: Request, d0: Shelf, d: Shelf, d': Shelf)
    requires Faithful(q.receipts) && Act(q, d, d') && TellsTruth(q, d0, d)
    ensures TellsTruth(q, d0, d')
  {
    hide ArchiveGood, Trusted;
    assert ReadsBack(q.receipts, Retirement(false, Archive, q.sha, q.bytes));
    assert ReadsBack(q.receipts, Retirement(true, Archive, q.sha, q.bytes));
    if SourceCopy !in d { NoFileComesBack(q, d, d'); }
    forall x: Item | x.ReceiptItem? && x in d' && x !in d0
      ensures Says(q, d', x, false) || (Says(q, d', x, true) && SourceCopy !in d')
    {
      if x in d && d'[x] == d[x] {
        assert Says(q, d, x, false) || (Says(q, d, x, true) && SourceCopy !in d);
      } else if item: Item :| PublishesReceipt(q, d, d', item) {
      } else if item: Item :| FinishesReceipt(q, d, d', item) {
      } else if id: string :| TouchesScratch(d, d', id) {
      }
    }
  }

  lemma {:induction false} NoFileComesBack(q: Request, d: Shelf, d': Shelf)
    requires Act(q, d, d') && SourceCopy !in d
    ensures SourceCopy !in d'
  {
    hide ArchiveGood, Trusted;
    if id: string :| TouchesScratch(d, d', id) {
    } else if item: Item :| FinishesReceipt(q, d, d', item) {
    }
  }

  /**
    What receipts say is so: over any number of interrupted and retried calls, every receipt that
    was not there at first gives the archive, digest and size of the request, and says that the
    file is retired only when it is gone.
   */
  lemma {:induction false} ReceiptsTellTruth(q: Request, ds: seq<Shelf>)
    requires Faithful(q.receipts) && ShelfRun(q, ds)
    ensures TellsTruth(q, ds[0], ds[|ds| - 1])
    decreases |ds|
  {
    hide Act, TellsTruth;
    var n := |ds| - 1;
    if n == 0 {
      NothingWritten(q, ds[0]);
    } else {
      ShelfPrefix(q, ds);
      assert ds[..n][0] == ds[0] && ds[..n][n - 1] == ds[n - 1];
      ReceiptsTellTruth(q, ds[..n]);
      if ds[n] != ds[n - 1] { ActKeepsTruth(q, ds[0], ds[n - 1], ds[n]); }
    }
  }

  lemma {:induction false} NothingWritten(q: Request, d: Shelf)
    ensures TellsTruth(q, d, d)
  {
  }
}
