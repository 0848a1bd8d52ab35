/** Which histories roll over and which links a child loads, spelled out without the program's own checks. */
module RolloverForm {
  import opened Foundations
  import opened ChainRows
  import opened FragmentedRow
  import opened FragmentProgress
  import opened FragmentRollover
  import opened HistoryForm

  /** Of a step's inputs, those from the one that contains the cursor on. */
  function FromCursor(inputs: seq<Input>, cursor: Cursor): seq<Input> {
    if |inputs| >= 1 && inputs[0].offset <= cursor.offset < inputs[0].end then inputs
    else if |inputs| == 2 && inputs[1].offset <= cursor.offset < inputs[1].end then [inputs[1]]
    else []
  }

  /** A full history: 32 well-formed steps bound to the ledger, which end before its extent. */
  predicate FullUnfinished(l: Ledger, h: History) {
    && Bound(l, h) && |h.steps| == 32 && IsHash(l.anchor.lastHash) && GoodSteps(h.steps, l.anchor, l.extent)
    && LastCursor(h.steps, l.anchor).offset < l.extent
  }

  lemma {:induction false} FullEndsAt(l: Ledger, h: History)
    requires |h.steps| == 32 && GoodSteps(h.steps, l.anchor, l.extent)
    ensures 1 <= |h.steps[31].inputs| <= 2 && LastCursor(h.steps, l.anchor) == h.steps[31].next
  {
    assert GoodStepAt(h.steps, l.anchor, l.extent, 31);
  }

  lemma {:induction false} SuffixExactly(inputs: seq<Input>, cursor: Cursor)
    requires |inputs| <= 2
    ensures SuffixOf(inputs, cursor) == FromCursor(inputs, cursor)
  {
    if |inputs| == 2 { assert inputs[1..] == [inputs[1]]; }
  }

  /** The link of a full parent, as it is written. */
  function LinkOf(parent: Ledger, pin: string, h: History, title: string): Link
    requires parent.path.ProgressFile? && |h.steps| == 32
  {
    Link(parent.path.title, pin, parent.anchor, parent.evidence, parent.extent, title, h.steps[31].next,
         FromCursor(h.steps[31].inputs, h.steps[31].next))
  }

  /** The child's ledger: named and anchored anew, with the link's digest as its evidence. */
  function ChildOf(r: Rollover, h: History): Ledger
    requires r.parent.path.ProgressFile? && |h.steps| == 32
  {
    r.parent.(path := ProgressFile(r.childTitle), anchor := h.steps[31].next,
              evidence := r.parent.codec.sha256(r.links.dump(LinkOf(r.parent, r.pin, h, r.childTitle))))
  }

  function EmptyHistory(l: Ledger): History {
    History(l.anchor, l.evidence, l.extent, [])
  }

  predicate AbsentOrSame(files: Disk, name: Name, bytes: Bytes) {
    name !in files || files[name] == bytes
  }

  /**
    Everything a rollover asks for: names and hashes in order, a full unfinished parent under its
    pin, room for link and child, and nothing but those two under their names.
   */
  predicate MayRollOver(r: Rollover, files: Disk, h: History) {
    && r.parent.path.ProgressFile? && r.parent.path.title != r.childTitle
    && IsHash(r.parent.anchor.lastHash) && IsHash(r.parent.evidence) && IsHash(r.pin)
    && r.parent.anchor.offset < r.parent.extent
    && Finds(r.parent, files, Some(r.pin), h) && FullUnfinished(r.parent, h)
    && var link := r.links.dump(LinkOf(r.parent, r.pin, h, r.childTitle));
       var child := r.parent.doc.dump(EmptyHistory(ChildOf(r, h)));
       && |link| <= 65536 && |child| <= 65536
       && AbsentOrSame(files, LinkFile(r.childTitle), link) && AbsentOrSame(files, ProgressFile(r.childTitle), child)
  }

  lemma {:induction false} ArtifactsExactly(r: Rollover, files: Disk, h: History)
    requires r.parent.path.ProgressFile? && FullUnfinished(r.parent, h)
    ensures var a := ArtifactsFor(r, h, LastCursor(h.steps, r.parent.anchor));
            && a.link == r.links.dump(LinkOf(r.parent, r.pin, h, r.childTitle)) && a.child == ChildOf(r, h)
            && a.payload == r.parent.doc.dump(EmptyHistory(ChildOf(r, h)))
  {
    FullEndsAt(r.parent, h);
    SuffixExactly(h.steps[31].inputs, h.steps[31].next);
  }

  /** What a rollover that may happen leaves: the link and the empty child, byte for byte. */
  lemma {:induction false} RollsOverWhen(r: Rollover, files: Disk, h: History)
    requires MayRollOver(r, files, h)
    ensures var child := r.parent.doc.dump(EmptyHistory(ChildOf(r, h)));
            RolloverSpec(r, files)
            == (RolledOver(ChildOf(r, h), r.parent.codec.sha256(child)),
                files[LinkFile(r.childTitle) := r.links.dump(LinkOf(r.parent, r.pin, h, r.childTitle))]
                     [ProgressFile(r.childTitle) := child])
  {
    hide ArtifactsFor, ChildOf, GoodSteps, IsHash, StateCursor;
    FindsReads(r.parent, files, Some(r.pin), h);
    HistoryAcceptedExactly(r.parent, h, LastCursor(h.steps, r.parent.anchor));
    ArtifactsExactly(r, files, h);
    ChildIsNamed(r, h);
  }

  lemma {:induction false} ChildIsNamed(r: Rollover, h: History)
    requires r.parent.path.ProgressFile? && |h.steps| == 32
    ensures ChildOf(r, h).path == ProgressFile(r.childTitle)
  {
  }

  /** Only a rollover that may happen does, and any other leaves the disk alone. */
  lemma {:induction false} RolledOverMeans(r: Rollover, files: Disk) returns (h: History)
    ensures RolloverSpec(r, files).0.RolledOver? ==> MayRollOver(r, files, h)
    ensures !RolloverSpec(r, files).0.RolledOver? ==> RolloverSpec(r, files) == (RolloverRefused, files)
  {
    hide ArtifactsFor, ChildOf, GoodSteps, IsHash, StateCursor;
    if RolloverSpec(r, files).0.RolledOver? {
      h := ReadHistory(r.parent, files, Some(r.pin)).value;
      FindsReads(r.parent, files, Some(r.pin), h);
      HistoryAcceptedExactly(r.parent, h, StateCursor(r.parent, h).value);
      ArtifactsExactly(r, files, h);
      ChildIsNamed(r, h);
    } else {
      h := EmptyHistory(r.parent);
    }
  }

  /**
    A rollover happens exactly when the pin opens a full parent that ends before its extent, names
    and hashes are in order, link and child fit, and the files under their names, if any, hold just
    those bytes.
   */
  lemma {:induction false} RollsOverExactly(r: Rollover, files: Disk)
    ensures RolloverSpec(r, files).0.RolledOver? <==> exists h: History :: MayRollOver(r, files, h)
  {
    hide MayRollOver, RolloverSpec;
    var h := RolledOverMeans(r, files);
    forall g: History | MayRollOver(r, files, g) ensures RolloverSpec(r, files).0.RolledOver? {
      RollsOverWhen(r, files, g);
    }
  }

  // ----- What a child loads -----

  /**
    The link on disk has the child's evidence as its digest, names the child, its anchor and extent,
    and a full unfinished parent, pinned and still there, that ends at that anchor with just the
    inputs the link retains.
   */
  predicate GoodLink(l: Ledger, links: Doc<Link>, files: Disk, link: Link, h: History) {
    && l.path.ProgressFile? && LinkFile(l.path.title) in files && |files[LinkFile(l.path.title)]| <= 65536
    && l.codec.sha256(files[LinkFile(l.path.title)]) == l.evidence
    && links.load(files[LinkFile(l.path.title)]) == Some(link)
    && link.childTitle == l.path.title && link.childAnchor == l.anchor && link.extent == l.extent
    && link.parentTitle != link.childTitle && IsHash(link.parentPin) && IsHash(link.parentEvidence)
    && var parent := l.(path := ProgressFile(link.parentTitle), anchor := link.parentAnchor, evidence := link.parentEvidence);
       && Finds(parent, files, Some(link.parentPin), h) && FullUnfinished(parent, h)
       && h.steps[31].next == l.anchor && link.retained == FromCursor(h.steps[31].inputs, l.anchor)
  }

  /** A child loads exactly the retained inputs of such a link, and of no other. */
  lemma {:induction false} LoadsExactly(l: Ledger, links: Doc<Link>, files: Disk, inputs: seq<Input>)
    ensures LoadRollover(l, links, files) == Some(inputs)
       <==> exists link: Link, h: History :: GoodLink(l, links, files, link, h) && inputs == link.retained
  {
    hide GoodLink, LoadRollover;
    if LoadRollover(l, links, files) == Some(inputs) {
      var link, h := LoadedMeans(l, links, files, inputs);
    }
    forall link: Link, h: History | GoodLink(l, links, files, link, h) && inputs == link.retained
      ensures LoadRollover(l, links, files) == Some(inputs)
    {
      LoadsWhen(l, links, files, link, h);
    }
  }

  lemma {:induction false} LoadsWhen(l: Ledger, links: Doc<Link>, files: Disk, link: Link, h: History)
    requires GoodLink(l, links, files, link, h)
    ensures LoadRollover(l, links, files) == Some(link.retained)
  {
    hide GoodSteps, IsHash, StateCursor;
    var parent := ParentLedger(l, link);
    FindsReads(parent, files, Some(link.parentPin), h);
    FullEndsAt(parent, h);
    HistoryAcceptedExactly(parent, h, l.anchor);
    SuffixExactly(h.steps[31].inputs, l.anchor);
  }

  lemma {:induction false} LoadedMeans(l: Ledger, links: Doc<Link>, files: Disk, inputs: seq<Input>)
      returns (link: Link, h: History)
    requires LoadRollover(l, links, files) == Some(inputs)
    ensures GoodLink(l, links, files, link, h) && inputs == link.retained
  {
    hide GoodSteps, IsHash, StateCursor;
    link := links.load(files[LinkFile(l.path.title)]).value;
    var parent := ParentLedger(l, link);
    h := ReadHistory(parent, files, Some(link.parentPin)).value;
    FindsReads(parent, files, Some(link.parentPin), h);
    HistoryAcceptedExactly(parent, h, l.anchor);
    FullEndsAt(parent, h);
    SuffixExactly(h.steps[31].inputs, l.anchor);
  }
}
