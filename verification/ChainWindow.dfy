/** Verification of whole rows in one window read directly from the source. */
module ChainWindow {
  import opened Foundations
  import opened ChainRows
  import opened FragmentedRow

  predicate WindowPolicyOk(cursor: Cursor, maxBytes: nat, limit: nat) {
    IsHash(cursor.lastHash)
    && (cursor.offset == 0 ==> cursor.sequence == 0 && cursor.lastHash == GENESIS)
    && 128 <= maxBytes <= MAX_WINDOW && 1 <= limit <= 256
  }

  /** Where the window ends: the boundary byte before the cursor counts against the limit. */
  function WindowEnd(src: Bytes, cursor: Cursor, maxBytes: nat): (end: nat)
    requires cursor.offset <= |src| && 1 <= maxBytes
    ensures cursor.offset <= end <= |src|
  {
    cursor.offset + Min(maxBytes - (if cursor.offset > 0 then 1 else 0), |src| - cursor.offset)
  }

  /** What the window verifier concludes when no guard stops it. */
  function WindowVerdict(c: Codec, src: Bytes, cursor: Cursor, maxBytes: nat, limit: nat): Verdict {
    if !WindowPolicyOk(cursor, maxBytes, limit) then Refused
    else if !AtRowStart(src, cursor.offset) then Rejected
    else
      var data := src[cursor.offset..WindowEnd(src, cursor, maxBytes)];
      Concluded(c, data, cursor, ScanRows(c, data, cursor.offset, cursor, limit))
  }

  /** Read-only; `read` counts the source bytes read. */
  method VerifyChainWindow(c: Codec, src: Bytes, cursor: Cursor, maxBytes: nat, limit: nat, quiet: bool)
      returns (v: Verdict, read: nat)
    ensures quiet ==> v == WindowVerdict(c, src, cursor, maxBytes, limit)
    ensures v == Blocked || v == WindowVerdict(c, src, cursor, maxBytes, limit)
    ensures v == Refused <==> !WindowPolicyOk(cursor, maxBytes, limit)
    ensures read <= maxBytes
    ensures v.Verified? ==>
              read == (if cursor.offset > 0 then 1 else 0) + WindowEnd(src, cursor, maxBytes) - cursor.offset
  {
    hide ScanRows;
    read := 0;
    if !WindowPolicyOk(cursor, maxBytes, limit) { return Refused, 0; }
    if !quiet { if * { return Blocked, 0; } }
    if cursor.offset > |src| { return Rejected, 0; }
    if cursor.offset > 0 {
      read := 1;
      if src[cursor.offset - 1] != NEWLINE { return Rejected, read; }
    }
    var remaining := Min(maxBytes - read, |src| - cursor.offset);
    var admitted, data := ReadBlocks(src[cursor.offset..cursor.offset + remaining], quiet);
    if !admitted { return Blocked, read; }
    read := read + |data|;
    var w := WalkRows(c, data, cursor, limit, quiet);
    if w.Stopped? { return Blocked, read; }
    if !quiet { if * { return Blocked, read; } }
    v := Concluded(c, data, cursor, w.scan);
  }

  /** The verdict is that of scanning the source up to the window's end. */
  lemma {:induction false} WindowFromSource(c: Codec, src: Bytes, cursor: Cursor, maxBytes: nat, limit: nat)
    requires WindowPolicyOk(cursor, maxBytes, limit) && AtRowStart(src, cursor.offset)
    ensures WindowVerdict(c, src, cursor, maxBytes, limit)
         == SourceVerdict(c, src, cursor.offset, WindowEnd(src, cursor, maxBytes), cursor, limit)
  {
    var end := WindowEnd(src, cursor, maxBytes);
    JoinedVerdictFromSource(c, src, cursor.offset, end, cursor, limit);
    assert src[cursor.offset..end][0..] == src[cursor.offset..end];
  }

  /**
    The two verifiers agree. From a row start, over fragments that hold their source ranges and
    end where the window ends, they reach the same verdict, cursor and digest.
   */
  lemma {:induction false} VerifiersAgree(c: Codec, files: Disk, src: Bytes, receipts: seq<Receipt>, cursor: Cursor,
                                          maxBytes: nat, limit: nat)
    requires WindowPolicyOk(cursor, maxBytes, limit) && AtRowStart(src, cursor.offset)
    requires PolicyOk(cursor, receipts, limit) && ReceiptsOk(receipts, cursor)
    requires FilesMatch(files, src, Inputs(receipts)) && Joined(c, files, Inputs(receipts)).Some?
    requires receipts[|receipts| - 1].input.end == WindowEnd(src, cursor, maxBytes)
    ensures FragmentVerdict(c, files, receipts, cursor, limit) == WindowVerdict(c, src, cursor, maxBytes, limit)
  {
    hide FragmentVerdict, WindowVerdict, ScanRows;
    VerdictFromSource(c, files, src, receipts, cursor, limit);
    WindowFromSource(c, src, cursor, maxBytes, limit);
  }

  /** Verified rows are a chain extension of the source from a row start, between one row and the limit. */
  lemma {:induction false} WindowVerifiedIsExtension(c: Codec, src: Bytes, cursor: Cursor, maxBytes: nat, limit: nat)
    requires WindowVerdict(c, src, cursor, maxBytes, limit).Verified?
    ensures AtRowStart(src, cursor.offset)
    ensures var v := WindowVerdict(c, src, cursor, maxBytes, limit);
            && Extension(c, src, cursor, v.next)
            && cursor.offset < v.next.offset <= WindowEnd(src, cursor, maxBytes)
            && cursor.sequence < v.next.sequence <= cursor.sequence + limit
            && v.sha == c.sha256(src[cursor.offset..v.next.offset])
  {
    hide ScanRows;
    WindowFromSource(c, src, cursor, maxBytes, limit);
    var end := WindowEnd(src, cursor, maxBytes);
    ScanTaken(c, src[..end], cursor, limit);
    var next := WindowVerdict(c, src, cursor, maxBytes, limit).next;
    assert src[..end][..next.offset] == src[..next.offset];
  }
}
