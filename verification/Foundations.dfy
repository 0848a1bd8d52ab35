/** Bytes, file names, and the foreign text and digest functions every other module is given. */
module Foundations {

  datatype Option<+T> = None | Some(value: T)

  newtype Byte = b: int | 0 <= b < 256

  type Bytes = seq<Byte>

  const NEWLINE: Byte := 10

  /** The block size every reading loop uses. */
  const BLOCK: nat := 65536

  /** No progress, journal, link or tick file may be longer. */
  const MAX_METADATA: nat := 65536

  /** The longest raw window, and the longest fragment a receipt may name. */
  const MAX_WINDOW: nat := 1048576

  const ZEROS: string := "0000000000000000"

  /** Sixty-four zeros: the predecessor hash of the first row of a chain. */
  const GENESIS: string := ZEROS + ZEROS + ZEROS + ZEROS

  predicate IsHash(s: string) {
    |s| == 64 && forall i :: 0 <= i < 64 ==> '0' <= s[i] <= '9' || 'a' <= s[i] <= 'f'
  }

  lemma {:induction false} GenesisIsHash()
    ensures IsHash(GENESIS) && |GENESIS| == 64 && forall i :: 0 <= i < 64 ==> GENESIS[i] == '0'
  {
    assert |ZEROS| == 16 && forall i :: 0 <= i < 16 ==> ZEROS[i] == '0';
  }

  function Min(a: int, b: int): int {
    if a <= b then a else b
  }

  /** A decoded JSON value; a number that is not an integer keeps its text. */
  datatype Json =
    | Null
    | Bool(flag: bool)
    | Int(value: int)
    | Number(token: string)
    | Text(text: string)
    | Array(items: seq<Json>)
    | Object(fields: map<string, Json>)

  /**
    The foreign functions: strict JSON decoding of one line (None when decoding raises,
    duplicate keys included), the canonical encoding of a row body, and the SHA-256 hex digest.
   */
  datatype Codec = Codec(
    loads: Bytes -> Option<Json>,
    canonical: map<string, Json> -> Bytes,
    sha256: Bytes -> string)

  // Each law is stated through a named predicate, so that a proof instantiates it where it says so.

  predicate Distinguishes(c: Codec, x: Bytes, y: Bytes) {
    c.sha256(x) == c.sha256(y) ==> x == y
  }

  ghost predicate CollisionFree(c: Codec) {
    forall x: Bytes, y: Bytes :: Distinguishes(c, x, y)
  }

  predicate HasHexDigest(c: Codec, x: Bytes) {
    IsHash(c.sha256(x))
  }

  /**
    The digests of the ranges of one source are hexadecimal. It is asked of those finitely many
    strings only: a digest that is hexadecimal everywhere could not also be free of collisions.
   */
  ghost predicate HexRanges(c: Codec, src: Bytes) {
    forall a: nat, b: nat :: RangeHasHexDigest(c, src, a, b)
  }

  predicate RangeHasHexDigest(c: Codec, src: Bytes, a: nat, b: nat) {
    a <= b <= |src| ==> HasHexDigest(c, src[a..b])
  }

  /** How one kind of metadata file is written and read back; None when reading raises. */
  datatype Doc<!T> = Doc(dump: T -> Bytes, load: Bytes -> Option<T>)

  predicate ReadsBack<T(==)>(doc: Doc<T>, v: T) {
    doc.load(doc.dump(v)) == Some(v)
  }

  ghost predicate Faithful<T(!new)>(doc: Doc<T>) {
    forall v: T :: ReadsBack(doc, v)
  }

  /**
    The files of the private directory. A name stands for the file name the program builds:
    two names are the same file exactly when they are equal.
   */
  datatype Name =
    | RawFile(title: string)
    | StageFile(key: string, index: nat)
    | JournalFile(key: string)
    | ProgressFile(title: string)
    | LinkFile(title: string)
    | TickFile(title: string)
    | SegmentFile(path: string)
    | SegmentProgressFile(title: string)

  predicate IsRawName(n: Name) {
    n.RawFile? || n.StageFile?
  }

  type Disk = map<Name, Bytes>

  datatype Lock = SegmentLock | StepLock | TickLock

  /** The private directory: its files and the lock files that exist in it. */
  class Store {
    var files: Disk
    var locks: set<Lock>

    constructor (files: Disk)
      ensures this.files == files && this.locks == {}
    {
      this.files := files;
      this.locks := {};
    }
  }
}
