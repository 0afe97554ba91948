/** Files of fixed-size blocks, and the hash buckets of a shadow file's index as blocks. */
module CfStore {
  // ---------------------------------------------------------------- files

  type File<T> = seq<seq<T>>

  /** A block as it is read; blocks past the end are holes. */
  function BlockOf<T>(f: File<T>, no: nat, zero: seq<T>): seq<T> {
    if no < |f| then f[no] else zero
  }

  function Splice<T>(b: seq<T>, off: nat, data: seq<T>): seq<T> {
    if off + |data| <= |b| then b[..off] + data + b[off + |data|..] else b
  }

  /** The file after writing data at offset off of block no; holes before it are zero. */
  function WriteAt<T>(f: File<T>, no: nat, off: nat, data: seq<T>, zero: seq<T>): (r: File<T>)
    ensures |r| == if no < |f| then |f| else no + 1
    ensures r[no] == Splice(BlockOf(f, no, zero), off, data)
    ensures forall i :: 0 <= i < |r| && i != no ==> r[i] == BlockOf(f, i, zero)
  {
    seq(if no < |f| then |f| else no + 1,
        i requires 0 <= i => if i == no then Splice(BlockOf(f, no, zero), off, data) else BlockOf(f, i, zero))
  }

  ghost predicate FileOk<T>(f: File<T>, size: nat) {
    forall i :: 0 <= i < |f| ==> |f[i]| == size
  }

  lemma WriteOk<T>(f: File<T>, no: nat, off: nat, data: seq<T>, zero: seq<T>, size: nat)
    requires FileOk(f, size) && |zero| == size && off + |data| <= size
    ensures FileOk(WriteAt(f, no, off, data, zero), size)
  {
  }

  // ---------------------------------------------------------------- buckets

  const HASH_BUCKET := 15
  const HASH_WORDS := 32   // a bucket is 32 words of 8 bytes
  const HASH_SIZE := 199
  const FIRST_BUCKET := 8  // one block of header and seven for the hash array come before

  // no and vno pair original with shadow block numbers; a free slot has vno 0.
  datatype Bucket = Bucket(no: seq<int>, vno: seq<int>, number: int, next: int)

  function Encode(b: Bucket): seq<int> {
    b.no + b.vno + [b.number, b.next]
  }

  function Decode(w: seq<int>): Bucket
    requires |w| == HASH_WORDS
  {
    Bucket(w[..HASH_BUCKET], w[HASH_BUCKET..2 * HASH_BUCKET], w[2 * HASH_BUCKET], w[2 * HASH_BUCKET + 1])
  }

  ghost predicate Sized(b: Bucket) {
    |b.no| == |b.vno| == HASH_BUCKET
  }

  /** A bucket read back is the bucket written. */
  lemma DecodeEncode(b: Bucket)
    requires Sized(b)
    ensures |Encode(b)| == HASH_WORDS && Decode(Encode(b)) == b
  {
    var w := Encode(b);
    assert w[..HASH_BUCKET] == b.no && w[HASH_BUCKET..2 * HASH_BUCKET] == b.vno;
  }

  /** Where the parts of a bucket are in its block. */
  lemma BucketLayout(b: Bucket)
    requires Sized(b)
    ensures |Encode(b)| == 32 && Encode(b)[30] == b.number && Encode(b)[31] == b.next
    ensures forall i :: 0 <= i < 15 ==> Encode(b)[i] == b.no[i] && Encode(b)[15 + i] == b.vno[i]
  {
  }

  function ZeroWords(): seq<int> {
    seq(HASH_WORDS, i => 0)
  }

  function EmptyBucket(number: int): Bucket {
    Bucket(seq(HASH_BUCKET, i => 0), seq(HASH_BUCKET, i => 0), number, 0)
  }

  /** Used slots come before free ones. */
  ghost predicate Packed(b: Bucket) {
    Sized(b) && forall i, j :: 0 <= i < j < HASH_BUCKET && b.vno[j] != 0 ==> b.vno[i] != 0
  }

  /** Slot i pairs the original block no with a shadow block. */
  ghost predicate Pairs(b: Bucket, i: int, no: int) {
    Sized(b) && 0 <= i < HASH_BUCKET && b.vno[i] != 0 && b.no[i] == no
  }

  ghost predicate HasNo(b: Bucket, no: int) {
    exists i :: Pairs(b, i, no)
  }

  /** The slot of no in a bucket, or -1. */
  method FindSlot(b: Bucket, no: int) returns (r: int)
    requires Packed(b)
    ensures r != -1 ==> Pairs(b, r, no)
    ensures r == -1 ==> !HasNo(b, no)
  {
    var i := 0;
    while i < HASH_BUCKET && b.vno[i] != 0
      invariant 0 <= i <= HASH_BUCKET
      invariant forall k :: 0 <= k < i ==> b.no[k] != no
    {
      if b.no[i] == no {
        return i;
      }
      i := i + 1;
    }
    return -1;
  }

  /** The first free slot of a bucket, or -1. */
  method FreeSlot(b: Bucket) returns (r: int)
    requires Packed(b)
    ensures r != -1 ==> 0 <= r < HASH_BUCKET && b.vno[r] == 0 && forall k :: 0 <= k < r ==> b.vno[k] != 0
    ensures r == -1 ==> forall k :: 0 <= k < HASH_BUCKET ==> b.vno[k] != 0
  {
    var i := 0;
    while i < HASH_BUCKET
      invariant 0 <= i <= HASH_BUCKET
      invariant forall k :: 0 <= k < i ==> b.vno[k] != 0
    {
      if b.vno[i] == 0 {
        return i;
      }
      i := i + 1;
    }
    return -1;
  }
}
