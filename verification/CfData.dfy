/** What is read through a shadow file: the latest value of each byte. */
module CfData {
  import opened CfStore
  import opened CfFlat

  // Byte i of block no.
  type Bytes = map<(int, int), int>

  /** The block no as it is read through the shadow; empty when it exists nowhere. */
  function ViewOf(vmap: map<int, int>, blocks: File<int>, rmf: File<int>, no: int): seq<int> {
    if no in vmap then (if 0 <= vmap[no] < |blocks| then blocks[vmap[no]] else [])
    else if 0 <= no < |rmf| then rmf[no] else []
  }

  ghost predicate Shadowed(vmap: map<int, int>, blocks: File<int>) {
    forall no :: no in vmap ==> 0 <= vmap[no] < |blocks|
  }

  /** Every byte with a value reads as its latest value. */
  ghost predicate LatestOk(latest: Bytes, vmap: map<int, int>, blocks: File<int>, rmf: File<int>) {
    forall no, i :: (no, i) in latest ==> ByteOk(ViewOf(vmap, blocks, rmf, no), i, latest[(no, i)])
  }

  ghost predicate ByteOk(view: seq<int>, i: int, b: int) {
    0 <= i < |view| && view[i] == b
  }

  /** The bytes of the register file. */
  ghost function BytesOf(rmf: File<int>, size: nat): Bytes {
    map no, i | 0 <= no < |rmf| && 0 <= i < size :: (no, i) := if i < |rmf[no]| then rmf[no][i] else 0
  }

  /** The latest bytes after data is written at offset off of block no. */
  ghost function Written(latest: Bytes, no: int, off: int, data: seq<int>): Bytes {
    latest + (map i | off <= i < off + |data| :: (no, i) := data[i - off])
  }

  lemma WrittenAt(latest: Bytes, no: int, off: int, data: seq<int>, k: int, i: int)
    ensures (k, i) in Written(latest, no, off, data) <==> (k, i) in latest || (k == no && off <= i < off + |data|)
    ensures k == no && off <= i < off + |data| ==> Written(latest, no, off, data)[(k, i)] == data[i - off]
    ensures (k, i) in latest && !(k == no && off <= i < off + |data|) ==>
      Written(latest, no, off, data)[(k, i)] == latest[(k, i)]
  {
  }

  lemma StartLatest(rmf: File<int>, size: nat)
    requires FileOk(rmf, size)
    ensures LatestOk(BytesOf(rmf, size), map[], [], rmf)
  {
  }

  /** Writing to a block that has a shadow changes that shadow only. */
  lemma WriteMapped(latest: Bytes, vmap: map<int, int>, blocks: File<int>, rmf: File<int>, nextBlock: nat, size: nat,
                    no: int, off: nat, data: seq<int>, zero: seq<int>)
    requires LatestOk(latest, vmap, blocks, rmf) && MapOk(vmap, nextBlock) && Shadowed(vmap, blocks)
    requires FileOk(blocks, size)
    requires no in vmap && off + |data| <= size
    ensures var blocks' := WriteAt(blocks, vmap[no], off, data, zero);
      && LatestOk(Written(latest, no, off, data), vmap, blocks', rmf) && Shadowed(vmap, blocks')
      && FileOk(blocks', size)
  {
    var blocks' := WriteAt(blocks, vmap[no], off, data, zero);
    forall k, i | (k, i) in Written(latest, no, off, data)
      ensures ByteOk(ViewOf(vmap, blocks', rmf, k), i, Written(latest, no, off, data)[(k, i)])
    {
      WrittenAt(latest, no, off, data, k, i);
      if (k, i) in latest { assert ByteOk(ViewOf(vmap, blocks, rmf, k), i, latest[(k, i)]); }
    }
  }

  /** The first write to a block puts its whole new contents in a new shadow block. */
  lemma WriteNew(latest: Bytes, vmap: map<int, int>, blocks: File<int>, rmf: File<int>, nextBlock: nat, size: nat,
                 no: int, off: nat, data: seq<int>, old_: seq<int>, zero: seq<int>)
    requires LatestOk(latest, vmap, blocks, rmf) && MapOk(vmap, nextBlock) && Shadowed(vmap, blocks)
    requires FileOk(blocks, size)
    requires no !in vmap && no >= 0 && off + |data| <= size == |old_| == |zero|
    requires FileOk(rmf, size)
    requires no < |rmf| ==> old_ == rmf[no] || |data| == size
    requires no !in vmap && forall k :: k in vmap ==> vmap[k] != nextBlock
    ensures var whole := Splice(old_, off, data);
      var blocks', vmap' := WriteAt(blocks, nextBlock, 0, whole, zero), vmap[no := nextBlock];
      && LatestOk(Written(latest, no, off, data), vmap', blocks', rmf) && Shadowed(vmap', blocks')
      && FileOk(blocks', size)
  {
    var whole := Splice(old_, off, data);
    var blocks', vmap' := WriteAt(blocks, nextBlock, 0, whole, zero), vmap[no := nextBlock];
    WriteOk(blocks, nextBlock, 0, whole, zero, size);
    NewBlocks(blocks, nextBlock, whole, zero, size);
    hide MapOk;
    forall k, i | (k, i) in Written(latest, no, off, data)
      ensures ByteOk(ViewOf(vmap', blocks', rmf, k), i, Written(latest, no, off, data)[(k, i)])
    {
      WrittenAt(latest, no, off, data, k, i);
      if (k, i) in latest { assert ByteOk(ViewOf(vmap, blocks, rmf, k), i, latest[(k, i)]); }
      if k == no { NewByte(if no < |rmf| then rmf[no] else [], old_, off, data, i, latest, no, size); }
      else { OldView(vmap, blocks, vmap', blocks', rmf, k, no, nextBlock); }
    }
  }

  lemma NewBlocks(blocks: File<int>, vno: nat, whole: seq<int>, zero: seq<int>, size: nat)
    requires |whole| == |zero| == size && FileOk(blocks, size)
    ensures var blocks' := WriteAt(blocks, vno, 0, whole, zero);
      && vno < |blocks'| && blocks'[vno] == whole && |blocks| <= |blocks'|
      && forall i :: 0 <= i < |blocks| && i != vno ==> blocks'[i] == blocks[i]
  {
    assert Splice(BlockOf(blocks, vno, zero), 0, whole) == whole;
  }

  lemma OldView(vmap: map<int, int>, blocks: File<int>, vmap': map<int, int>, blocks': File<int>, rmf: File<int>,
                k: int, no: int, vno: nat)
    requires k != no && vmap' == vmap[no := vno] && Shadowed(vmap, blocks) && |blocks| <= |blocks'|
    requires (k in vmap ==> vmap[k] != vno)
    requires forall i :: 0 <= i < |blocks| && i != vno ==> blocks'[i] == blocks[i]
    ensures ViewOf(vmap', blocks', rmf, k) == ViewOf(vmap, blocks, rmf, k)
  {
  }

  lemma NewByte(below: seq<int>, old_: seq<int>, off: nat, data: seq<int>, i: int, latest: Bytes, no: int, size: nat)
    requires off + |data| <= size == |old_| && (below != [] ==> old_ == below || |data| == size)
    requires (no, i) in Written(latest, no, off, data)
    requires (no, i) in latest ==> ByteOk(below, i, latest[(no, i)])
    requires |below| <= size
    ensures ByteOk(Splice(old_, off, data), i, Written(latest, no, off, data)[(no, i)])
  {
    WrittenAt(latest, no, off, data, no, i);
  }
}
