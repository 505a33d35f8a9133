/** Buffers over pooled byte arrays, and who owns which array. */
module Buffers {
  import opened Bytes

  const SIZE: nat := 8192  // capacity of a regular buffer

  function Min(a: nat, b: nat): nat { if a < b then a else b }

  /** Who a backing store belongs to: nobody known here, one pool, or one buffer. */
  datatype Holder = Nobody | InPool(i: nat) | HeldBy(b: Buffer)

  /** A backing byte array: an object of fixed capacity whose cells are overwritten in place. */
  class Block {
    var cells: seq<byte>
    ghost var holder: Holder

    constructor (capacity: nat)
      ensures |cells| == capacity && holder == Nobody
    {
      cells, holder := seq(capacity, _ => 0), Nobody;
    }
  }

  /** A window [start, end) on the first `vlen` cells of a backing array; released buffers have none. */
  class Buffer {
    var v: Block?
    var vlen: nat
    var start: nat
    var end: nat
    var unmanaged: bool
    ghost var content: Chunk  // the bytes in the window

    ghost predicate Valid()
      reads this, v
    {
      && |content| == end - start
      && if v == null then vlen == start == end == 0
         else
           start <= end <= vlen <= |v.cells| && vlen < 0x8000_0000 && forall i :: Shows(i)
    }

    /** The i-th byte of the content is in its place. */
    ghost predicate Shows(i: int)
      reads this, v
    {
      v != null && 0 <= i < |content| && start + i < |v.cells| ==> content[i] == v.cells[start + i]
    }

    lemma ContentIs()
      requires Valid() && v != null
      ensures content == v.cells[start..end]
    {
      forall i | 0 <= i < |content| ensures content[i] == v.cells[start + i] {
        assert Shows(i);
      }
    }

    lemma ContentShows()
      requires v != null && start <= end <= |v.cells| && content == v.cells[start..end]
      ensures forall i :: Shows(i)
    {
    }

    constructor (v: Block, vlen: nat, end: nat, unmanaged: bool)
      requires end <= vlen <= |v.cells| && vlen < 0x8000_0000
      ensures Valid() && this.v == v && this.vlen == vlen && start == 0 && this.end == end
      ensures this.unmanaged == unmanaged && content == v.cells[..end]
    {
      this.v, this.vlen, this.start, this.end, this.unmanaged := v, vlen, 0, end, unmanaged;
      content := v.cells[..end];
      new;
      assert content == v.cells[start..this.end];
      ContentShows();
    }

    function Len(): int
      reads this
    {
      end - start
    }

    predicate IsFull()
      reads this
    {
      end == vlen
    }

    /** Buffer.Bytes. */
    function Bytes(): (s: seq<byte>)
      requires Valid()
      reads this, v
      ensures s == content
    {
      if v == null then [] else
        ContentIs();
        v.cells[start..end]
    }

    method Clear()
      requires Valid()
      modifies this
      ensures Valid() && v == old(v) && vlen == old(vlen) && unmanaged == old(unmanaged)
      ensures start == end == 0 && content == []
    {
      start, end := 0, 0;
      content := [];
      assert forall i :: Shows(i);
    }

    /** Copies as much of `data` as there is room for behind the content. */
    method Write(data: seq<byte>) returns (n: nat)
      requires Valid()
      modifies this, v
      ensures Valid() && v == old(v) && vlen == old(vlen) && start == old(start) && unmanaged == old(unmanaged)
      ensures n == Min(|data|, old(vlen - end)) && end == old(end) + n
      ensures content == old(content) + data[..n]
      ensures v != null ==> |v.cells| == old(|v.cells|) && v.holder == old(v.holder)
    {
      n := Min(|data|, vlen - end);
      if n > 0 {
        ContentIs();
        v.cells := v.cells[..end] + data[..n] + v.cells[end + n..];
        end := end + n;
        content := content + data[..n];
        assert content == v.cells[start..end];
        ContentShows();
      }
    }

    /** Takes up to `max` bytes off the front; an emptied buffer restarts at the array's beginning. */
    method Read(max: nat) returns (out: seq<byte>, eof: bool)
      requires Valid()
      modifies this
      ensures Valid() && v == old(v) && vlen == old(vlen) && unmanaged == old(unmanaged)
      ensures |out| == Min(max, |old(content)|) && (eof <==> old(content) == [])
      ensures if |out| == old(end - start) && !eof then start == end == 0
              else end == old(end) && start == old(start) + |out|
      ensures old(content) == out + content
    {
      if end - start == 0 { return [], true; }
      var n := Min(max, end - start);
      ContentIs();
      out, eof := v.cells[start..start + n], false;
      FrontOfSlice(v.cells, start, end, n);
      if n == end - start {
        Clear();
      } else {
        start := start + n;
        content := v.cells[start..end];
        ContentShows();
      }
    }

    /** Buffer.ReadFrom with another buffer as the reader. */
    method ReadFromBuffer(other: Buffer) returns (n: nat, eof: bool)
      requires Valid() && other.Valid() && other != this && (v == null || v != other.v)
      modifies this, v, other
      ensures Valid() && v == old(v) && vlen == old(vlen) && start == old(start) && unmanaged == old(unmanaged)
      ensures other.Valid() && other.v == old(other.v) && other.vlen == old(other.vlen)
      ensures other.unmanaged == old(other.unmanaged)
      ensures v != null ==> |v.cells| == old(|v.cells|) && v.holder == old(v.holder)
      ensures eof <==> old(other.content) == []
      ensures n == Min(old(vlen - end), |old(other.content)|) && end == old(end) + n
      ensures content == old(content) + old(other.content)[..n]
      ensures old(other.content) == old(other.content)[..n] + other.content
    {
      var out;
      ghost var c := other.content;
      out, eof := other.Read(vlen - end);
      n := Write(out);
      assert n == |out| && out[..n] == out && c[..n] == out;
    }

    /** Advance by a count from the front, or to a negative position from the back. The position is a 32-bit
        sum: where it overflows, the window starts at the array's beginning and shows consumed bytes again. */
    method Advance(from: int)
      requires Valid() && -0x8000_0000 <= from < 0x8000_0000
      modifies this
      ensures Valid() && v == old(v) && vlen == old(vlen) && end == old(end) && unmanaged == old(unmanaged)
      ensures 0 <= from ==> start == if old(start) + from >= 0x8000_0000 then 0 else Min(old(start) + from, end)
      ensures from < 0 ==> start == if old(end) + from < 0 then 0 else old(end) + from
      ensures old(start) <= start ==> content == old(content)[start - old(start)..]
    {
      var f := if from < 0 then from + (end - start) else from;
      if start + f >= 0x8000_0000 { Int32Exact(start + f); }
      var s := Int32(start + f);
      if s < 0 { s := 0; }
      if s > end { s := end; }
      if v == null { return; }
      ghost var c, k := content, s - start;
      ContentIs();
      start := s;
      content := v.cells[s..end];
      ContentShows();
      assert k >= 0 ==> content == c[k..];
    }

    /** Resize to the window [from, to) of the content, negative positions counting from the back; an end that
        overflows leaves an empty window. */
    method Resize(from: int, to: int) returns (panicked: bool)
      requires Valid() && -0x8000_0000 <= from < 0x8000_0000 && -0x8000_0000 <= to < 0x8000_0000
      modifies this
      ensures v == old(v) && vlen == old(vlen) && unmanaged == old(unmanaged)
      ensures var n := old(end - start);
              var f, t := if from < 0 then from + n else from, if to < 0 then to + n else to;
              && panicked == (t < f)
              && (panicked ==> start == old(start) && end == old(end) && content == old(content))
              && (!panicked && v != null ==> (Valid() <==> old(start) + t <= vlen || old(start) + t >= 0x8000_0000))
              && (!panicked && 0 <= f <= t <= n ==> Valid() && start == old(start) + f && end == old(start) + t)
    {
      var n := end - start;
      var f, t := if from < 0 then from + n else from, if to < 0 then to + n else to;
      if t < f { return true; }
      if start + t >= 0x8000_0000 { Int32Exact(start + t); }
      if start + f >= 0x8000_0000 { Int32Exact(start + f); }
      var e, s := Int32(start + t), Int32(start + f);
      if s < 0 { s := 0; }
      if e < 0 { e := 0; }
      if s > e { s := e; }
      start, end := s, e;
      panicked := false;
      if v == null || e > |v.cells| {
        content := [];
      } else {
        content := v.cells[s..e];
        ContentShows();
      }
    }
  }

  // ----- the byte pools -----

  const NUM_POOLS: nat := 4

  /** 2048, 8192, 32768, 131072: each class four times the one before. */
  function PoolSize(i: nat): (size: nat)
    ensures size >= 2048
  {
    if i == 0 then 2048 else 4 * PoolSize(i - 1)
  }

  lemma {:induction false} PoolSizesGrow(i: nat, j: nat)
    requires i < j
    ensures PoolSize(i) < PoolSize(j)
  {
    if i < j - 1 { PoolSizesGrow(i, j - 1); }
  }

  /** The pools, with the set of buffers that hold a backing array. */
  class Pools {
    var pools: seq<set<Block>>
    ghost var live: set<Buffer>
    ghost var repr: set<object>  // everything buffer operations may touch; it only grows

    /** A live buffer is the one holder of its array, a pool the one holder of each array in it, and a
        pooled array is at least as long as its pool promises. */
    ghost predicate Owned()
      reads this, repr
    {
      && this in repr && |pools| == NUM_POOLS
      && (forall b :: b in live ==> b in repr && b.v != null && b.v in repr && b.Valid() && b.v.holder == HeldBy(b))
      && (forall i, k: Block :: 0 <= i < NUM_POOLS && k in pools[i] ==>
            k in repr && k.holder == InPool(i) && PoolSize(i) <= |k.cells|)
    }

    /** So no two live buffers, no two pools, and no buffer and pool ever share an array. */
    lemma OwnersAreExclusive()
      requires Owned()
      ensures forall b, c :: b in live && c in live && b.v == c.v ==> b == c
      ensures forall i, j, k: Block ::
                0 <= i < NUM_POOLS && 0 <= j < NUM_POOLS && k in pools[i] && k in pools[j] ==> i == j
      ensures forall b, i :: b in live && 0 <= i < NUM_POOLS ==> b.v !in pools[i]
    {
      forall i, j, k: Block | 0 <= i < NUM_POOLS && 0 <= j < NUM_POOLS && k in pools[i] && k in pools[j]
        ensures i == j
      {
        assert k.holder == InPool(i) && k.holder == InPool(j);
      }
    }

    constructor ()
      ensures Owned() && live == {} && repr == {this} && forall i :: 0 <= i < NUM_POOLS ==> pools[i] == {}
    {
      pools, live, repr := [{}, {}, {}, {}], {}, {this};
    }

    /** The first pool whose arrays are long enough, if any. */
    method GetPool(size: nat) returns (pool: Option<nat>)
      ensures pool.Some? ==> pool.value < NUM_POOLS && size <= PoolSize(pool.value)
      ensures pool.Some? ==> forall i :: 0 <= i < pool.value ==> PoolSize(i) < size
      ensures pool.None? <==> size > PoolSize(NUM_POOLS - 1)
      ensures pool == if size <= 2048 then Some(0) else if size <= 8192 then Some(1)
                      else if size <= 32768 then Some(2) else if size <= 131072 then Some(3) else None
    {
      assert PoolSize(1) == 8192 && PoolSize(2) == 32768 && PoolSize(3) == 131072;
      for idx := 0 to NUM_POOLS
        invariant forall i :: 0 <= i < idx ==> PoolSize(i) < size
      {
        if size <= PoolSize(idx) {
          if idx < NUM_POOLS - 1 { PoolSizesGrow(idx, NUM_POOLS - 1); }
          return Some(idx);
        }
      }
      return None;
    }

    /** sync.Pool.Get: some array of the pool, or a new one; which is not determined. */
    method Get(pool: nat) returns (arr: Block)
      requires Owned() && pool < NUM_POOLS
      modifies this, pools[pool]
      ensures Owned() && arr.holder == Nobody && arr in repr && |arr.cells| >= PoolSize(pool)
      ensures live == old(live) && old(repr) <= repr && fresh(repr - old(repr))
      ensures arr in old(pools)[pool] || fresh(arr)
    {
      var reuse: bool :| true;
      if reuse && pools[pool] != {} {
        arr :| arr in pools[pool];
        arr.holder := Nobody;
        pools := pools[pool := pools[pool] - {arr}];
      } else {
        arr := new Block(PoolSize(pool));
        repr := repr + {arr};
      }
    }

    method Put(pool: nat, arr: Block)
      requires Owned() && pool < NUM_POOLS && |arr.cells| >= PoolSize(pool) && arr.holder == Nobody && arr in repr
      modifies this, arr
      ensures Owned() && live == old(live) && repr == old(repr)
      ensures arr.holder == InPool(pool) && arr.cells == old(arr.cells)
      ensures pools == old(pools)[pool := old(pools)[pool] + {arr}]
    {
      arr.holder := InPool(pool);
      pools := pools[pool := pools[pool] + {arr}];
    }

    /** bytespool.Alloc: an array of at least the size asked for, held by nobody else. */
    method Alloc(size: nat) returns (arr: Block)
      requires Owned()
      modifies this, repr
      ensures Owned() && arr.holder == Nobody && |arr.cells| >= size && live == old(live)
      ensures old(repr) <= repr && fresh(repr - old(repr)) && (arr in repr || fresh(arr))
    {
      var p := GetPool(size);
      if p.Some? {
        arr := Get(p.value);
      } else {
        arr := new Block(size);
      }
    }

    /** bytespool.Free: the array goes to the largest pool it can serve by its capacity, read as a 32-bit
        integer; too short ones, and those whose capacity does not fit, to none. */
    method Free(arr: Block)
      requires Owned() && arr.holder == Nobody
      modifies this, arr
      ensures Owned() && live == old(live)
      ensures var size := Int32(|arr.cells|);
              && (size < PoolSize(0) ==> pools == old(pools) && arr.holder == Nobody)
              && (size >= PoolSize(0) ==>
                    exists i :: 0 <= i < NUM_POOLS && arr.holder == InPool(i) && PoolSize(i) <= size
                      && pools == old(pools)[i := old(pools)[i] + {arr}]
                      && forall k :: i < k < NUM_POOLS ==> size < PoolSize(k))
    {
      var size := Int32(|arr.cells|);
      Int32Exact(|arr.cells|);
      var i := NUM_POOLS;
      while i > 0
        invariant 0 <= i <= NUM_POOLS
        invariant forall k :: i <= k < NUM_POOLS ==> size < PoolSize(k)
        invariant Owned() && pools == old(pools) && live == old(live) && unchanged(arr)
      {
        i := i - 1;
        if size >= PoolSize(i) {
          repr := repr + {arr};
          Put(i, arr);
          if i > 0 { PoolSizesGrow(0, i); }
          return;
        }
      }
    }

    // ----- making and releasing buffers -----

    /** A new buffer object over an array nobody holds. */
    method Wrap(arr: Block, vlen: nat, end: nat, unmanaged: bool) returns (b: Buffer)
      requires Owned() && arr.holder == Nobody && end <= vlen <= |arr.cells| && vlen < 0x8000_0000
      modifies this, arr
      ensures Owned() && fresh(b) && live == old(live) + {b} && pools == old(pools) && repr == old(repr) + {b, arr}
      ensures b.v == arr && arr.cells == old(arr.cells)
      ensures b.vlen == vlen && b.start == 0 && b.end == end && b.unmanaged == unmanaged
      ensures b.content == arr.cells[..end]
    {
      b := new Buffer(arr, vlen, end, unmanaged);
      arr.holder := HeldBy(b);
      live, repr := live + {b}, repr + {b, arr};
    }

    /** buf.New: an empty buffer of SIZE bytes. */
    method New() returns (b: Buffer)
      requires Owned()
      modifies this, pools[1]
      ensures Owned() && fresh(b) && live == old(live) + {b}
      ensures fresh(repr - old(repr)) && old(repr) <= repr
      ensures b.vlen == SIZE && b.start == b.end == 0 && !b.unmanaged && b.content == []
    {
      var arr := Get(1);
      assert PoolSize(1) == SIZE;
      b := Wrap(arr, SIZE, 0, false);
    }

    /** buf.NewExisted: takes over an array its caller holds; its first `oLen` bytes are the content. */
    method NewExisted(arr: Block, oLen: nat) returns (b: Option<Buffer>)
      requires Owned() && arr.holder == Nobody && oLen <= |arr.cells| < 0x8000_0000
      modifies this, arr
      ensures Owned() && pools == old(pools) && arr.cells == old(arr.cells)
      ensures b.None? <==> |arr.cells| < SIZE
      ensures b.None? ==> live == old(live) && repr == old(repr)
      ensures b.Some? ==> fresh(b.value) && live == old(live) + {b.value} && repr == old(repr) + {b.value, arr}
                          && b.value.v == arr && b.value.content == arr.cells[..oLen]
                          && b.value.vlen == (if oLen < SIZE then SIZE else oLen) && !b.value.unmanaged
    {
      if |arr.cells| < SIZE { return None; }
      var c := Wrap(arr, if oLen < SIZE then SIZE else oLen, oLen, false);
      b := Some(c);
    }

    /** buf.FromBytes: wraps an array that stays its caller's; it never enters a pool. */
    method FromBytes(arr: Block) returns (b: Buffer)
      requires Owned() && arr.holder == Nobody && |arr.cells| < 0x8000_0000
      modifies this, arr
      ensures Owned() && pools == old(pools)
      ensures fresh(b) && live == old(live) + {b} && repr == old(repr) + {b, arr}
      ensures b.v == arr && b.content == arr.cells == old(arr.cells) && b.unmanaged
      ensures b.start == 0 && b.end == b.vlen == |arr.cells|
    {
      b := Wrap(arr, |arr.cells|, |arr.cells|, true);
    }

    /** Buffer.Release: a managed array of exactly SIZE bytes goes back to the pool, and only once:
        releasing nil, a released or an unmanaged buffer does nothing. */
    method Release(b: Buffer?)
      requires Owned() && (b != null ==> b.Valid() && (b.v != null ==> b in live))
      modifies this, b, if b == null then null else b.v
      ensures Owned() && repr == old(repr) && (b != null ==> b.Valid())
      ensures b == null || old(b.v) == null || old(b.unmanaged) ==>
                live == old(live) && pools == old(pools) && (b != null ==> unchanged(b))
      ensures b != null && old(b.v) != null && !old(b.unmanaged) ==>
                && live == old(live) - {b} && b.v == null
                && old(b.v).holder == (if |old(b.v).cells| == SIZE then InPool(1) else Nobody)
    {
      if b == null || b.v == null || b.unmanaged { return; }
      var p := Detach(b);
      if |p.cells| == SIZE {
        assert PoolSize(1) == SIZE;
        Put(1, p);
      }
    }

    /** The buffer lets go of its array. */
    method Detach(b: Buffer) returns (arr: Block)
      requires Owned() && b in live
      modifies this, b, b.v
      ensures Owned() && repr == old(repr) && pools == old(pools) && live == old(live) - {b}
      ensures b.Valid() && b.v == null && arr == old(b.v) && arr.holder == Nobody && arr.cells == old(b.v.cells)
    {
      arr := b.v;
      live := live - {b};
      b.v, b.vlen, b.start, b.end, b.content := null, 0, 0, 0, [];
      arr.holder := Nobody;
    }

    // ----- one live buffer -----

    /** Buffer.Read on a live buffer. */
    method ReadOff(b: Buffer, max: nat) returns (out: seq<byte>)
      requires Owned() && b in live
      modifies b
      ensures Owned() && b.v == old(b.v) && b.unmanaged == old(b.unmanaged)
      ensures |out| == Min(max, |old(b.content)|) && b.vlen == old(b.vlen)
      ensures old(b.content) == out + b.content && (b.content != [] ==> b.end == old(b.end))
    {
      var eof;
      out, eof := b.Read(max);
    }

    /** Buffer.Advance within the content of a live buffer. */
    method AdvanceBy(b: Buffer, k: nat)
      requires Owned() && b in live && k <= b.end - b.start
      modifies b
      ensures Owned() && b.v == old(b.v) && b.unmanaged == old(b.unmanaged)
      ensures old(b.content) == old(b.content)[..k] + b.content
    {
      ghost var c := b.content;
      b.Advance(k);
      assert c == c[..k] + c[k..];
    }

    /** Declares the first `end` cells of an untouched live buffer its content. */
    method SetEnd(b: Buffer, end: nat)
      requires Owned() && b in live && b.start == 0 && end <= b.vlen
      modifies b
      ensures Owned() && b.v == old(b.v) && b.v != null && b.content == b.v.cells[..end]
    {
      b.end := end;
      b.content := b.v.cells[..end];
      assert b.content == b.v.cells[b.start..b.end];
      b.ContentShows();
    }

    /** Buffer.Write on a live buffer. */
    method WriteTo(b: Buffer, data: seq<byte>) returns (n: nat)
      requires Owned() && b in live
      modifies b, b.v
      ensures Owned() && b.v == old(b.v) && b.vlen == old(b.vlen)
      ensures b.start == old(b.start) && b.unmanaged == old(b.unmanaged)
      ensures n == Min(|data|, old(b.vlen - b.end)) && b.end == old(b.end) + n
      ensures b.content == old(b.content) + data[..n]
    {
      n := b.Write(data);
    }
  }
}
