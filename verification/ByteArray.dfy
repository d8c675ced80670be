/** The chunked byte buffer: a singly linked list of equal chunks with a cached
    cursor, presented as one flat byte sequence with a read/write head. */
module Buffers {
  import opened Basics

  /** One chunk of the list. */
  class Node {
    const ptr: array<byte>
    const size: nat
    var next: Node?

    constructor (s: nat)
      ensures size == s && ptr.Length == s && next == null && fresh(ptr)
    {
      ptr := new byte[s];
      size := s;
      next := null;
    }
  }

  /** What a read does: hand over a value, throw std::out_of_range, or follow a null pointer. */
  datatype Outcome<+T> = Ok(value: T) | OutOfRange | NullCursor

  /** An iovec: `len` bytes of a chunk's storage from `off` on. */
  datatype Slice = Slice(base: array<byte>, off: nat, len: nat)

  /** Storing one byte at `p` of a flat byte sequence, which grows when `p` is its end. */
  function Put(d: seq<byte>, p: nat, x: byte): (r: seq<byte>)
    requires p <= |d|
  {
    if p < |d| then d[p := x] else d + [x]
  }

  /** The flat meaning of a write: store the bytes one by one from `p` on. */
  function Overwrite(d: seq<byte>, p: nat, buf: seq<byte>): (r: seq<byte>)
    requires p <= |d|
    ensures |r| == Max(|d|, p + |buf|)
    decreases |buf|
  {
    if buf == [] then d else Overwrite(Put(d, p, buf[0]), p + 1, buf[1..])
  }

  /** A write replaces exactly [p, p + |buf|) and keeps every other byte. */
  lemma {:induction false} OverwriteIs(d: seq<byte>, p: nat, buf: seq<byte>)
    requires p <= |d|
    ensures Overwrite(d, p, buf) == d[..p] + buf + (if p + |buf| <= |d| then d[p + |buf|..] else [])
    decreases |buf|
  {
    if buf != [] {
      OverwriteIs(Put(d, p, buf[0]), p + 1, buf[1..]);
    }
  }

  /** The capacity after adding chunks of `b` until everything below `need` fits. */
  function Grown(cap: nat, b: nat, need: nat): (r: nat)
    requires b > 0
    ensures need <= r && cap <= r
    decreases need - cap
  {
    if need <= cap then cap else Grown(cap + b, b, need)
  }

  /** Where chunk `k` starts in the flat image. */
  function Start(b: nat, k: nat): nat {
    if k == 0 then 0 else Start(b, k - 1) + b
  }

  lemma StartIsProduct(b: nat, k: nat)
    ensures Start(b, k) == k * b
  {
    if k > 0 {
      StartIsProduct(b, k - 1);
      MulNext(k - 1, b);
    }
  }

  lemma StartMono(b: nat, j: nat, k: nat)
    requires j <= k
    ensures Start(b, j) <= Start(b, k)
    ensures j < k ==> Start(b, j) + b <= Start(b, k)
  {
    if j < k {
      StartMono(b, j, k - 1);
    }
  }

  /** The chunk around a position. */
  function ChunkOf(b: nat, p: nat): (k: nat)
    requires b > 0
    ensures Start(b, k) <= p < Start(b, k) + b
    decreases p
  {
    if p < b then 0 else 1 + ChunkOf(b, p - b)
  }

  /** A chunk that starts at or before a position is not behind a chunk that ends after it. */
  lemma ChunkIs(b: nat, p: nat, i: nat, j: nat)
    requires Start(b, i) <= p
    ensures p < Start(b, j) ==> i < j
    ensures p < Start(b, j) + b ==> i <= j
  {
    if j <= i {
      StartMono(b, j, i);
    }
    if j + 1 <= i {
      StartMono(b, j + 1, i);
    }
  }

  /** The number of chunks addCapacity computes is the number needed. */
  lemma GrownByCount(cap: nat, b: nat, need: nat, count: nat)
    requires b > 0 && cap < need && count == (need - cap + b - 1) / b
    ensures count > 0 && cap + Start(b, count) == Grown(cap, b, need)
    decreases need - cap
  {
    if need <= cap + b {
      DivModUnique(need - cap + b - 1, b, 1, need - cap - 1);
      assert Start(b, 1) == Start(b, 0) + b;
    } else {
      var q := (need - cap - b + b - 1) / b;
      assert need - cap + b - 1 == (q + 1) * b + (need - cap - b + b - 1) % b by {
        MulNext(q, b);
      }
      DivModUnique(need - cap + b - 1, b, q + 1, (need - cap - b + b - 1) % b);
      GrownByCount(cap + b, b, need, q);
    }
  }

  /** The flat image of the chunks. */
  ghost function Flat(image: seq<seq<byte>>): seq<byte> {
    if image == [] then [] else Flat(image[..|image| - 1]) + image[|image| - 1]
  }

  ghost predicate Even(image: seq<seq<byte>>, b: nat) {
    forall k :: 0 <= k < |image| ==> |image[k]| == b
  }

  const SIZE_T: int := 0x1_0000_0000_0000_0000

  /** Chunk `k` is what the flat image holds from its start on. */
  lemma {:induction false} FlatChunk(image: seq<seq<byte>>, b: nat, k: nat)
    requires Even(image, b) && k < |image|
    ensures |Flat(image)| == Start(b, |image|) && Start(b, k) + b <= |Flat(image)|
    ensures Flat(image)[Start(b, k)..Start(b, k) + b] == image[k]
  {
    var front := image[..|image| - 1];
    FlatLength(front, b);
    if k < |front| {
      FlatChunk(front, b, k);
    }
  }

  lemma {:induction false} FlatLength(image: seq<seq<byte>>, b: nat)
    requires Even(image, b)
    ensures |Flat(image)| == Start(b, |image|)
  {
    if image != [] {
      FlatLength(image[..|image| - 1], b);
    }
  }

  /** Writing inside chunk `i` is writing at the corresponding flat position. */
  lemma {:induction false} FlatSplice(image: seq<seq<byte>>, b: nat, i: nat, off: nat, d: seq<byte>)
    requires Even(image, b) && i < |image| && off + |d| <= b
    ensures Start(b, i) + off + |d| <= |Flat(image)|
    ensures Flat(image[i := Splice(image[i], off, d)]) == Splice(Flat(image), Start(b, i) + off, d)
  {
    var front, last := image[..|image| - 1], image[|image| - 1];
    var after := image[i := Splice(image[i], off, d)];
    FlatLength(front, b);
    if i == |front| {
      assert after[..|after| - 1] == front;
      SpliceRight(Flat(front), last, off, d);
    } else {
      assert after[..|after| - 1] == front[i := Splice(image[i], off, d)];
      FlatSplice(front, b, i, off, d);
      SpliceLeft(Flat(front), last, Start(b, i) + off, d);
    }
  }

  method Memcpy(dst: array<byte>, off: nat, src: seq<byte>)
    requires off + |src| <= dst.Length
    modifies dst
    ensures dst[..] == Splice(old(dst[..]), off, src)
  {
    forall i | 0 <= i < |src| {
      dst[off + i] := src[i];
    }
    SpliceIs(old(dst[..]), off, src);
  }

  /** `chain` is a null-terminated list of distinct chunks of `b` bytes holding `image`. */
  ghost predicate Linked(store: set<object>, chain: seq<Node>, image: seq<seq<byte>>, b: nat)
    reads store
  {
    && (forall k {:trigger chain[k]} :: 0 <= k < |chain| ==>
                                          chain[k] in store && chain[k].ptr in store
                                          && chain[k].ptr.Length == chain[k].size == b)
    && (forall k {:trigger chain[k].next} :: 0 <= k < |chain| ==>
                                               chain[k].next == if k + 1 < |chain| then chain[k + 1] else null)
    && (forall j, k {:trigger chain[j], chain[k]} :: 0 <= j < k < |chain| ==>
                                                       chain[j] != chain[k] && chain[j].ptr != chain[k].ptr)
    && |image| == |chain|
    && (forall k {:trigger chain[k]} {:trigger image[k]} :: 0 <= k < |chain| ==> chain[k].ptr[..] == image[k])
  }

  /** The slices for `n` bytes from offset `npos` of chunk `i` on. */
  ghost function SlicesFor(chain: seq<Node>, b: nat, i: nat, npos: nat, n: nat): seq<Slice>
    requires npos < b
    decreases |chain| - i
  {
    if n == 0 || i >= |chain| then []
    else if b - npos >= n then [Slice(chain[i].ptr, npos, n)]
    else [Slice(chain[i].ptr, npos, b - npos)] + SlicesFor(chain, b, i + 1, 0, n - (b - npos))
  }

  lemma FirstSlice(chain: seq<Node>, b: nat, i: nat, npos: nat, n: nat)
    requires i < |chain| && npos < b && n > 0
    ensures var m := Min(n, b - npos);
            SlicesFor(chain, b, i, npos, n) == [Slice(chain[i].ptr, npos, m)] + SlicesFor(chain, b, i + 1, 0, n - m)
    ensures SlicesFor(chain, b, i, npos, n) != []
    ensures SlicesFor(chain, b, i, npos, n)[0] == Slice(chain[i].ptr, npos, Min(n, b - npos))
  {
  }

  ghost predicate InBounds(iovs: seq<Slice>) {
    forall s :: s in iovs ==> s.off + s.len <= s.base.Length
  }

  /** The bytes a gathering send would transmit. */
  ghost function Gather(iovs: seq<Slice>): seq<byte>
    requires InBounds(iovs)
    reads set s | s in iovs :: s.base
  {
    if iovs == [] then []
    else iovs[0].base[iovs[0].off..iovs[0].off + iovs[0].len] + Gather(iovs[1..])
  }

  lemma GatherCons(s: Slice, rest: seq<Slice>)
    requires s.off + s.len <= s.base.Length && InBounds(rest)
    ensures InBounds([s] + rest)
    ensures Gather([s] + rest) == s.base[s.off..s.off + s.len] + Gather(rest)
  {
    assert ([s] + rest)[1..] == rest;
  }

  class ByteArray {
    const baseSize: nat
    var position: nat
    var capacity: nat
    var size: nat
    var littleEndian: bool
    var root: Node
    var cur: Node?
    ghost var chain: seq<Node>
    ghost var image: seq<seq<byte>>
    ghost var index: nat
    ghost var store: set<object>

    /** The chunk list and its flat image. */
    ghost predicate Chunks()
      reads this`store, this`chain, this`image, this`root, this`capacity, store
    {
      && this !in store && baseSize > 0 && |chain| > 0 && root == chain[0]
      && capacity == Start(baseSize, |chain|) == |Flat(image)|
      && Linked(store, chain, image, baseSize)
    }

    /** The cursor is the chunk around the position, and null exactly at the very end. */
    ghost predicate Cursor()
      reads this`position, this`capacity, this`cur, this`index, this`chain
    {
      && position <= capacity
      && (position == capacity ==> cur == null && index == |chain|)
      && (position < capacity ==>
            index < |chain| && cur == chain[index]
            && Start(baseSize, index) <= position < Start(baseSize, index) + baseSize)
    }

    ghost predicate Valid()
      reads this, store
    {
      Chunks() && position <= size <= capacity && Cursor()
    }

    /** All the bytes of the chunks, including those beyond the size. */
    ghost function Contents(): seq<byte>
      reads this`image
    {
      Flat(image)
    }

    /** The logical content. */
    ghost function Data(): seq<byte>
      requires Valid()
      reads this, store
    {
      Contents()[..size]
    }

    /** The unread bytes. */
    ghost function Rest(): seq<byte>
      requires Valid()
      reads this, store
    {
      Data()[position..]
    }

    constructor (base_size: nat)
      requires base_size > 0
      ensures Valid() && fresh(store)
      ensures baseSize == base_size == capacity && position == 0 && Data() == [] && !littleEndian
    {
      baseSize := base_size;
      position, capacity, size := 0, base_size, 0;
      littleEndian := false;
      var n := new Node(base_size);
      root := n;
      cur := n;
      chain, image, index := [n], [n.ptr[..]], 0;
      store := {n, n.ptr};
      new;
      assert Start(baseSize, 1) == Start(baseSize, 0) + baseSize;
    }

    /** The cursor invariant in the source's own arithmetic. */
    lemma CursorIsQuotient()
      requires Valid()
      ensures cur == null <==> position == capacity
      ensures position < capacity ==> 0 <= position / baseSize < |chain| && cur == chain[position / baseSize]
      ensures capacity == |chain| * baseSize
    {
      StartIsProduct(baseSize, |chain|);
      if position < capacity {
        Offset();
      }
    }

    /** The offset a copy loop starts from. */
    lemma Offset()
      requires Chunks() && Cursor() && position < capacity
      ensures position / baseSize == index && position % baseSize == position - Start(baseSize, index)
      ensures Start(baseSize, index) + baseSize <= capacity
    {
      StartIsProduct(baseSize, index);
      DivModUnique(position, baseSize, index, position - Start(baseSize, index));
      StartMono(baseSize, index, |chain|);
    }

    /** Make room: append chunks until `n` bytes fit behind the head. */
    method AddCapacity(n: nat)
      requires Valid()
      modifies this`chain, this`image, this`capacity, this`store, this`cur, store
      ensures Valid() && fresh(store - old(store))
      ensures old(Contents()) <= Contents()
      ensures capacity == Grown(old(capacity), baseSize, position + n)
    {
      if n == 0 {
        return;
      }
      var oldCap := capacity - position;
      if oldCap >= n {
        return;
      }
      var missing := n - oldCap;
      var count := (missing + baseSize - 1) / baseSize;
      GrownByCount(capacity, baseSize, position + n, count);
      var tmp := LastNode();
      var first := AppendChunks(tmp, count);
      if oldCap == 0 {
        cur := first;
      }
    }

    method LastNode() returns (tmp: Node)
      requires Chunks()
      ensures tmp == chain[|chain| - 1]
    {
      tmp := root;
      ghost var at := 0;
      while tmp.next != null
        invariant 0 <= at < |chain| && tmp == chain[at]
        decreases |chain| - at
      {
        tmp := tmp.next;
        at := at + 1;
      }
    }

    /** The growing loop; `first` is the first chunk added. */
    method AppendChunks(tail: Node, count: nat) returns (first: Node?)
      requires Chunks() && tail == chain[|chain| - 1]
      modifies this`chain, this`image, this`capacity, this`store, tail
      ensures Chunks() && fresh(store - old(store))
      ensures old(chain) <= chain && |chain| == |old(chain)| + count && old(Contents()) <= Contents()
      ensures count > 0 ==> first == chain[|old(chain)|]
      ensures capacity == old(capacity) + Start(baseSize, count)
      ensures count > 0 ==> Start(baseSize, |old(chain)|) + baseSize <= capacity
    {
      var tmp := tail;
      first := null;
      var i := 0;
      while i < count
        invariant 0 <= i <= count && |chain| == |old(chain)| + i
        invariant Chunks() && fresh(store - old(store))
        invariant old(chain) <= chain && old(Contents()) <= Contents()
        invariant tmp == chain[|chain| - 1] && (tmp == tail || fresh(tmp))
        invariant if i == 0 then first == null else first == chain[|old(chain)|]
        invariant capacity == old(capacity) + Start(baseSize, i)
      {
        GrowOne(tmp);
        if first == null {
          first := tmp.next;
        }
        tmp := tmp.next;
        i := i + 1;
      }
      StartMono(baseSize, |old(chain)|, |chain|);
    }

    /** One step of the growing loop: link a new chunk behind the last one. */
    method GrowOne(last: Node)
      requires Chunks() && last == chain[|chain| - 1]
      modifies this`chain, this`image, this`capacity, this`store, last
      ensures Chunks() && fresh(store - old(store))
      ensures |chain| == |old(chain)| + 1 && old(chain) <= chain && old(Contents()) <= Contents()
      ensures last.next == chain[|chain| - 1] && fresh(chain[|chain| - 1])
      ensures capacity == old(capacity) + baseSize
    {
      var n := new Node(baseSize);
      last.next := n;
      ghost var image0 := image;
      chain := chain + [n];
      image := image + [n.ptr[..]];
      capacity := capacity + baseSize;
      store := store + {n, n.ptr};
      assert image[..|image| - 1] == image0;
    }

    /** A memcpy into chunk `idx`, and what it does to the flat image. */
    method CopyIn(dst: array<byte>, ghost idx: nat, off: nat, src: seq<byte>)
      requires Chunks() && idx < |chain| && dst == chain[idx].ptr && off + |src| <= baseSize
      modifies this`image, dst
      ensures Chunks()
      ensures Start(baseSize, idx) + off + |src| <= |old(Contents())|
      ensures Contents() == Splice(old(Contents()), Start(baseSize, idx) + off, src)
    {
      FlatSplice(image, baseSize, idx, off, src);
      Memcpy(dst, off, src);
      image := image[idx := Splice(image[idx], off, src)];
    }

    /** Moves the head over `n` bytes of the current chunk, to the next chunk at its end. */
    method Advance(npos: nat, n: nat)
      requires Chunks() && Cursor() && position < capacity
      requires position == Start(baseSize, index) + npos && npos + n <= baseSize
      modifies this`position, this`cur, this`index
      ensures Chunks() && Cursor() && position == old(position) + n
      ensures npos + n == baseSize ==> position == Start(baseSize, index)
      ensures npos + n < baseSize ==> index == old(index)
    {
      StartMono(baseSize, index, |chain|);
      if cur.size == npos + n {
        cur := cur.next;
        index := index + 1;
      }
      position := position + n;
      CursorHere();
    }

    /** Copies `n` more bytes of a write into the current chunk and moves the head behind them. */
    method PutChunk(npos: nat, buf: seq<byte>, bpos: nat, n: nat, ghost c0: seq<byte>, ghost p0: nat)
      requires Chunks() && Cursor() && position < capacity
      requires position == Start(baseSize, index) + npos && npos + n <= baseSize
      requires bpos + n <= |buf| && p0 + |buf| <= |c0|
      requires position == p0 + bpos && Contents() == Splice(c0, p0, buf[..bpos])
      modifies this`image, this`position, this`cur, this`index, cur.ptr
      ensures Chunks() && Cursor() && position == old(position) + n
      ensures npos + n == baseSize ==> position == Start(baseSize, index)
      ensures Contents() == Splice(c0, p0, buf[..bpos + n])
    {
      SpliceExtend(c0, p0, buf, bpos, n);
      CopyIn(cur.ptr, index, npos, buf[bpos..bpos + n]);
      Advance(npos, n);
    }

    /** The copy loop of a write. */
    method PutAll(buf: seq<byte>)
      requires Chunks() && Cursor() && |buf| > 0 && position + |buf| <= capacity
      modifies this`image, this`position, this`cur, this`index, store
      ensures Chunks() && Cursor()
      ensures position == old(position) + |buf|
      ensures Contents() == Splice(old(Contents()), old(position), buf)
    {
      Offset();
      ghost var c0, p0 := Contents(), position;
      var npos := position % baseSize;
      var ncap := cur.size - npos;
      var left, bpos := |buf|, 0;
      while left > 0
        invariant 0 <= bpos <= |buf| && left == |buf| - bpos && position == p0 + bpos
        invariant Chunks() && Cursor()
        invariant Contents() == Splice(c0, p0, buf[..bpos])
        invariant left > 0 ==> 0 <= npos && position == Start(baseSize, index) + npos && ncap == baseSize - npos
        decreases left
      {
        if ncap >= left {
          PutChunk(npos, buf, bpos, left, c0, p0);
          bpos := bpos + left;
          left := 0;
        } else {
          PutChunk(npos, buf, bpos, ncap, c0, p0);
          bpos := bpos + ncap;
          left := left - ncap;
          ncap := cur.size;
          npos := 0;
        }
      }
      assert buf[..bpos] == buf;
    }

    /** The copy of a write for which there is room; `before` is what the chunks held before making it. */
    method Store(buf: seq<byte>, ghost before: seq<byte>)
      requires Valid() && |buf| > 0 && position + |buf| <= capacity
      requires size <= |before| && before <= Contents()
      modifies this`image, this`position, this`cur, this`index, this`size, store
      ensures Valid() && position == old(position) + |buf|
      ensures Data() == Overwrite(before[..old(size)], old(position), buf)
      ensures Overwrite(before, old(position), buf) <= Contents()
    {
      OverwriteIsSplice(before, Contents(), size, position, buf);
      SpliceStores(before, Contents(), position, buf);
      PutAll(buf);
      if position > size {
        size := position;
      }
    }

    /** Overwrites the bytes at the head, making room first. */
    method Write(buf: seq<byte>)
      requires Valid()
      modifies this`chain, this`image, this`capacity, this`store, this`cur, this`index, this`position, this`size, store
      ensures Valid() && fresh(store - old(store))
      ensures position == old(position) + |buf| && capacity == Grown(old(capacity), baseSize, position)
      ensures Data() == Overwrite(old(Data()), old(position), buf)
      ensures Overwrite(old(Contents()), old(position), buf) <= Contents()
    {
      if |buf| == 0 {
        return;
      }
      AddCapacity(|buf|);
      Store(buf, old(Contents()));
    }

    /** The bytes a memcpy out of the current chunk yields. */
    lemma ChunkBytes(node: Node, idx: nat, npos: nat, n: nat)
      requires Chunks() && idx < |chain| && node == chain[idx] && npos + n <= baseSize
      ensures Start(baseSize, idx) + npos + n <= |Contents()|
      ensures node.ptr[npos..npos + n] == Contents()[Start(baseSize, idx) + npos..Start(baseSize, idx) + npos + n]
    {
      FlatChunk(image, baseSize, idx);
      assert node.ptr[npos..npos + n] == image[idx][npos..npos + n];
    }

    /** Copies the next part of a read out of the current chunk and moves the head behind it. */
    method TakeChunk(npos: nat, n: nat) returns (part: seq<byte>)
      requires Chunks() && Cursor() && position < capacity
      requires position == Start(baseSize, index) + npos && npos + n <= baseSize
      modifies this`position, this`cur, this`index
      ensures Chunks() && Cursor() && position == old(position) + n
      ensures npos + n == baseSize ==> position == Start(baseSize, index)
      ensures part == Contents()[old(position)..position]
    {
      ChunkBytes(cur, index, npos, n);
      part := cur.ptr[npos..npos + n];
      Advance(npos, n);
    }

    /** Hands over the next `n` bytes and moves the head behind them. */
    method Read(n: nat) returns (r: Outcome<seq<byte>>)
      requires Valid()
      modifies this`position, this`cur, this`index
      ensures Valid()
      ensures r.OutOfRange? <==> n > old(size - position)
      ensures r.NullCursor? <==> n == 0 && old(position) == capacity
      ensures r.Ok? ==> position == old(position) + n && r.value == Data()[old(position)..position]
      ensures r.Ok? ==> r.value == old(Rest())[..n] && Rest() == old(Rest())[n..]
      ensures !r.Ok? ==> position == old(position)
    {
      if n > size - position {
        return OutOfRange;
      }
      if cur == null {
        return NullCursor;
      }
      SliceOfPrefix(Contents(), size, position, position + n);
      SuffixSplit(Data(), position, n);
      var buf := TakeAll(n);
      return Ok(buf);
    }

    /** The copy loop of a read. */
    method TakeAll(n: nat) returns (buf: seq<byte>)
      requires Chunks() && Cursor() && position < capacity && position + n <= capacity
      modifies this`position, this`cur, this`index
      ensures Chunks() && Cursor() && position == old(position) + n
      ensures buf == Contents()[old(position)..position]
    {
      Offset();
      ghost var c, p0 := Contents(), position;
      var npos := position % baseSize;
      var ncap := cur.size - npos;
      var left := n;
      buf := [];
      while left > 0
        invariant 0 <= left <= n && position == p0 + n - left
        invariant Chunks() && Cursor()
        invariant buf == c[p0..position]
        invariant left > 0 ==> 0 <= npos && position == Start(baseSize, index) + npos && ncap == baseSize - npos
        decreases left
      {
        ghost var p := position;
        if ncap >= left {
          var part := TakeChunk(npos, left);
          SliceJoin(c, p0, p, position);
          buf := buf + part;
          left := 0;
        } else {
          var part := TakeChunk(npos, ncap);
          SliceJoin(c, p0, p, position);
          buf := buf + part;
          left := left - ncap;
          ncap := cur.size;
          npos := 0;
        }
      }
    }

    /** The const read: it takes its offset from `pos` but its first chunk from the cursor. */
    method ReadAt(n: nat, pos: nat) returns (r: Outcome<seq<byte>>)
      requires Valid() && pos < SIZE_T
      ensures r.OutOfRange? <==> n > (if pos <= size then size - pos else size - pos + SIZE_T)
      ensures var from := ReadAtStart(position, pos, baseSize);
              && (r.NullCursor? <==> !r.OutOfRange? && (position == capacity || from + n > capacity))
              && (r.Ok? ==> from + n <= capacity && r.value == Contents()[from..from + n])
    {
      if n > (if pos <= size then size - pos else size - pos + SIZE_T) {
        return OutOfRange;
      }
      if cur == null {
        return NullCursor;
      }
      r := CopyFrom(n, pos % baseSize);
      Offset();
    }

    /** Bytes copied so far and the next part of a chunk. */
    lemma NextBytes(node: Node, idx: nat, npos: nat, n: nat, from: nat, at: nat)
      requires Chunks() && idx < |chain| && node == chain[idx] && npos + n <= baseSize
      requires from <= at == Start(baseSize, idx) + npos
      ensures at + n <= |Contents()|
      ensures Contents()[from..at] + node.ptr[npos..npos + n] == Contents()[from..at + n]
    {
      ChunkBytes(node, idx, npos, n);
      SliceJoin(Contents(), from, at, at + n);
    }

    /** Where the list goes on from a chunk. */
    lemma NextNode(node: Node, idx: nat)
      requires Chunks() && idx < |chain| && node == chain[idx]
      ensures node.size == baseSize && Start(baseSize, idx) + baseSize <= capacity
      ensures node.next == null ==> Start(baseSize, idx) + baseSize == capacity
      ensures node.next != null ==>
                idx + 1 < |chain| && node.next == chain[idx + 1]
                && Start(baseSize, idx + 1) == Start(baseSize, idx) + baseSize
    {
      StartMono(baseSize, idx, |chain|);
    }

    /** The copy loop of the const read, from offset `off` of the cursor's chunk on. */
    method CopyFrom(n: nat, off: nat) returns (r: Outcome<seq<byte>>)
      requires Chunks() && Cursor() && cur != null && off < baseSize
      ensures !r.OutOfRange?
      ensures var from := Start(baseSize, index) + off;
              && (r.NullCursor? <==> from + n > capacity)
              && (r.Ok? ==> r.value == Contents()[from..from + n])
    {
      StartMono(baseSize, index, |chain|);
      ghost var idx, from := index, Start(baseSize, index) + off;
      ghost var at := from;
      var npos, ncap := off, cur.size - off;
      var left, buf, node := n, [], cur;
      while left > 0
        invariant 0 <= left <= n && at == from + n - left <= capacity && buf == Contents()[from..at]
        invariant left > 0 ==> 0 <= idx < |chain| && node == chain[idx] && at == Start(baseSize, idx) + npos
        invariant left > 0 ==> 0 <= npos < baseSize && ncap == baseSize - npos
        decreases left
      {
        var take := Min(left, ncap);
        NextBytes(node, idx, npos, take, from, at);
        buf := buf + node.ptr[npos..npos + take];
        at := at + take;
        left := left - take;
        if left > 0 {
          NextNode(node, idx);
          if node.next == null {
            return NullCursor;
          }
          node := node.next;
          idx := idx + 1;
          ncap := node.size;
          npos := 0;
        }
      }
      return Ok(buf);
    }

    /** The unread bytes. */
    method ToString() returns (str: seq<byte>)
      requires Valid() && size < SIZE_T
      ensures str == Data()[position..]
    {
      if size - position == 0 {
        return [];
      }
      var r := ReadAt(size - position, position);
      Offset();
      ReadAtSelf(position, baseSize);
      return r.value;
    }

    /** Moves the head to `v`; past the size, the size follows and exposes the bytes already there. */
    method SetPosition(v: nat) returns (ok: bool)
      requires Valid()
      modifies this`position, this`size, this`cur, this`index
      ensures Valid() && ok == (v <= capacity)
      ensures ok ==> position == v && size == Max(old(size), v)
      ensures !ok ==> position == old(position) && size == old(size)
    {
      if v > capacity {
        return false;
      }
      position := v;
      if position > size {
        size := position;
      }
      Reseat();
      return true;
    }

    /** Finds the chunk of the position by walking from the root. */
    method Reseat()
      requires Chunks() && position <= capacity
      modifies this`cur, this`index
      ensures Chunks() && Cursor()
    {
      cur := root;
      ghost var k: nat := 0;
      var left := position;
      while left > cur.size
        invariant 0 <= left && k < |chain| && cur == chain[k]
        invariant position == Start(baseSize, k) + left
        decreases left
      {
        StartMono(baseSize, k + 1, |chain|);
        left := left - cur.size;
        cur := cur.next;
        k := k + 1;
      }
      if left == cur.size {
        cur := cur.next;
        k := k + 1;
      }
      index := k;
      CursorHere();
    }

    /** A chunk around the position, or the end of the list at its end, is the right cursor. */
    lemma CursorHere()
      requires Chunks() && index <= |chain|
      requires if index < |chain| then cur == chain[index] && position < Start(baseSize, index) + baseSize
               else cur == null
      requires Start(baseSize, index) <= position <= capacity
      ensures Cursor()
    {
      StartMono(baseSize, index, |chain|);
    }

    /** The slice loop of the scatter/gather calls, from offset `off` of chunk `node` on. */
    method Slices(node0: Node, ghost idx0: nat, off: nat, len: nat) returns (iovs: seq<Slice>)
      requires Chunks() && idx0 < |chain| && node0 == chain[idx0] && off < baseSize
      requires Start(baseSize, idx0) + off + len <= capacity
      ensures iovs == SlicesFor(chain, baseSize, idx0, off, len)
    {
      ghost var idx: nat := idx0;
      var node, left: nat, npos: nat, ncap := node0, len, off, node0.size - off;
      iovs := [];
      while left > 0
        invariant idx < |chain| && node == chain[idx] && npos < baseSize && ncap == baseSize - npos
        invariant iovs + SlicesFor(chain, baseSize, idx, npos, left) == SlicesFor(chain, baseSize, idx0, off, len)
        invariant Start(baseSize, idx) + npos + left <= capacity
        decreases left
      {
        StartMono(baseSize, idx, |chain|);
        if ncap >= left {
          iovs := iovs + [Slice(node.ptr, npos, left)];
          left := 0;
        } else {
          iovs := iovs + [Slice(node.ptr, npos, ncap)];
          left := left - ncap;
          assert Start(baseSize, idx + 1) < capacity;
          node := node.next;
          ncap := node.size;
          npos := 0;
          idx := idx + 1;
        }
      }
    }

    /** The slices of up to `len` unread bytes, found from the cursor. */
    method GetReadBuffers(len: nat) returns (iovs: seq<Slice>, n: nat)
      requires Valid()
      ensures n == Min(len, size - position)
      ensures iovs == HeadSlices(n)
    {
      n := if len > size - position then size - position else len;
      if n == 0 {
        return [], 0;
      }
      Offset();
      iovs := Slices(cur, index, position % baseSize, n);
    }

    /** The overload with a position: it ignores that argument and walks from the root, so that the
        slices are those at the position asked for only if that is the head. */
    method GetReadBuffersAt(len: nat, pos: nat) returns (iovs: seq<Slice>, n: nat)
      requires Valid()
      ensures n == Min(len, size - position)
      ensures iovs == HeadSlices(n)
      ensures n > 0 && pos < capacity ==> (iovs == SlicesAt(pos, n) <==> pos == position)
    {
      if pos < capacity {
        if Min(len, size - position) > 0 {
          HeadDiffers(pos, Min(len, size - position));
        }
      }
      n := if len > size - position then size - position else len;
      if n == 0 {
        return [], 0;
      }
      Offset();
      var count := position / baseSize;
      var node := root;
      ghost var k: nat := 0;
      while count > 0
        invariant 0 <= count && k + count == index && node == chain[k]
      {
        node := node.next;
        count := count - 1;
        k := k + 1;
      }
      iovs := Slices(node, index, position % baseSize, n);
    }

    /** The slices of the next `len` bytes to be written, after making room for them. */
    method GetWriteBuffers(len: nat) returns (iovs: seq<Slice>)
      requires Valid()
      modifies this`chain, this`image, this`capacity, this`store, this`cur, store
      ensures Valid() && fresh(store - old(store))
      ensures old(Contents()) <= Contents() && capacity == Grown(old(capacity), baseSize, position + len)
      ensures iovs == HeadSlices(len)
    {
      if len == 0 {
        return [];
      }
      AddCapacity(len);
      Offset();
      iovs := Slices(cur, index, position % baseSize, len);
    }

    /** The slices of the `n` bytes from the head on. */
    ghost function HeadSlices(n: nat): seq<Slice>
      requires Valid() && position + n <= capacity
      reads this, store
    {
      if n == 0 then [] else SlicesFor(chain, baseSize, index, position - Start(baseSize, index), n)
    }

    /** The slices of `n` bytes of storage from position `pos` on. */
    ghost function SlicesAt(pos: nat, n: nat): seq<Slice>
      requires Valid() && pos < capacity
      reads this, store
    {
      var k := ChunkOf(baseSize, pos);
      SlicesFor(chain, baseSize, k, pos - Start(baseSize, k), n)
    }

    /** The slices from two places are the same only if the places are. */
    lemma SlicesDiffer(i: nat, off: nat, j: nat, off': nat, n: nat)
      requires Chunks() && i < |chain| && j < |chain| && off < baseSize && off' < baseSize && n > 0
      requires SlicesFor(chain, baseSize, i, off, n) == SlicesFor(chain, baseSize, j, off', n)
      ensures i == j && off == off'
    {
      FirstSlice(chain, baseSize, i, off, n);
      FirstSlice(chain, baseSize, j, off', n);
      assert chain[i].ptr == chain[j].ptr;
    }

    lemma HeadDiffers(pos: nat, n: nat)
      requires Valid() && pos < capacity && 0 < n && position + n <= capacity
      ensures HeadSlices(n) == SlicesAt(pos, n) <==> pos == position
    {
      var k := ChunkOf(baseSize, pos);
      ChunkIs(baseSize, pos, k, |chain|);
      if pos == position {
        ChunkIs(baseSize, pos, k, index);
        ChunkIs(baseSize, pos, index, k);
      }
      if HeadSlices(n) == SlicesAt(pos, n) {
        SlicesDiffer(index, position - Start(baseSize, index), k, pos - Start(baseSize, k), n);
      }
    }

    /** A slice of a chunk in front of slices that gather what follows it. */
    lemma GatherNext(idx: nat, npos: nat, m: nat, rest: seq<Slice>, at: nat, end: nat, iovs: seq<Slice>)
      requires Chunks() && idx < |chain| && npos + m <= baseSize && at == Start(baseSize, idx) + npos
      requires at + m <= end <= capacity && InBounds(rest) && Gather(rest) == Contents()[at + m..end]
      requires iovs == [Slice(chain[idx].ptr, npos, m)] + rest
      ensures InBounds(iovs) && Gather(iovs) == Contents()[at..end]
    {
      ChunkBytes(chain[idx], idx, npos, m);
      GatherCons(Slice(chain[idx].ptr, npos, m), rest);
      SliceJoin(Contents(), at, at + m, end);
    }

    /** Concatenating the slices gives the bytes of the flat image they stand for. */
    lemma {:induction false} GatherFrom(i: nat, npos: nat, at: nat, n: nat, iovs: seq<Slice>)
      requires Chunks() && i < |chain| && npos < baseSize && at == Start(baseSize, i) + npos && at + n <= capacity
      requires iovs == SlicesFor(chain, baseSize, i, npos, n)
      ensures InBounds(iovs) && Gather(iovs) == Contents()[at..at + n]
      decreases |chain| - i
    {
      if n > 0 {
        var m := Min(n, baseSize - npos);
        var rest := SlicesFor(chain, baseSize, i + 1, 0, n - m);
        FirstSlice(chain, baseSize, i, npos, n);
        if m < n {
          StartMono(baseSize, i, |chain|);
          GatherFrom(i + 1, 0, at + m, n - m, rest);
        }
        GatherNext(i, npos, m, rest, at, at + n, iovs);
      }
    }

    /** Gathering the slices at the head gives the next bytes. */
    lemma GatherHead(n: nat)
      requires Valid() && position + n <= capacity
      ensures InBounds(HeadSlices(n)) && Gather(HeadSlices(n)) == Contents()[position..position + n]
    {
      if n > 0 {
        GatherFrom(index, position - Start(baseSize, index), position, n, HeadSlices(n));
      }
    }

    /** What a scattering receive does: it stores `data` through the slices at the head. */
    method Scatter(iovs: seq<Slice>, ghost len: nat, data: seq<byte>)
      requires Valid() && position + len <= capacity && iovs == HeadSlices(len) && |data| <= len
      modifies this`image, store
      ensures Valid() && Contents() == Splice(old(Contents()), position, data)
    {
      if |data| > 0 {
        ScatterFrom(iovs, index, position - Start(baseSize, index), len, data);
      }
    }

    method ScatterFrom(iovs: seq<Slice>, ghost idx: nat, ghost npos: nat, ghost len: nat, data: seq<byte>)
      requires Chunks() && idx < |chain| && npos < baseSize && Start(baseSize, idx) + npos + len <= capacity
      requires iovs == SlicesFor(chain, baseSize, idx, npos, len) && |data| <= len
      modifies this`image, store
      ensures Chunks()
      ensures Contents() == Splice(old(Contents()), Start(baseSize, idx) + npos, data)
      decreases |data|
    {
      if |data| == 0 {
        return;
      }
      ghost var at := Start(baseSize, idx) + npos;
      var n := Min(iovs[0].len, |data|);
      SpliceSplit(Contents(), at, data, n);
      CopyIn(iovs[0].base, idx, iovs[0].off, data[..n]);
      if n < |data| {
        StartMono(baseSize, idx, |chain|);
        ScatterFrom(iovs[1..], idx + 1, 0, len - iovs[0].len, data[n..]);
      }
    }

    /** Drops all chunks but the first. */
    method Clear()
      requires Valid()
      modifies this, root
      ensures Valid() && fresh(store - old(store)) && littleEndian == old(littleEndian)
      ensures position == 0 && capacity == baseSize && Data() == []
      ensures Contents() == old(Contents())[..baseSize]
    {
      FlatChunk(image, baseSize, 0);
      position, size := 0, 0;
      capacity := baseSize;
      cur := root;
      root.next := null;
      chain, image, index := [root], [image[0]], 0;
      assert Start(baseSize, 1) == Start(baseSize, 0) + baseSize;
      assert Flat(image) == Flat([]) + image[0];
    }
  }

  /** The flat position from which the const read copies. */
  function ReadAtStart(position: nat, pos: nat, b: nat): nat
    requires b > 0
  {
    Start(b, position / b) + pos % b
  }

  lemma ReadAtSelf(pos: nat, b: nat)
    requires b > 0
    ensures ReadAtStart(pos, pos, b) == pos
  {
    StartIsProduct(b, pos / b);
  }

  /** The const read copies from `pos` exactly when `pos` lies in the cursor's chunk. */
  lemma ReadAtSameChunk(position: nat, pos: nat, b: nat)
    requires b > 0
    ensures ReadAtStart(position, pos, b) == pos <==> pos / b == position / b
  {
    StartIsProduct(b, position / b);
    if ReadAtStart(position, pos, b) == pos {
      DivModUnique(pos, b, position / b, pos % b);
    }
  }

  /** Splicing the grown image keeps the flat write of the old one in front. */
  lemma {:induction false} SpliceStores(c0: seq<byte>, c1: seq<byte>, p: nat, buf: seq<byte>)
    requires c0 <= c1 && p <= |c0| && p + |buf| <= |c1|
    ensures Overwrite(c0, p, buf) <= Splice(c1, p, buf)
    decreases |buf|
  {
    if buf != [] {
      assert Put(c0, p, buf[0]) <= c1[p := buf[0]];
      SpliceStores(Put(c0, p, buf[0]), c1[p := buf[0]], p + 1, buf[1..]);
    }
  }

  /** Splicing the grown image and cutting it at the new size is the flat write. */
  lemma OverwriteIsSplice(c0: seq<byte>, c1: seq<byte>, size: nat, p: nat, buf: seq<byte>)
    requires c0 <= c1 && p <= size <= |c0| && p + |buf| <= |c1|
    ensures Splice(c1, p, buf)[..Max(size, p + |buf|)] == Overwrite(c0[..size], p, buf)
  {
    var next := p + |buf|;
    SpliceIs(c1, p, buf);
    OverwriteIs(c0[..size], p, buf);
    assert c0[..size][..p] == c1[..p];
    if next <= size {
      assert c0[..size][next..] == c1[next..][..size - next];
    }
  }
}
