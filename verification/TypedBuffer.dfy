/** The typed reads and writes of the byte buffer, and what a script of writes
    followed by the matching reads gives back. `host` is the machine's byte order
    (true for little-endian). */
module TypedBuffer {
  import opened Basics
  import opened Buffers
  import opened Codec

  datatype Prefix = F16 | F32 | F64 | Vint

  datatype Item =
    | Fuint(width: nat, u: nat)
    | Fint(width: nat, i: int)
    | Uint32(v32: uint32)
    | Uint64(v64: uint64)
    | Int32(i32: int32)
    | Int64(i64: int64)
    | Str(prefix: Prefix, s: seq<byte>)

  /** The values the C++ parameter types admit. */
  predicate Fits(item: Item) {
    match item
    case Fuint(w, u) => w in {1, 2, 4, 8} && u < Pow(256, w)
    case Fint(w, i) => w in {1, 2, 4, 8} && 0 <= 2 * i + Pow(256, w) && 2 * i < Pow(256, w)
    case Str(_, s) => |s| < SIZE_T
    case _ => true
  }

  /** The length a string prefix stores: value.size() narrowed to the prefix. */
  function StoredLength(p: Prefix, n: nat): (r: nat)
    ensures r <= n
  {
    match p
    case F16 => n % 0x1_0000
    case F32 => n % 0x1_0000_0000
    case F64 => n
    case Vint => n
  }

  function Lead(p: Prefix, n: nat, little: bool): (r: seq<byte>)
    ensures |r| > 0
  {
    match p
    case F16 => Image(n % 0x1_0000, 2, little)
    case F32 => Image(n % 0x1_0000_0000, 4, little)
    case F64 => Image(n, 8, little)
    case Vint => VarBytes(n)
  }

  /** The bytes a typed write appends. */
  function Bytes(item: Item, little: bool): (r: seq<byte>)
    requires Fits(item)
    ensures |r| > 0
  {
    match item
    case Fuint(w, u) => Image(u, w, little)
    case Fint(w, i) => Image(Unsigned(i, w), w, little)
    case Uint32(v) => VarBytes(v)
    case Uint64(v) => VarBytes(v)
    case Int32(i) => VarBytes(EncodeZigzag32(i))
    case Int64(i) => VarBytes(EncodeZigzag64(i))
    case Str(p, s) => Lead(p, |s|, little) + s
  }

  /** The value the matching read returns. */
  function ReadBack(item: Item): Item {
    match item
    case Int64(i) => Int64(DecodeZigzag64(EncodeZigzag64(i)))
    case Str(p, s) => Str(p, s[..StoredLength(p, |s|)])
    case _ => item
  }

  /** The items whose encoding loses nothing. */
  predicate Faithful(item: Item) {
    match item
    case Int64(i) => -0x8000_0000 <= i < 0x8000_0000
    case Str(F16, s) => |s| < 0x1_0000
    case Str(F32, s) => |s| < 0x1_0000_0000
    case _ => true
  }

  lemma FaithfulExactly(item: Item)
    ensures ReadBack(item) == item <==> Faithful(item)
  {
    match item
    case Int64(i) => Zigzag64(i);
    case Str(p, s) =>
      if Faithful(item) {
        assert s[..|s|] == s;
      } else {
        assert |ReadBack(item).s| < |s|;
      }
    case _ =>
  }

  // ---------- writes ----------

  /** The flat state of a buffer: its content, its head and its capacity. */
  datatype Flat = Flat(data: seq<byte>, position: nat, capacity: nat)

  ghost function View(ba: ByteArray): Flat
    requires ba.Valid()
    reads ba, ba.store
  {
    Flat(ba.Data(), ba.position, ba.capacity)
  }

  /** The flat state after writing `buf` at the head, for chunks of `b` bytes. */
  function Written(f: Flat, b: nat, buf: seq<byte>): Flat
    requires b > 0 && f.position <= |f.data|
  {
    Flat(Overwrite(f.data, f.position, buf), f.position + |buf|, Grown(f.capacity, b, f.position + |buf|))
  }

  /** The effect of a typed write that stores `buf`. */
  twostate predicate Wrote(ba: ByteArray, buf: seq<byte>)
    requires old(ba.Valid())
    reads ba, ba.store
  {
    && ba.Valid() && fresh(ba.store - old(ba.store)) && ba.littleEndian == old(ba.littleEndian)
    && View(ba) == Written(old(View(ba)), ba.baseSize, buf)
  }

  /** Two writes in a row are one write of the concatenation. */
  lemma WrittenTwice(f: Flat, b: nat, x: seq<byte>, y: seq<byte>)
    requires b > 0 && f.position <= |f.data|
    ensures Written(Written(f, b, x), b, y) == Written(f, b, x + y)
  {
    OverwriteTwice(f.data, f.position, x, y);
    GrownTwice(f.capacity, b, f.position + |x|, f.position + |x| + |y|);
  }

  lemma {:induction false} OverwriteTwice(d: seq<byte>, p: nat, a: seq<byte>, b: seq<byte>)
    requires p <= |d|
    ensures Overwrite(Overwrite(d, p, a), p + |a|, b) == Overwrite(d, p, a + b)
    decreases |a|
  {
    if a == [] {
      assert a + b == b;
    } else {
      assert (a + b)[1..] == a[1..] + b;
      OverwriteTwice(Put(d, p, a[0]), p + 1, a[1..], b);
    }
  }

  lemma {:induction false} GrownTwice(cap: nat, b: nat, x: nat, y: nat)
    requires b > 0 && x <= y
    ensures Grown(Grown(cap, b, x), b, y) == Grown(cap, b, y)
    decreases x - cap
  {
    if x > cap {
      GrownTwice(cap + b, b, x, y);
    }
  }

  method Store(ba: ByteArray, buf: seq<byte>)
    requires ba.Valid()
    modifies ba, ba.store
    ensures Wrote(ba, buf)
  {
    ba.Write(buf);
  }

  /** The fixed-width writes: swap when the chosen byte order is not the machine's. */
  method WriteFuint(ba: ByteArray, value: nat, w: nat, host: bool)
    requires ba.Valid() && value < Pow(256, w)
    modifies ba, ba.store
    ensures Wrote(ba, Image(value, w, ba.littleEndian))
  {
    StoredOrder(value, w, ba.littleEndian, host);
    var v := value;
    if ba.littleEndian != host {
      v := ByteSwap(v, w);
    }
    Store(ba, Image(v, w, host));
  }

  /** The packing loop of the varint writes: it never leaves its local array. */
  method PackVar(value: nat, limit: nat) returns (tmp: array<byte>, n: nat)
    requires limit > 0 && value < Pow(0x80, limit)
    ensures fresh(tmp) && n <= tmp.Length == limit && tmp[..n] == VarBytes(value)
  {
    tmp := new byte[limit];
    n := 0;
    var v: nat := value;
    VarLength(v, limit);
    while v >= 0x80
      invariant n + |VarBytes(v)| <= limit && tmp[..n] + VarBytes(v) == VarBytes(value)
    {
      tmp[n] := v % 0x80 + 0x80;
      assert tmp[..n + 1] == tmp[..n] + [v % 0x80 + 0x80];
      v := v / 0x80;
      n := n + 1;
    }
    tmp[n] := v;
    assert tmp[..n + 1] == tmp[..n] + [v];
    n := n + 1;
  }

  method WriteUint32(ba: ByteArray, value: uint32)
    requires ba.Valid()
    modifies ba, ba.store
    ensures Wrote(ba, VarBytes(value))
  {
    VarWidths(value);
    VarLength(value, 5);
    var tmp, n := PackVar(value, 5);
    Store(ba, tmp[..n]);
  }

  method WriteUint64(ba: ByteArray, value: uint64)
    requires ba.Valid()
    modifies ba, ba.store
    ensures Wrote(ba, VarBytes(value))
  {
    VarWidths(value);
    VarLength(value, 10);
    var tmp, n := PackVar(value, 10);
    Store(ba, tmp[..n]);
  }

  /** writeStringWithoutLength: just the bytes. */
  method WriteRaw(ba: ByteArray, s: seq<byte>)
    requires ba.Valid()
    modifies ba, ba.store
    ensures Wrote(ba, s)
  {
    Store(ba, s);
  }

  method WriteLead(ba: ByteArray, p: Prefix, n: nat, host: bool)
    requires ba.Valid() && n < SIZE_T
    modifies ba, ba.store
    ensures Wrote(ba, Lead(p, n, ba.littleEndian))
  {
    Widths();
    match p {
      case F16 => WriteFuint(ba, n % 0x1_0000, 2, host);
      case F32 => WriteFuint(ba, n % 0x1_0000_0000, 4, host);
      case F64 => WriteFuint(ba, n, 8, host);
      case Vint => WriteUint64(ba, n);
    }
  }

  /** The string writes: the narrowed length, then all the bytes. */
  method WriteStr(ba: ByteArray, p: Prefix, s: seq<byte>, host: bool)
    requires ba.Valid() && |s| < SIZE_T
    modifies ba, ba.store
    ensures Wrote(ba, Lead(p, |s|, ba.littleEndian) + s)
  {
    ghost var lead := Lead(p, |s|, ba.littleEndian);
    WrittenTwice(View(ba), ba.baseSize, lead, s);
    WriteLead(ba, p, |s|, host);
    WriteRaw(ba, s);
  }

  lemma Widths()
    ensures Pow(256, 1) == 0x100 && Pow(256, 2) == 0x1_0000
    ensures Pow(256, 4) == 0x1_0000_0000 && Pow(256, 8) == SIZE_T
  {
    assert Pow(256, 2) == 256 * Pow(256, 1);
    assert Pow(256, 4) == 256 * 256 * Pow(256, 2);
    assert Pow(256, 8) == 256 * 256 * 256 * 256 * Pow(256, 4);
  }

  method WriteItem(ba: ByteArray, item: Item, host: bool)
    requires ba.Valid() && Fits(item)
    modifies ba, ba.store
    ensures Wrote(ba, Bytes(item, ba.littleEndian))
  {
    match item {
      case Fuint(w, u) => WriteFuint(ba, u, w, host);
      case Fint(w, i) => WriteFuint(ba, Unsigned(i, w), w, host);
      case Uint32(v) => WriteUint32(ba, v);
      case Uint64(v) => WriteUint64(ba, v);
      case Int32(i) => WriteUint32(ba, EncodeZigzag32(i));
      case Int64(i) => WriteUint64(ba, EncodeZigzag64(i));
      case Str(p, s) => WriteStr(ba, p, s, host);
    }
  }

  // ---------- reads ----------

  /** The fixed-width reads: the inverse swap. The value is the one whose image was stored. */
  method ReadFuint(ba: ByteArray, w: nat, host: bool) returns (r: Outcome<nat>)
    requires ba.Valid() && w > 0
    modifies ba`position, ba`cur, ba`index
    ensures ba.Valid() && !r.NullCursor? && (r.OutOfRange? <==> w > old(ba.size - ba.position))
    ensures r.OutOfRange? ==> ba.position == old(ba.position)
    ensures r.Ok? ==> ba.position == old(ba.position) + w && r.value < Pow(256, w)
    ensures r.Ok? ==> Image(r.value, w, ba.littleEndian) == old(ba.Rest())[..w] && ba.Rest() == old(ba.Rest())[w..]
  {
    var raw := ba.Read(w);
    if !raw.Ok? {
      return OutOfRange;
    }
    var v := FromImage(raw.value, host);
    if ba.littleEndian != host {
      v := ByteSwap(v, w);
    }
    LoadedImage(raw.value, ba.littleEndian, host);
    return Ok(v);
  }

  /** Loading bytes and swapping back yields the value whose image they are. */
  lemma LoadedImage(s: seq<byte>, chosen: bool, host: bool)
    ensures var raw := FromImage(s, host);
            var v := if chosen == host then raw else ByteSwap(raw, |s|);
            v < Pow(256, |s|) && Image(v, |s|, chosen) == s
  {
    LEInverse(s);
    LEInverse(Reversed(s));
    LEInverse(Reversed(LE(FromImage(s, host), |s|)));
    ReversedTwice(s);
  }

  lemma ImageInjective(u: nat, v: nat, w: nat, little: bool)
    requires u < Pow(256, w) && v < Pow(256, w) && Image(u, w, little) == Image(v, w, little)
    ensures u == v
  {
    ReversedTwice(LE(u, w));
    ReversedTwice(LE(v, w));
    FromLEInverse(u, w);
    FromLEInverse(v, w);
  }

  /** A parse that had already taken `i` bytes. */
  ghost function After(i: nat, r: Option<(nat, nat)>): Option<(nat, nat)> {
    match r
    case None => None
    case Some((v, k)) => Some((v, k + i))
  }

  /** One round of the parsing loop. */
  lemma ParseRound(i: nat, d: seq<byte>, n: nat, acc: nat, scale: nat, modulus: nat)
    requires modulus > 0 && n > 0
    ensures After(i, ParseVar(d, n, acc, scale, modulus)) ==
            if d == [] then None
            else var acc' := Accumulate(acc, d[0], scale, modulus);
                 if d[0] < 0x80 then Some((acc', i + 1))
                 else After(i + 1, ParseVar(d[1..], n - 1, acc', scale * 0x80, modulus))
  {
  }

  method ReadFuint8(ba: ByteArray) returns (r: Outcome<byte>)
    requires ba.Valid()
    modifies ba`position, ba`cur, ba`index
    ensures ba.Valid()
    ensures old(ba.Rest()) == [] ==> r == OutOfRange && ba.position == ba.size
    ensures old(ba.Rest()) != [] ==>
              r == Ok(old(ba.Rest())[0]) && ba.Rest() == old(ba.Rest())[1..] && ba.position == old(ba.position) + 1
  {
    var raw := ba.Read(1);
    if !raw.Ok? {
      return OutOfRange;
    }
    assert raw.value == [old(ba.Rest())[0]];
    return Ok(raw.value[0]);
  }

  /** The varint reads: at most `n` bytes into an integer of the given size. */
  method ReadVar(ba: ByteArray, n: nat, modulus: nat) returns (r: Outcome<nat>)
    requires ba.Valid() && modulus > 0
    modifies ba`position, ba`cur, ba`index
    ensures ba.Valid()
    ensures match ParseVar(old(ba.Rest()), n, 0, 1, modulus)
            case None => r == OutOfRange && ba.position == ba.size
            case Some((v, k)) => r == Ok(v) && ba.position == old(ba.position) + k
  {
    var result: nat, scale: nat, i: nat := 0, 1, 0;
    ghost var rest, p0 := ba.Rest(), ba.position;
    ghost var all := ParseVar(rest, n, 0, 1, modulus);
    while i < n
      invariant i <= n && ba.Valid() && ba.position == p0 + i && ba.Rest() == rest
      invariant all == After(i, ParseVar(rest, n - i, result, scale, modulus))
    {
      ParseRound(i, rest, n - i, result, scale, modulus);
      var b := ReadFuint8(ba);
      if !b.Ok? {
        return OutOfRange;
      }
      rest := rest[1..];
      result := Accumulate(result, b.value, scale, modulus);
      if b.value < 0x80 {
        return Ok(result);
      }
      scale := scale * 0x80;
      i := i + 1;
    }
    return Ok(result);
  }

  /** A fixed-width read in front of a fixed-width value takes that value. */
  method ReadStored(ba: ByteArray, w: nat, host: bool, ghost v: nat, ghost rest: seq<byte>) returns (r: Outcome<nat>)
    requires ba.Valid() && w > 0 && v < Pow(256, w)
    requires ba.Rest() == Image(v, w, ba.littleEndian) + rest
    modifies ba`position, ba`cur, ba`index
    ensures ba.Valid() && r == Ok(v) && ba.Rest() == rest && ba.position == old(ba.position) + w
  {
    ghost var all := ba.Rest();
    r := ReadFuint(ba, w, host);
    assert Image(r.value, w, ba.littleEndian) == all[..w];
    ImageInjective(r.value, v, w, ba.littleEndian);
  }

  /** A varint read in front of a varint that fits takes that varint. */
  method ReadPacked(ba: ByteArray, n: nat, modulus: nat, ghost v: nat, ghost rest: seq<byte>) returns (r: Outcome<nat>)
    requires ba.Valid() && |VarBytes(v)| <= n && v < modulus
    requires ba.Rest() == VarBytes(v) + rest
    modifies ba`position, ba`cur, ba`index
    ensures ba.Valid() && r == Ok(v) && ba.Rest() == rest && ba.position == old(ba.position) + |VarBytes(v)|
  {
    ParseInverts(v, rest, n, 0, 1, modulus);
    SuffixSplit(ba.Data(), ba.position, |VarBytes(v)|);
    r := ReadVar(ba, n, modulus);
  }

  method ReadLead(ba: ByteArray, p: Prefix, host: bool, ghost n: nat, ghost rest: seq<byte>) returns (r: Outcome<nat>)
    requires ba.Valid() && n < SIZE_T && ba.Rest() == Lead(p, n, ba.littleEndian) + rest
    modifies ba`position, ba`cur, ba`index
    ensures ba.Valid() && r == Ok(StoredLength(p, n)) && ba.Rest() == rest
    ensures ba.position == old(ba.position) + |Lead(p, n, ba.littleEndian)|
  {
    Widths();
    VarWidths(n);
    match p {
      case F16 => r := ReadStored(ba, 2, host, n % 0x1_0000, rest);
      case F32 => r := ReadStored(ba, 4, host, n % 0x1_0000_0000, rest);
      case F64 => r := ReadStored(ba, 8, host, n, rest);
      case Vint => r := ReadPacked(ba, 10, U64, n, rest);
    }
  }

  /** The string reads: the length, then that many bytes; an empty string read at the
      very end of the capacity follows the null cursor. */
  method ReadStr(ba: ByteArray, p: Prefix, host: bool, ghost s: seq<byte>, ghost rest: seq<byte>)
    returns (r: Outcome<seq<byte>>)
    requires ba.Valid() && |s| < SIZE_T && ba.Rest() == Lead(p, |s|, ba.littleEndian) + s + rest
    modifies ba`position, ba`cur, ba`index
    ensures ba.Valid()
    ensures var lead, n := Lead(p, |s|, ba.littleEndian), StoredLength(p, |s|);
            if n == 0 && old(ba.position) + |lead| == ba.capacity then r == NullCursor
            else r == Ok(s[..n]) && ba.position == old(ba.position) + |lead| + n && (n == |s| ==> ba.Rest() == rest)
  {
    assert ba.Rest() == Lead(p, |s|, ba.littleEndian) + (s + rest);
    var len := ReadLead(ba, p, host, |s|, s + rest);
    ghost var all := ba.Rest();
    r := ba.Read(len.value);
    assert r.Ok? ==> r.value == all[..len.value] == s[..len.value];
  }

  /** The position behind the encoding of `item`, for a reader that takes what it reads back. */
  ghost predicate AtEdge(item: Item, little: bool, position: nat, capacity: nat) {
    item.Str? && StoredLength(item.prefix, |item.s|) == 0
    && position + |Lead(item.prefix, |item.s|, little)| == capacity
  }

  /** The matching read of an integer: the value comes back, or what is left of it. */
  method ReadInteger(ba: ByteArray, item: Item, host: bool, ghost rest: seq<byte>) returns (r: Item)
    requires ba.Valid() && Fits(item) && !item.Str? && ba.Rest() == Bytes(item, ba.littleEndian) + rest
    modifies ba`position, ba`cur, ba`index
    ensures ba.Valid() && r == ReadBack(item)
    ensures ba.Rest() == rest && ba.position == old(ba.position) + |Bytes(item, ba.littleEndian)|
  {
    match item {
      case Fuint(w, u) =>
        var v := ReadStored(ba, w, host, u, rest);
        r := Fuint(w, v.value);
      case Fint(w, i) =>
        var v := ReadStored(ba, w, host, Unsigned(i, w), rest);
        r := Fint(w, Signed(v.value, w));
      case Uint32(u) =>
        VarWidths(u);
        var v := ReadPacked(ba, 5, U32, u, rest);
        r := Uint32(v.value);
      case Uint64(u) =>
        VarWidths(u);
        var v := ReadPacked(ba, 10, U64, u, rest);
        r := Uint64(v.value);
      case Int32(i) =>
        VarWidths(EncodeZigzag32(i));
        Zigzag32(i, 0);
        var v := ReadPacked(ba, 5, U32, EncodeZigzag32(i), rest);
        r := Int32(DecodeZigzag32(v.value));
      case Int64(i) =>
        VarWidths(EncodeZigzag64(i));
        var v := ReadPacked(ba, 10, U64, EncodeZigzag64(i), rest);
        r := Int64(DecodeZigzag64(v.value));
    }
  }

  /** The matching read in front of an encoded item. Only the shape of `item` is used. */
  method ReadItem(ba: ByteArray, item: Item, host: bool, ghost rest: seq<byte>) returns (r: Outcome<Item>)
    requires ba.Valid() && Fits(item) && ba.Rest() == Bytes(item, ba.littleEndian) + rest
    modifies ba`position, ba`cur, ba`index
    ensures ba.Valid()
    ensures r == if AtEdge(item, ba.littleEndian, old(ba.position), ba.capacity) then NullCursor else Ok(ReadBack(item))
    ensures r == Ok(item) ==> ba.Rest() == rest && ba.position == old(ba.position) + |Bytes(item, ba.littleEndian)|
  {
    if item.Str? {
      var v := ReadStr(ba, item.prefix, host, item.s, rest);
      if !v.Ok? {
        return NullCursor;
      }
      r := Ok(Str(item.prefix, v.value));
    } else {
      var i := ReadInteger(ba, item, host, rest);
      r := Ok(i);
    }
  }

  // ---------- scripts ----------

  ghost function AllBytes(items: seq<Item>, little: bool): seq<byte>
    requires forall k :: 0 <= k < |items| ==> Fits(items[k])
  {
    if items == [] then [] else Bytes(items[0], little) + AllBytes(items[1..], little)
  }

  /** The one script shape whose last read follows the null cursor: an empty string whose
      length prefix ends exactly where the last chunk ends. */
  ghost predicate EndsAtEdge(items: seq<Item>, little: bool, b: nat)
    requires b > 0 && forall k :: 0 <= k < |items| ==> Fits(items[k])
  {
    EndsEmpty(items) && |AllBytes(items, little)| % b == 0
  }

  predicate EndsEmpty(items: seq<Item>) {
    |items| > 0 && items[|items| - 1].Str? && items[|items| - 1].s == []
  }

  /** Growing in steps of `b` stops on a multiple of `b`, and on `need` if that is one. */
  lemma {:induction false} GrownIsMultiple(cap: nat, k: nat, b: nat, need: nat)
    requires b > 0 && cap == k * b && cap <= need
    ensures Grown(cap, b, need) % b == 0
    ensures need % b == 0 ==> Grown(cap, b, need) == need
    decreases need - cap
  {
    if need == cap {
      DivModUnique(cap, b, k, 0);
    } else if need < cap + b {
      DivModUnique(need, b, k, need - cap);
      MulNext(k, b);
      DivModUnique(cap + b, b, k + 1, 0);
      assert Grown(cap, b, need) == Grown(cap + b, b, need) == cap + b;
    } else {
      MulNext(k, b);
      GrownIsMultiple(cap + b, k + 1, b, need);
    }
  }

  /** The chunks are filled to the last byte exactly at a positive multiple of `b`. */
  lemma FullExactly(total: nat, b: nat)
    requires b > 0 && total > 0
    ensures total % b == 0 <==> Grown(b, b, total) == total
  {
    if b <= total {
      GrownIsMultiple(b, 1, b, total);
    }
  }

  lemma EdgeIsFull(items: seq<Item>, little: bool, b: nat)
    requires b > 0 && forall k :: 0 <= k < |items| ==> Fits(items[k])
    ensures EndsAtEdge(items, little, b) <==>
            EndsEmpty(items) && |AllBytes(items, little)| == Grown(b, b, |AllBytes(items, little)|)
  {
    if EndsEmpty(items) {
      assert |AllBytes(items, little)| >= |Bytes(items[0], little)|;
      FullExactly(|AllBytes(items, little)|, b);
    }
  }

  lemma AppendAtEnd(d: seq<byte>, buf: seq<byte>)
    ensures Overwrite(d, |d|, buf) == d + buf
  {
    OverwriteIs(d, |d|, buf);
  }

  /** A script of typed writes stores the concatenation of their encodings. */
  method WriteScript(ba: ByteArray, items: seq<Item>, host: bool)
    requires ba.Valid() && forall k :: 0 <= k < |items| ==> Fits(items[k])
    modifies ba, ba.store
    ensures Wrote(ba, AllBytes(items, ba.littleEndian))
    decreases |items|
  {
    if |items| > 0 {
      WrittenTwice(View(ba), ba.baseSize, Bytes(items[0], ba.littleEndian), AllBytes(items[1..], ba.littleEndian));
      WriteItem(ba, items[0], host);
      WriteScript(ba, items[1..], host);
    }
  }

  /** A fresh buffer with a script written into it. */
  method Filled(items: seq<Item>, b: nat, little: bool, host: bool) returns (ba: ByteArray)
    requires b > 0 && forall k :: 0 <= k < |items| ==> Fits(items[k])
    ensures fresh(ba) && ba.Valid() && fresh(ba.store) && ba.littleEndian == little && ba.baseSize == b
    ensures View(ba) == Written(Flat([], 0, b), b, AllBytes(items, little))
  {
    ba := new ByteArray(b);
    ba.littleEndian := little;
    WriteScript(ba, items, host);
  }

  /** A fresh buffer holding a script, rewound to its start. */
  method Recorded(items: seq<Item>, b: nat, little: bool, host: bool) returns (ba: ByteArray)
    requires b > 0 && forall k :: 0 <= k < |items| ==> Fits(items[k])
    ensures fresh(ba) && ba.Valid() && fresh(ba.store) && ba.littleEndian == little
    ensures ba.Rest() == ba.Data() == AllBytes(items, little) && ba.size == |ba.Rest()|
    ensures ba.capacity == Grown(b, b, ba.size)
  {
    AppendAtEnd([], AllBytes(items, little));
    ba := Filled(items, b, little, host);
    var moved := ba.SetPosition(0);
  }

  /** The encodings of the items from `k` on. */
  ghost function BytesFrom(items: seq<Item>, k: nat, little: bool): seq<byte>
    requires k <= |items| && forall j :: 0 <= j < |items| ==> Fits(items[j])
  {
    AllBytes(items[k..], little)
  }

  /** What the read of item `k` answers when the reads before it have taken what was written. */
  ghost function Answer(items: seq<Item>, k: nat, little: bool, size: nat, capacity: nat): Outcome<Item>
    requires k < |items| && forall j :: 0 <= j < |items| ==> Fits(items[j])
  {
    if |BytesFrom(items, k, little)| <= size
       && AtEdge(items[k], little, size - |BytesFrom(items, k, little)|, capacity) then NullCursor
    else Ok(ReadBack(items[k]))
  }

  /** Item `k` came back as it was: nothing of it was lost, and it was not read at the edge. */
  ghost predicate Passed(items: seq<Item>, k: nat, value: Outcome<Item>, size: nat, capacity: nat)
    requires k < |items|
  {
    value == Ok(items[k]) && Faithful(items[k]) && (k == |items| - 1 && EndsEmpty(items) ==> size < capacity)
  }

  /** Item `k` did not, and why. */
  ghost predicate Stopped(items: seq<Item>, k: nat, value: Outcome<Item>, little: bool, size: nat, capacity: nat)
    requires k < |items| && forall j :: 0 <= j < |items| ==> Fits(items[j])
  {
    && value == Answer(items, k, little, size, capacity) != Ok(items[k])
    && (!Faithful(items[k]) || (size == capacity && k == |items| - 1 && EndsEmpty(items)))
  }

  /** Reads the items of a script back until one does not come back as it was; `good` of them do. */
  method ReadScript(ba: ByteArray, items: seq<Item>, host: bool) returns (values: seq<Outcome<Item>>, good: nat)
    requires ba.Valid() && (forall k :: 0 <= k < |items| ==> Fits(items[k]))
    requires ba.Rest() == AllBytes(items, ba.littleEndian)
    modifies ba`position, ba`cur, ba`index
    ensures ba.Valid() && good <= |items| && |values| == Min(good + 1, |items|)
    ensures forall k :: 0 <= k < good ==> Passed(items, k, values[k], ba.size, ba.capacity)
    ensures if good == |items| then ba.position == ba.size
            else Stopped(items, good, values[good], ba.littleEndian, ba.size, ba.capacity)
  {
    values, good := [], 0;
    assert items[0..] == items;
    while good < |items|
      invariant |values| == good <= |items| && ba.Valid() && ba.Rest() == BytesFrom(items, good, ba.littleEndian)
      invariant forall k :: 0 <= k < good ==> Passed(items, k, values[k], ba.size, ba.capacity)
    {
      var value := ReadNext(ba, items, good, host);
      values := values + [value];
      if value != Ok(items[good]) {
        return;
      }
      good := good + 1;
    }
  }

  /** One round of reading a script back. */
  method ReadNext(ba: ByteArray, items: seq<Item>, k: nat, host: bool) returns (value: Outcome<Item>)
    requires ba.Valid() && k < |items| && forall j :: 0 <= j < |items| ==> Fits(items[j])
    requires ba.Rest() == BytesFrom(items, k, ba.littleEndian)
    modifies ba`position, ba`cur, ba`index
    ensures ba.Valid()
    ensures if value == Ok(items[k])
            then Passed(items, k, value, ba.size, ba.capacity) && ba.Rest() == BytesFrom(items, k + 1, ba.littleEndian)
            else Stopped(items, k, value, ba.littleEndian, ba.size, ba.capacity)
  {
    ghost var rest := BytesFrom(items, k + 1, ba.littleEndian);
    assert items[k..][1..] == items[k + 1..];
    FaithfulExactly(items[k]);
    assert |ba.Rest()| == |Bytes(items[k], ba.littleEndian)| + |rest|;
    value := ReadItem(ba, items[k], host, rest);
  }

  /** What the answers to a whole script say about its items. */
  lemma Verdict(items: seq<Item>, values: seq<Outcome<Item>>, good: nat, little: bool, b: nat, size: nat)
    requires b > 0 && (forall k :: 0 <= k < |items| ==> Fits(items[k])) && size == |AllBytes(items, little)|
    requires good <= |items| && |values| == Min(good + 1, |items|)
    requires forall k :: 0 <= k < good ==> Passed(items, k, values[k], size, Grown(b, b, size))
    requires good < |items| ==> Stopped(items, good, values[good], little, size, Grown(b, b, size))
    ensures forall k :: 0 <= k < good ==> values[k] == Ok(items[k])
    ensures good == |items| <==> (forall k :: 0 <= k < |items| ==> Faithful(items[k])) && !EndsAtEdge(items, little, b)
  {
    EdgeIsFull(items, little, b);
    forall k | 0 <= k < good
      ensures values[k] == Ok(items[k]) && Faithful(items[k])
    {
      assert Passed(items, k, values[k], size, Grown(b, b, size));
    }
    if good == |items| && good > 0 {
      assert Passed(items, good - 1, values[good - 1], size, Grown(b, b, size));
    }
  }

  /** Writing a script into a fresh buffer of any chunk size, rewinding and reading it back
      returns every item and ends at the end, exactly when every item is representable and
      the script does not end with an empty string at a chunk boundary. The reads stop at the
      first item that does not come back, and what they answer for it is known. */
  method RoundTrip(items: seq<Item>, b: nat, little: bool, host: bool)
    returns (ba: ByteArray, values: seq<Outcome<Item>>, atEnd: bool)
    requires b > 0 && forall k :: 0 <= k < |items| ==> Fits(items[k])
    ensures ba.Valid() && ba.Data() == AllBytes(items, little) && atEnd == (ba.position == ba.size)
    ensures |values| <= |items| && ba.capacity == Grown(b, b, ba.size)
    ensures forall k :: 0 <= k < |values| && values[k] != Ok(items[k]) ==>
                          k == |values| - 1 && values[k] == Answer(items, k, little, ba.size, ba.capacity)
    ensures |values| < |items| ==> |values| > 0 && values[|values| - 1] != Ok(items[|values| - 1])
    ensures (|values| == |items| && (forall k :: 0 <= k < |items| ==> values[k] == Ok(items[k])) && atEnd)
       <==> (forall k :: 0 <= k < |items| ==> Faithful(items[k])) && !EndsAtEdge(items, little, b)
  {
    var good;
    ba := Recorded(items, b, little, host);
    values, good := ReadScript(ba, items, host);
    atEnd := ba.position == ba.size;
    Verdict(items, values, good, little, b, ba.size);
  }
}
