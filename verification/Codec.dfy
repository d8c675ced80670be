/** The value encodings of the byte buffer, as functions on byte sequences:
    fixed-width integers in either byte order, varints and zigzag. */
module Codec {
  import opened Basics

  function Pow(b: nat, e: nat): nat {
    if e == 0 then 1 else b * Pow(b, e - 1)
  }

  // ---------- fixed-width integers ----------

  /** The `w` low bytes of `v`, least significant first. */
  function LE(v: nat, w: nat): (s: seq<byte>)
    ensures |s| == w
  {
    if w == 0 then [] else [v % 256] + LE(v / 256, w - 1)
  }

  function FromLE(s: seq<byte>): nat {
    if s == [] then 0 else s[0] + 256 * FromLE(s[1..])
  }

  function Reversed(s: seq<byte>): (r: seq<byte>)
    ensures |r| == |s|
  {
    if s == [] then [] else Reversed(s[1..]) + [s[0]]
  }

  /** The memory image of a `w`-byte integer on a machine of the given byte order. */
  function Image(v: nat, w: nat, little: bool): (s: seq<byte>)
    ensures |s| == w
  {
    if little then LE(v, w) else Reversed(LE(v, w))
  }

  function FromImage(s: seq<byte>, little: bool): nat {
    FromLE(if little then s else Reversed(s))
  }

  function ByteSwap(v: nat, w: nat): nat {
    FromLE(Reversed(LE(v, w)))
  }

  lemma {:induction false} FromLEInverse(v: nat, w: nat)
    requires v < Pow(256, w)
    ensures FromLE(LE(v, w)) == v
  {
    if w > 0 {
      assert v / 256 < Pow(256, w - 1);
      FromLEInverse(v / 256, w - 1);
    }
  }

  lemma {:induction false} LEInverse(s: seq<byte>)
    ensures FromLE(s) < Pow(256, |s|) && LE(FromLE(s), |s|) == s
  {
    if s != [] {
      LEInverse(s[1..]);
      assert FromLE(s) % 256 == s[0] && FromLE(s) / 256 == FromLE(s[1..]);
    }
  }

  lemma {:induction false} ReversedSnoc(s: seq<byte>, x: byte)
    ensures Reversed(s + [x]) == [x] + Reversed(s)
  {
    if s != [] {
      assert (s + [x])[1..] == s[1..] + [x];
      ReversedSnoc(s[1..], x);
    } else {
      assert s + [x] == [x];
    }
  }

  lemma {:induction false} ReversedTwice(s: seq<byte>)
    ensures Reversed(Reversed(s)) == s
  {
    if s != [] {
      ReversedSnoc(Reversed(s[1..]), s[0]);
      ReversedTwice(s[1..]);
    }
  }

  lemma SwappedBytes(v: nat, w: nat)
    ensures LE(ByteSwap(v, w), w) == Reversed(LE(v, w))
  {
    LEInverse(Reversed(LE(v, w)));
  }

  /** Swapping exactly when the chosen order is not the machine's stores the chosen order. */
  lemma StoredOrder(v: nat, w: nat, chosen: bool, host: bool)
    requires v < Pow(256, w)
    ensures Image(if chosen == host then v else ByteSwap(v, w), w, host) == Image(v, w, chosen)
  {
    SwappedBytes(v, w);
    ReversedTwice(LE(v, w));
  }

  /** Reading with the same rule gives the value back, on any machine. */
  lemma LoadedValue(v: nat, w: nat, chosen: bool, host: bool)
    requires v < Pow(256, w)
    ensures var raw := FromImage(Image(v, w, chosen), host);
            (if chosen == host then raw else ByteSwap(raw, w)) == v
  {
    var le := LE(v, w);
    FromLEInverse(v, w);
    ReversedTwice(le);
    LEInverse(Reversed(le));
  }

  lemma DivDiv(v: nat, a: nat, b: nat)
    requires a > 0 && b > 0
    ensures a * b > 0 && v / a / b == v / (a * b)
  {
    var q, r := v / a, v % a;
    var q2, r2 := q / b, q % b;
    MulMono(1, b, a);
    MulMono(r2 + 1, b, a);
    MulNext(r2, a);
    MulMono(0, r2, a);
    assert v == q2 * (a * b) + (r2 * a + r);
    DivModUnique(v, a * b, q2, r2 * a + r);
  }

  lemma {:induction false} ReversedAt(s: seq<byte>, k: nat)
    requires k < |s|
    ensures Reversed(s)[|s| - 1 - k] == s[k]
  {
    if k > 0 {
      ReversedAt(s[1..], k - 1);
    }
  }

  lemma {:induction false} LEAt(v: nat, w: nat, k: nat)
    requires k < w
    ensures Pow(256, k) > 0 && LE(v, w)[k] == v / Pow(256, k) % 256
  {
    if k > 0 {
      LEAt(v / 256, w - 1, k - 1);
      DivDiv(v, 256, Pow(256, k - 1));
    }
  }

  /** Byte `k` of the integer lies at place `k`, or counted from the other end. */
  lemma ImageIs(v: nat, w: nat, little: bool, k: nat)
    requires k < w
    ensures Pow(256, k) > 0
    ensures Image(v, w, little)[if little then k else w - 1 - k] == v / Pow(256, k) % 256
  {
    LEAt(v, w, k);
    ReversedAt(LE(v, w), k);
  }

  /** Two's complement on `w` bytes. */
  function Unsigned(v: int, w: nat): nat
    requires 0 <= 2 * v + Pow(256, w) && 2 * v < Pow(256, w)
  {
    if v >= 0 then v else v + Pow(256, w)
  }

  lemma UnsignedIs(v: int, w: nat)
    requires 0 <= 2 * v + Pow(256, w) && 2 * v < Pow(256, w)
    ensures Pow(256, w) > 0 && Unsigned(v, w) == v % Pow(256, w)
  {
    var m := Pow(256, w);
    PowPositive(256, w);
    DivModUnique(v, m, if v >= 0 then 0 else -1, Unsigned(v, w));
  }

  function Signed(u: nat, w: nat): int {
    if 2 * u < Pow(256, w) then u else u - Pow(256, w)
  }

  // ---------- varints ----------

  /** Seven bits a byte, low bits first; every byte but the last has the high bit. */
  function VarBytes(v: nat): (s: seq<byte>)
    ensures |s| > 0
  {
    if v < 0x80 then [v] else [v % 0x80 + 0x80] + VarBytes(v / 0x80)
  }

  /** A varint takes at most `n` bytes exactly when it has at most 7n bits. */
  lemma {:induction false} VarLength(v: nat, n: nat)
    requires n > 0
    ensures |VarBytes(v)| <= n <==> v < Pow(0x80, n)
  {
    if n == 1 {
      assert Pow(0x80, 1) == 0x80 * Pow(0x80, 0);
    } else if v < 0x80 {
      PowPositive(0x80, n - 1);
    } else {
      VarLength(v / 0x80, n - 1);
      assert v < 0x80 * Pow(0x80, n - 1) <==> v / 0x80 < Pow(0x80, n - 1);
    }
  }

  lemma {:induction false} PowPositive(b: nat, e: nat)
    requires b > 0
    ensures Pow(b, e) > 0
  {
    if e > 0 {
      PowPositive(b, e - 1);
      MulMono(1, Pow(b, e - 1), b);
    }
  }

  /** A 32-bit value needs at most 5 bytes, a 64-bit value at most 10. */
  lemma VarWidths(v: nat)
    ensures v < 0x1_0000_0000 ==> |VarBytes(v)| <= 5
    ensures v < 0x1_0000_0000_0000_0000 ==> |VarBytes(v)| <= 10
  {
    VarLength(v, 5);
    VarLength(v, 10);
    assert Pow(0x80, 5) == 0x8_0000_0000;
    assert Pow(0x80, 10) == 0x80 * 0x80 * 0x80 * 0x80 * 0x80 * Pow(0x80, 5);
  }

  /** The seven low bits of `x` added at `scale`, in a `modulus`-sized integer. */
  function Accumulate(acc: nat, x: byte, scale: nat, modulus: nat): (r: nat)
    requires modulus > 0
  {
    Fit(acc + x % 0x80 * scale, modulus)
  }

  /** Truncation to a `modulus`-sized integer. */
  function Fit(x: nat, modulus: nat): (r: nat)
    requires modulus > 0
  {
    if x < modulus then x else x % modulus
  }

  /** The reading loop: at most `n` bytes, each adding seven bits at `scale`, in a
      `modulus`-sized integer. The value and the number of bytes taken, or None past the end. */
  function ParseVar(d: seq<byte>, n: nat, acc: nat, scale: nat, modulus: nat): (r: Option<(nat, nat)>)
    requires modulus > 0
    ensures r.Some? ==> r.value.1 <= |d|
    decreases n
  {
    if n == 0 then Some((acc, 0))
    else if d == [] then None
    else
      var acc' := Accumulate(acc, d[0], scale, modulus);
      if d[0] < 0x80 then Some((acc', 1))
      else
        match ParseVar(d[1..], n - 1, acc', scale * 0x80, modulus)
        case None => None
        case Some((v, k)) => Some((v, k + 1))
  }

  /** The integer whose seven-bit digits the bytes carry, low digits first. */
  function FromVar(s: seq<byte>): nat {
    if s == [] then 0 else s[0] % 0x80 + 0x80 * FromVar(s[1..])
  }

  /** Digit `k` of the integer is in byte `k`, which says whether another follows. */
  lemma {:induction false} VarIs(v: nat, k: nat)
    requires k < |VarBytes(v)|
    ensures Pow(0x80, k) > 0
    ensures VarBytes(v)[k] == v / Pow(0x80, k) % 0x80 + if k + 1 < |VarBytes(v)| then 0x80 else 0
  {
    if k > 0 {
      VarIs(v / 0x80, k - 1);
      DivDiv(v, 0x80, Pow(0x80, k - 1));
    }
  }

  /** The first `k` bytes are a varint: every one but the last has the high bit, and that has it only
      when it is the `n`th. */
  predicate Ends(d: seq<byte>, n: nat, k: nat) {
    && k <= |d| && k <= n && (k == 0 ==> n == 0) && (forall i :: 0 <= i < k - 1 ==> d[i] >= 0x80)
    && (0 < k < n ==> d[k - 1] < 0x80)
  }

  lemma EndsNext(d: seq<byte>, n: nat, k: nat)
    requires d != [] && n > 0 && d[0] >= 0x80 && Ends(d[1..], n - 1, k)
    ensures Ends(d, n, k + 1)
  {
    assert forall i :: 0 < i < |d| ==> d[i] == d[1..][i - 1];
  }

  lemma FromVarNext(d: seq<byte>, k: nat)
    requires k < |d|
    ensures FromVar(d[..k + 1]) == d[0] % 0x80 + 0x80 * FromVar(d[1..][..k])
  {
    assert d[..k + 1][1..] == d[1..][..k];
  }

  ghost predicate Parsed(d: seq<byte>, n: nat, acc: nat, scale: nat, modulus: nat)
    requires acc < modulus
  {
    match ParseVar(d, n, acc, scale, modulus)
    case None => |d| < n && forall i :: 0 <= i < |d| ==> d[i] >= 0x80
    case Some((v, k)) => Ends(d, n, k) && v == (acc + scale * FromVar(d[..k])) % modulus
  }

  lemma ParsedLast(d: seq<byte>, n: nat, acc: nat, scale: nat, modulus: nat)
    requires acc < modulus && n > 0 && d != [] && d[0] < 0x80
    ensures Parsed(d, n, acc, scale, modulus)
  {
    FromVarNext(d, 0);
    assert FromVar(d[..1]) == d[0] % 0x80;
    assert scale * (d[0] % 0x80) == d[0] % 0x80 * scale;
    assert ParseVar(d, n, acc, scale, modulus) == Some((Accumulate(acc, d[0], scale, modulus), 1));
    FitBelow(acc + d[0] % 0x80 * scale, modulus);
  }

  lemma ParsedMore(d: seq<byte>, n: nat, acc: nat, scale: nat, modulus: nat, acc': nat)
    requires acc < modulus && n > 0 && d != [] && d[0] >= 0x80 && acc' == Accumulate(acc, d[0], scale, modulus)
    requires acc' < modulus && Parsed(d[1..], n - 1, acc', scale * 0x80, modulus)
    ensures Parsed(d, n, acc, scale, modulus)
  {
    var rest := d[1..];
    match ParseVar(rest, n - 1, acc', scale * 0x80, modulus)
    case None =>
      assert forall i :: 0 < i < |d| ==> d[i] == rest[i - 1];
    case Some((v, k)) =>
      EndsNext(d, n, k);
      FromVarNext(d, k);
      Digits(acc, d[0] % 0x80, scale, FromVar(rest[..k]), modulus);
  }

  /** Of any bytes the reading loop takes those up to the first without the high bit, `n` at most, and
      returns their integer truncated; it runs out exactly if fewer than `n` are left and all have it. */
  lemma {:induction false} ParseIs(d: seq<byte>, n: nat, acc: nat, scale: nat, modulus: nat)
    requires acc < modulus
    ensures Parsed(d, n, acc, scale, modulus)
    decreases n
  {
    if n > 0 && d != [] {
      var acc' := Accumulate(acc, d[0], scale, modulus);
      FitBelow(acc + d[0] % 0x80 * scale, modulus);
      if d[0] < 0x80 {
        ParsedLast(d, n, acc, scale, modulus);
      } else {
        ParseIs(d[1..], n - 1, acc', scale * 0x80, modulus);
        ParsedMore(d, n, acc, scale, modulus, acc');
      }
    } else {
      ParsedNone(d, n, acc, scale, modulus);
    }
  }

  lemma ParsedNone(d: seq<byte>, n: nat, acc: nat, scale: nat, modulus: nat)
    requires acc < modulus && (n == 0 || d == [])
    ensures Parsed(d, n, acc, scale, modulus)
  {
    assert scale * FromVar(d[..0]) == 0;
    DivModUnique(acc, modulus, 0, acc);
  }

  lemma FitBelow(x: nat, m: nat)
    requires m > 0
    ensures Fit(x, m) == x % m < m
  {
    if x < m {
      DivModUnique(x, m, 0, x);
    }
  }

  /** Truncating after each digit is truncating the sum. */
  lemma Digits(acc: nat, digit: nat, scale: nat, rest: nat, modulus: nat)
    requires modulus > 0
    ensures 0 <= digit * scale && 0 <= scale * (digit + 0x80 * rest)
    ensures (Fit(acc + digit * scale, modulus) + scale * 0x80 * rest) % modulus ==
            (acc + scale * (digit + 0x80 * rest)) % modulus
  {
    MulMono(0, digit, scale);
    MulMono(0, rest, scale);
    var x, y := acc + digit * scale, scale * 0x80 * rest;
    assert scale * (digit + 0x80 * rest) == digit * scale + y;
    FitOnce(x, y, modulus);
  }

  lemma FitOnce(x: nat, y: nat, m: nat)
    requires m > 0
    ensures (Fit(x, m) + y) % m == (x + y) % m
  {
    var q, r := x / m, x % m;
    assert x == q * m + r;
    var q2, r2 := (r + y) / m, (r + y) % m;
    assert x + y == (q + q2) * m + r2;
    DivModUnique(x + y, m, q + q2, r2);
  }

  lemma LowDigit(v: nat, scale: nat)
    ensures v * scale == v % 0x80 * scale + v / 0x80 * (scale * 0x80)
    ensures 0 <= v % 0x80 * scale && 0 <= v / 0x80 * (scale * 0x80)
  {
    var hi, lo := v / 0x80, v % 0x80;
    assert v == hi * 0x80 + lo;
    assert hi * 0x80 * scale == hi * (scale * 0x80);
    MulMono(0, lo, scale);
    MulMono(0, hi, scale * 0x80);
  }

  /** Decoding takes exactly the encoded bytes, whatever follows, and inverts encoding. */
  lemma {:induction false} ParseInverts(v: nat, rest: seq<byte>, n: nat, acc: nat, scale: nat, modulus: nat)
    requires |VarBytes(v)| <= n && acc + v * scale < modulus
    ensures ParseVar(VarBytes(v) + rest, n, acc, scale, modulus) == Some((acc + v * scale, |VarBytes(v)|))
    decreases n
  {
    var d := VarBytes(v) + rest;
    LowDigit(v, scale);
    var hi, lo := v / 0x80, v % 0x80;
    assert d[0] % 0x80 == lo;
    if v < 0x80 {
      assert v == lo;
    } else {
      assert d[1..] == VarBytes(hi) + rest;
      ParseInverts(hi, rest, n - 1, acc + lo * scale, scale * 0x80, modulus);
    }
  }

  // ---------- zigzag ----------

  const U32: int := 0x1_0000_0000
  const U64: int := 0x1_0000_0000_0000_0000

  type int32 = x: int | -0x8000_0000 <= x < 0x8000_0000
  type int64 = x: int | -0x8000_0000_0000_0000 <= x < 0x8000_0000_0000_0000
  type uint32 = x: int | 0 <= x < 0x1_0000_0000
  type uint64 = x: int | 0 <= x < 0x1_0000_0000_0000_0000

  function Wrap32(x: int): int32 {
    if x % U32 < 0x8000_0000 then x % U32 else x % U32 - U32
  }

  function EncodeZigzag32(v: int32): uint32 {
    if v < 0 then ((0 - v) as int % U32 * 2 - 1) % U32 else v * 2 % U32
  }

  /** (v >> 1) ^ -(v & 1): an odd code complements the shifted bits. */
  function DecodeZigzag32(u: uint32): int32 {
    Wrap32(if u % 2 == 0 then u / 2 else U32 - 1 - u / 2)
  }

  /** Declared to return uint32_t: the 64-bit code loses its high half. */
  function EncodeZigzag64(v: int64): uint32 {
    (if v < 0 then ((0 - v) as int % U64 * 2 - 1) % U64 else v * 2 % U64) % U32
  }

  /** Declared to return int32_t. */
  function DecodeZigzag64(u: uint64): int32 {
    Wrap32(if u % 2 == 0 then u / 2 else U64 - 1 - u / 2)
  }

  /** Small magnitudes get small codes: the doubled value, or the odd code below it. */
  lemma Coded(v: int32)
    ensures EncodeZigzag32(v) == EncodeZigzag64(v) == if v >= 0 then 2 * v else -2 * v - 1
  {
    var n := if v < 0 then 0 - v as int else v;
    var code := if v < 0 then n * 2 - 1 else n * 2;
    Small(n);
    Small(code);
  }

  lemma Small(n: uint32)
    ensures n % U32 == n && n % U64 == n
  {
    DivModUnique(n, U32, 0, n);
    DivModUnique(n, U64, 0, n);
  }

  /** Halving a code and complementing an odd one. */
  lemma Decoded(u: uint32)
    ensures DecodeZigzag32(u) == DecodeZigzag64(u) == if u % 2 == 0 then u / 2 else -(u / 2) - 1
  {
    var h := u / 2;
    assert Wrap32(h) == h;
    assert Wrap32(U32 - 1 - h) == -h - 1;
    assert Wrap32(U64 - 1 - h) == -h - 1 by {
      DivModUnique(U64 - 1 - h, U32, U32 - 1, U32 - 1 - h);
    }
  }

  /** 32-bit zigzag is a bijection. */
  lemma Zigzag32(v: int32, u: uint32)
    ensures DecodeZigzag32(EncodeZigzag32(v)) == v
    ensures EncodeZigzag32(DecodeZigzag32(u)) == u
    ensures EncodeZigzag32(v) == if v >= 0 then 2 * v else -2 * v - 1
  {
    Coded(v);
    Decoded(EncodeZigzag32(v));
    Decoded(u);
    Coded(DecodeZigzag32(u));
  }

  /** The 64-bit pair as declared is inverse exactly on the 32-bit range. */
  lemma Zigzag64(v: int64)
    ensures DecodeZigzag64(EncodeZigzag64(v)) == v <==> -0x8000_0000 <= v < 0x8000_0000
    ensures EncodeZigzag64(v) == (if v >= 0 then 2 * v else -2 * v - 1) % 0x1_0000_0000
  {
    if v < 0 {
      var n: int := 0 - v as int;
      DivModUnique(n, U64, 0, n);
      DivModUnique(n * 2 - 1, U64, 0, n * 2 - 1);
    } else {
      DivModUnique(v * 2, U64, 0, v * 2);
    }
    if -0x8000_0000 <= v < 0x8000_0000 {
      Coded(v);
      Decoded(EncodeZigzag64(v));
    }
  }
}
