/** The bytes on the wire: what each typed write stores, place by place. */
module Layout {
  import opened Basics
  import opened Codec
  import opened TypedBuffer

  /** The `w` bytes of an integer, the least significant first or last. */
  ghost predicate Fixed(b: seq<byte>, v: nat, w: nat, little: bool) {
    && |b| == w
    && forall k: nat :: k < w ==> Pow(256, k) > 0 && b[if little then k else w - 1 - k] == v / Pow(256, k) % 256
  }

  /** The seven-bit digits of an integer, the least significant first, with nothing missing or in vain; the
      high bit of a byte says that another follows. */
  ghost predicate Varint(b: seq<byte>, v: nat) {
    && |b| > 0 && v < Pow(0x80, |b|) && (|b| > 1 ==> Pow(0x80, |b| - 1) <= v)
    && forall k: nat :: k < |b| ==>
                          Pow(0x80, k) > 0 && b[k] == v / Pow(0x80, k) % 0x80 + if k + 1 < |b| then 0x80 else 0
  }

  lemma ImageFixed(v: nat, w: nat, little: bool)
    ensures Fixed(Image(v, w, little), v, w, little)
  {
    forall k: nat | k < w
      ensures Pow(256, k) > 0 && Image(v, w, little)[if little then k else w - 1 - k] == v / Pow(256, k) % 256
    {
      ImageIs(v, w, little, k);
    }
  }

  lemma BytesVarint(v: nat)
    ensures Varint(VarBytes(v), v)
  {
    var b := VarBytes(v);
    VarLength(v, |b|);
    if |b| > 1 {
      VarLength(v, |b| - 1);
    }
    forall k: nat | k < |b|
      ensures Pow(0x80, k) > 0 && b[k] == v / Pow(0x80, k) % 0x80 + if k + 1 < |b| then 0x80 else 0
    {
      VarIs(v, k);
    }
  }

  /** What each typed write stores: integers of their width, two's complement for signed ones; varints,
      for signed values of the doubled value or of twice the magnitude less one; and strings behind their
      length in 2, 4 or 8 bytes, cut down to that, or in a varint. */
  ghost predicate Stores(item: Item, b: seq<byte>, little: bool) {
    match item
    case Fuint(w, u) => Fixed(b, u, w, little)
    case Fint(w, i) => Pow(256, w) > 0 && Fixed(b, i % Pow(256, w), w, little)
    case Uint32(v) => Varint(b, v)
    case Uint64(v) => Varint(b, v)
    case Int32(i) => Varint(b, if i >= 0 then 2 * i else -2 * i - 1)
    case Int64(i) => Varint(b, (if i >= 0 then 2 * i else -2 * i - 1) % 0x1_0000_0000)
    case Str(p, s) =>
      |s| <= |b| && b[|b| - |s|..] == s &&
      var lead := b[..|b| - |s|];
      match p
      case F16 => Fixed(lead, |s| % 0x1_0000, 2, little)
      case F32 => Fixed(lead, |s| % 0x1_0000_0000, 4, little)
      case F64 => Fixed(lead, |s|, 8, little)
      case Vint => Varint(lead, |s|)
  }

  lemma BytesAre(item: Item, little: bool)
    requires Fits(item)
    ensures Stores(item, Bytes(item, little), little)
  {
    match item
    case Fuint(w, u) => ImageFixed(u, w, little);
    case Fint(w, i) =>
      UnsignedIs(i, w);
      ImageFixed(Unsigned(i, w), w, little);
    case Uint32(v) => BytesVarint(v);
    case Uint64(v) => BytesVarint(v);
    case Int32(i) =>
      Zigzag32(i, 0);
      BytesVarint(EncodeZigzag32(i));
    case Int64(i) =>
      Zigzag64(i);
      BytesVarint(EncodeZigzag64(i));
    case Str(p, s) =>
      var lead := Lead(p, |s|, little);
      assert (lead + s)[..|lead|] == lead && (lead + s)[|lead|..] == s;
      match p {
        case F16 => ImageFixed(|s| % 0x1_0000, 2, little);
        case F32 => ImageFixed(|s| % 0x1_0000_0000, 4, little);
        case F64 => ImageFixed(|s|, 8, little);
        case Vint => BytesVarint(|s|);
      }
  }
}
