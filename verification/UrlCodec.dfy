/** Percent-encoding of byte strings: the lazily building loops, the plain
    per-character meaning, and when one undoes the other. */
module UrlCodec {
  import opened Basics

  type bytes = seq<byte>

  const SPACE: byte := 32
  const PERCENT: byte := 37
  const PLUS: byte := 43

  /** The bytes the encoder leaves alone: -.0-9=A-Z_a-z~ */
  predicate Unreserved(c: byte) {
    c in {45, 46, 61, 95, 126} || 48 <= c <= 57 || 65 <= c <= 90 || 97 <= c <= 122
  }

  function HexDigit(n: nat): byte
    requires n < 16
  {
    if n < 10 then 48 + n else 55 + n
  }

  predicate IsXDigit(c: byte) {
    48 <= c <= 57 || 65 <= c <= 70 || 97 <= c <= 102
  }

  function XValue(c: byte): (n: nat)
    requires IsXDigit(c)
    ensures n < 16
  {
    if c <= 57 then c - 48 else if c <= 70 then c - 55 else c - 87
  }

  function EncodeByte(c: byte, plus: bool): bytes {
    if Unreserved(c) then [c]
    else if c == SPACE && plus then [PLUS]
    else [PERCENT, HexDigit(c / 16), HexDigit(c % 16)]
  }

  function Encoded(s: bytes, plus: bool): bytes {
    if s == [] then [] else EncodeByte(s[0], plus) + Encoded(s[1..], plus)
  }

  predicate IsEscape(s: bytes) {
    |s| > 2 && s[0] == PERCENT && IsXDigit(s[1]) && IsXDigit(s[2])
  }

  function Decoded(s: bytes, plus: bool): bytes {
    if s == [] then []
    else if s[0] == PLUS && plus then [SPACE] + Decoded(s[1..], plus)
    else if IsEscape(s) then [XValue(s[1]) * 16 + XValue(s[2])] + Decoded(s[3..], plus)
    else [s[0]] + Decoded(s[1..], plus)
  }

  lemma {:induction false} EncodedSnoc(s: bytes, c: byte, plus: bool)
    ensures Encoded(s + [c], plus) == Encoded(s, plus) + EncodeByte(c, plus)
  {
    if s == [] {
      assert s + [c] == [c];
    } else {
      assert (s + [c])[1..] == s[1..] + [c];
      EncodedSnoc(s[1..], c, plus);
    }
  }

  /** The encoder: the output string is created at the first byte that needs escaping. */
  method UrlEncode(str: bytes, plus: bool) returns (rt: bytes)
    ensures rt == Encoded(str, plus)
  {
    var ss: Option<bytes> := None;
    var c := 0;
    while c < |str|
      invariant 0 <= c <= |str|
      invariant Encoded(str[..c], plus) == if ss.None? then str[..c] else ss.value
    {
      EncodedSnoc(str[..c], str[c], plus);
      assert str[..c + 1] == str[..c] + [str[c]];
      if !Unreserved(str[c]) {
        if ss.None? {
          ss := Some(str[..c]);
        }
        if str[c] == SPACE && plus {
          ss := Some(ss.value + [PLUS]);
        } else {
          ss := Some(ss.value + [PERCENT] + [HexDigit(str[c] / 16)] + [HexDigit(str[c] % 16)]);
        }
      } else if ss.Some? {
        ss := Some(ss.value + [str[c]]);
      }
      c := c + 1;
    }
    assert str[..c] == str;
    if ss.None? {
      return str;
    } else {
      return ss.value;
    }
  }

  /** The decoder, building its output the same way. */
  method UrlDecode(str: bytes, plus: bool) returns (rt: bytes)
    ensures rt == Decoded(str, plus)
  {
    var ss: Option<bytes> := None;
    var c := 0;
    ghost var out: bytes := [];
    assert str[0..] == str;
    while c < |str|
      invariant 0 <= c <= |str|
      invariant out == if ss.None? then str[..c] else ss.value
      invariant Decoded(str, plus) == out + Decoded(str[c..], plus)
    {
      DecodedStep(str, c, plus, out);
      if str[c] == PLUS && plus {
        if ss.None? {
          ss := Some(str[..c]);
        }
        ss := Some(ss.value + [SPACE]);
        out := out + [SPACE];
      } else if str[c] == PERCENT && c + 2 < |str| && IsXDigit(str[c + 1]) && IsXDigit(str[c + 2]) {
        if ss.None? {
          ss := Some(str[..c]);
        }
        ss := Some(ss.value + [XValue(str[c + 1]) * 16 + XValue(str[c + 2])]);
        out := out + [XValue(str[c + 1]) * 16 + XValue(str[c + 2])];
        c := c + 2;
      } else {
        if ss.Some? {
          ss := Some(ss.value + [str[c]]);
        }
        out := out + [str[c]];
      }
      c := c + 1;
    }
    assert str[..c] == str && str[c..] == [];
    if ss.None? {
      return str;
    } else {
      return ss.value;
    }
  }

  /** One unfolding of the decoding at position `c`, with the output so far in front. */
  lemma DecodedStep(str: bytes, c: nat, plus: bool, out: bytes)
    requires c < |str|
    ensures out + Decoded(str[c..], plus) ==
            if str[c] == PLUS && plus then (out + [SPACE]) + Decoded(str[c + 1..], plus)
            else if str[c] == PERCENT && c + 2 < |str| && IsXDigit(str[c + 1]) && IsXDigit(str[c + 2])
            then (out + [XValue(str[c + 1]) * 16 + XValue(str[c + 2])]) + Decoded(str[c + 3..], plus)
            else (out + [str[c]]) + Decoded(str[c + 1..], plus)
  {
    assert str[c..][1..] == str[c + 1..];
    assert c + 2 < |str| ==> str[c..][3..] == str[c + 3..];
  }

  // ---------- what the digits and the table are ----------

  const UPPER: string := "0123456789ABCDEF"
  const LOWER: string := "0123456789abcdef"
  const DIGITS: string := "0123456789"
  const CAPITALS: string := "ABCDEFGHIJKLMNOPQRSTUVWXYZ"
  const SMALLS: string := "abcdefghijklmnopqrstuvwxyz"
  const LEFT_ALONE: string := "-._~=" + DIGITS + CAPITALS + SMALLS

  /** The byte is a hex digit of value `n`, in either case. */
  predicate Spells(x: byte, n: nat)
    requires n < 16
  {
    x as char == UPPER[n] || x as char == LOWER[n]
  }

  lemma DigitIs(x: byte, n: nat)
    requires n < 16
    ensures Spells(x, n) <==> IsXDigit(x) && XValue(x) == n
  {
  }

  /** An escape decodes to the byte whose two digits it spells, in whatever case. */
  lemma DecodesEscape(c: byte, high: byte, low: byte, rest: bytes, plus: bool)
    requires Spells(high, c / 16) && Spells(low, c % 16)
    ensures Decoded([PERCENT, high, low] + rest, plus) == [c] + Decoded(rest, plus)
  {
    DigitIs(high, c / 16);
    DigitIs(low, c % 16);
    assert ([PERCENT, high, low] + rest)[3..] == rest;
  }

  lemma HexIs(x: byte)
    ensures IsXDigit(x) <==> x as char in UPPER || x as char in LOWER
  {
    if IsXDigit(x) {
      DigitIs(x, XValue(x));
    }
    forall n: nat | n < 16
      ensures UPPER[n] == x as char || LOWER[n] == x as char ==> IsXDigit(x)
    {
      DigitIs(x, n);
    }
  }

  /** An escape starts at `k`. */
  predicate EscapeAt(s: bytes, k: nat) {
    && k + 2 < |s| && s[k] as char == '%'
    && (s[k + 1] as char in UPPER || s[k + 1] as char in LOWER)
    && (s[k + 2] as char in UPPER || s[k + 2] as char in LOWER)
  }

  lemma EscapeAtIs(s: bytes, k: nat)
    requires k < |s|
    ensures EscapeAt(s, k) <==> IsEscape(s[k..])
  {
    if k + 2 < |s| {
      var t := s[k..];
      assert t[0] == s[k] && t[1] == s[k + 1] && t[2] == s[k + 2];
      HexIs(t[1]);
      HexIs(t[2]);
    }
  }

  /** Decoding returns its argument exactly when there is no escape in it and no plus sign that stands
      for a space. */
  lemma {:induction false} DecodedIsIdentity(s: bytes, plus: bool)
    ensures |Decoded(s, plus)| <= |s|
    ensures Decoded(s, plus) == s <==>
            forall k :: 0 <= k < |s| ==> !EscapeAt(s, k) && !(plus && s[k] as char == '+')
  {
    if s != [] {
      EscapeAtIs(s, 0);
      if IsEscape(s) {
        DecodedIsIdentity(s[3..], plus);
      } else {
        DecodedIsIdentity(s[1..], plus);
        assert s == [s[0]] + s[1..];
        forall k | 0 <= k < |s| - 1
          ensures EscapeAt(s[1..], k) <==> EscapeAt(s, k + 1)
        {
        }
      }
    }
  }

  lemma LettersAre(i: nat)
    ensures |CAPITALS| == |SMALLS| == 26
    ensures i < 26 ==> CAPITALS[i] as int == 65 + i && SMALLS[i] as int == 97 + i
  {
  }

  lemma TableIs(c: byte)
    ensures Unreserved(c) <==> c as char in LEFT_ALONE
  {
    forall i: nat
      ensures i < 26 ==> CAPITALS[i] as int == 65 + i && SMALLS[i] as int == 97 + i
    {
      LettersAre(i);
    }
    assert forall i :: 0 <= i < |DIGITS| ==> DIGITS[i] as int == 48 + i;
    assert c as char in "-._~=" <==> c in {45, 46, 61, 95, 126};
    assert c as char in DIGITS <==> 48 <= c <= 57 by {
      assert 48 <= c <= 57 ==> DIGITS[c - 48] == c as char;
    }
    assert c as char in CAPITALS <==> 65 <= c <= 90 by {
      assert 65 <= c <= 90 ==> CAPITALS[c - 65] == c as char;
    }
    assert c as char in SMALLS <==> 97 <= c <= 122 by {
      assert 97 <= c <= 122 ==> SMALLS[c - 97] == c as char;
    }
  }

  /** The encoder leaves the bytes of the table alone and writes every other as an escape with
      upper-case digits, a space as a plus sign if asked to. */
  lemma EncodedByteIs(c: byte, plus: bool)
    ensures Unreserved(c) <==> c as char in LEFT_ALONE
    ensures Encoded([c], plus) ==
            if c as char in LEFT_ALONE then [c]
            else if c as char == ' ' && plus then ['+' as int]
            else ['%' as int, UPPER[c / 16] as int, UPPER[c % 16] as int]
  {
    assert Encoded([c], plus) == EncodeByte(c, plus) + [];
    TableIs(c);
  }

  lemma HexInverse(c: byte)
    ensures IsXDigit(HexDigit(c / 16)) && IsXDigit(HexDigit(c % 16))
    ensures XValue(HexDigit(c / 16)) * 16 + XValue(HexDigit(c % 16)) == c
  {
  }

  /** Decoding the encoding of one byte in front of anything. */
  lemma DecodeFront(c: byte, rest: bytes, from: bool, to: bool)
    ensures Decoded(EncodeByte(c, from) + rest, to) ==
            [if c == SPACE && from && !to then PLUS else c] + Decoded(rest, to)
  {
    var s := EncodeByte(c, from) + rest;
    if |EncodeByte(c, from)| == 1 {
      assert s[1..] == rest;
    } else {
      HexInverse(c);
      assert s[3..] == rest;
    }
  }

  /** Decoding undoes encoding for every byte string, except that a string with a space
      encoded with plus signs has to be decoded with plus signs. */
  lemma {:induction false} DecodeInvertsEncode(s: bytes, from: bool, to: bool)
    ensures Decoded(Encoded(s, from), to) == s <==> !(from && !to && SPACE in s)
    ensures |Decoded(Encoded(s, from), to)| == |s|
  {
    if s != [] {
      DecodeFront(s[0], Encoded(s[1..], from), from, to);
      DecodeInvertsEncode(s[1..], from, to);
      assert s == [s[0]] + s[1..];
    }
  }

  /** The encoder's output alphabet: a separator outside it never appears in encoded text. */
  lemma {:induction false} EncodedAlphabet(s: bytes, plus: bool)
    ensures forall c :: c in Encoded(s, plus) ==> Unreserved(c) || c == PERCENT || (c == PLUS && plus)
  {
    if s != [] {
      EncodedAlphabet(s[1..], plus);
    }
  }

  /** Encoding returns its argument exactly when there is nothing to escape. */
  lemma {:induction false} EncodedIsIdentity(s: bytes, plus: bool)
    ensures |Encoded(s, plus)| >= |s|
    ensures Encoded(s, plus) == s <==> forall k :: 0 <= k < |s| ==> Unreserved(s[k])
  {
    if s != [] {
      EncodedIsIdentity(s[1..], plus);
      assert s == [s[0]] + s[1..];
      if Encoded(s, plus) == s {
        assert |EncodeByte(s[0], plus)| == 1 && Encoded(s[1..], plus) == s[1..];
        assert EncodeByte(s[0], plus) == [s[0]];
        forall k | 0 <= k < |s|
          ensures Unreserved(s[k])
        {
          assert k > 0 ==> s[k] == s[1..][k - 1];
        }
      }
      assert forall k :: 0 <= k < |s[1..]| ==> s[1..][k] == s[k + 1];
    }
  }

  // ---------- trimming ----------

  predicate IsBlank(c: byte) { c in {32, 9, 13, 10} }

  /** find_first_not_of, as the number of leading blanks. */
  function Leading(s: bytes): (n: nat)
    ensures n <= |s|
  {
    if s != [] && IsBlank(s[0]) then 1 + Leading(s[1..]) else 0
  }

  /** find_last_not_of + 1, or 0 when there is none. */
  function LastInk(s: bytes): (n: nat)
    ensures n <= |s|
  {
    if s == [] then 0 else if IsBlank(s[|s| - 1]) then LastInk(s[..|s| - 1]) else |s|
  }

  function Trim(s: bytes): bytes {
    if Leading(s) == |s| then [] else if Leading(s) <= LastInk(s) then s[Leading(s)..LastInk(s)] else []
  }

  /** As coded: the substring stops before the last character that is not a delimiter. */
  function TrimRight(s: bytes): bytes {
    if LastInk(s) == 0 then [] else s[..LastInk(s) - 1]
  }

  lemma {:induction false} LeadingIs(s: bytes)
    ensures forall k :: 0 <= k < Leading(s) ==> IsBlank(s[k])
    ensures Leading(s) < |s| ==> !IsBlank(s[Leading(s)])
  {
    if s != [] && IsBlank(s[0]) {
      LeadingIs(s[1..]);
      assert forall k :: 1 <= k < |s| ==> s[k] == s[1..][k - 1];
    }
  }

  lemma {:induction false} LastInkIs(s: bytes)
    ensures forall k :: LastInk(s) <= k < |s| ==> IsBlank(s[k])
    ensures LastInk(s) > 0 ==> !IsBlank(s[LastInk(s) - 1])
  {
    if s != [] && IsBlank(s[|s| - 1]) {
      LastInkIs(s[..|s| - 1]);
      assert forall k :: 0 <= k < |s| - 1 ==> s[k] == s[..|s| - 1][k];
    }
  }

  const BLANKS: string := " \t\r\n"

  lemma BlankIs()
    ensures forall c: byte :: IsBlank(c) <==> c as char in BLANKS
  {
    assert BLANKS[0] == ' ' && BLANKS[1] == '\t' && BLANKS[2] == '\r' && BLANKS[3] == '\n';
    forall c: byte
      ensures IsBlank(c) <==> c as char in BLANKS
    {
      if IsBlank(c) {
        assert BLANKS[if c == 32 then 0 else if c == 9 then 1 else if c == 13 then 2 else 3] == c as char;
      }
    }
  }

  predicate Blank(s: bytes) {
    forall k :: 0 <= k < |s| ==> s[k] as char in BLANKS
  }

  /** Nothing, or a text with a character other than a blank at each end. */
  predicate Inked(s: bytes) {
    s == [] || (s[0] as char !in BLANKS && s[|s| - 1] as char !in BLANKS)
  }

  /** Trimming removes exactly the blanks put around a text without blanks at its ends. */
  lemma TrimRecovers(left: bytes, text: bytes, right: bytes)
    requires Blank(left) && Blank(right) && Inked(text)
    ensures Trim(left + text + right) == text
  {
    BlankIs();
    var s := left + text + right;
    LeadingIs(s);
    LastInkIs(s);
    assert forall k :: 0 <= k < |left| ==> s[k] == left[k];
    assert forall k :: 0 <= k < |text| ==> s[|left| + k] == text[k];
    assert forall k :: |left| + |text| <= k < |s| ==> s[k] == right[k - |left| - |text|];
    if text != [] {
      assert !IsBlank(s[|left|]) && !IsBlank(s[|left| + |text| - 1]);
    }
  }

  /** TrimRight does not give back what it should of a text followed by blanks: it drops the text's last
      character as well, so that it is right only when there is no text. */
  lemma TrimRightShort(text: bytes, right: bytes)
    requires Blank(right) && (text != [] ==> text[|text| - 1] as char !in BLANKS)
    ensures TrimRight(text + right) == if text == [] then [] else text[..|text| - 1]
    ensures TrimRight(text + right) == text <==> Blank(text + right)
  {
    BlankIs();
    var s := text + right;
    LastInkIs(s);
    assert forall k :: |text| <= k < |s| ==> s[k] == right[k - |text|];
    if text != [] {
      assert s[|text| - 1] == text[|text| - 1];
      assert s[..|text| - 1] == text[..|text| - 1];
    }
  }
}
