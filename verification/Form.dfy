/** The key=value scanner behind query strings, form bodies and cookies, and the
    request object that runs it at most once per source. */
module Form {
  import opened Basics
  import opened UrlCodec

  const EQUALS: byte := '=' as int
  const AMPERSAND: byte := '&' as int
  const SEMICOLON: byte := ';' as int

  /** A parameter keeps the key as it was first written. */
  datatype Param = Param(key: bytes, value: bytes)

  /** A std::map ordered by strcasecmp: one entry per folded key. */
  type Params = map<bytes, Param>

  function Lower(c: byte): byte {
    if 65 <= c <= 90 then c + 32 else c
  }

  /** What strcasecmp sees of a key: lower case, up to the first NUL. */
  function Fold(k: bytes): bytes {
    if k == [] || k[0] == 0 then [] else [Lower(k[0])] + Fold(k[1..])
  }

  /** The length of a key as a C string. */
  function CLength(k: bytes): (n: nat)
    ensures n <= |k|
  {
    if k == [] || k[0] == 0 then 0 else 1 + CLength(k[1..])
  }

  predicate SameLetter(a: byte, b: byte) {
    || a == b
    || exists i ::
         && 0 <= i < |CAPITALS|
         && (|| (a as char == CAPITALS[i] && b as char == SMALLS[i])
             || (a as char == SMALLS[i] && b as char == CAPITALS[i]))
  }

  /** The same C string but for the case of letters. */
  predicate SameKey(k: bytes, k': bytes) {
    CLength(k) == CLength(k') && forall i :: 0 <= i < CLength(k) ==> SameLetter(k[i], k'[i])
  }

  lemma LowerIs(a: byte, b: byte)
    ensures Lower(a) == Lower(b) <==> SameLetter(a, b)
  {
    forall i: nat
      ensures i < 26 ==> CAPITALS[i] as int == 65 + i && SMALLS[i] as int == 97 + i
    {
      LettersAre(i);
    }
    if Lower(a) == Lower(b) && a != b {
      assert CAPITALS[Lower(a) - 97] as int == Lower(a) - 32;
    }
  }

  /** Keys that differ at most in the case of letters, and behind a NUL, fold to the same. */
  lemma {:induction false} FoldIs(k: bytes, k': bytes)
    ensures |Fold(k)| == CLength(k)
    ensures Fold(k) == Fold(k') <==> SameKey(k, k')
  {
    FoldLength(k);
    FoldLength(k');
    if CLength(k) > 0 && CLength(k') > 0 {
      FoldIs(k[1..], k'[1..]);
      LowerIs(k[0], k'[0]);
      assert Fold(k) == Fold(k') <==> Lower(k[0]) == Lower(k'[0]) && Fold(k[1..]) == Fold(k'[1..]) by {
        assert Fold(k)[0] == Lower(k[0]) && Fold(k)[1..] == Fold(k[1..]);
        assert Fold(k')[0] == Lower(k'[0]) && Fold(k')[1..] == Fold(k'[1..]);
      }
      assert SameKey(k, k') <==> SameLetter(k[0], k'[0]) && SameKey(k[1..], k'[1..]) by {
        assert forall i :: 0 < i < CLength(k) ==> k[i] == k[1..][i - 1];
        assert forall i :: 0 < i < CLength(k') ==> k'[i] == k'[1..][i - 1];
      }
    }
  }

  lemma {:induction false} FoldLength(k: bytes)
    ensures |Fold(k)| == CLength(k)
  {
    if k != [] && k[0] != 0 {
      FoldLength(k[1..]);
    }
  }

  /** std::string::find from a position inside the string. */
  function Find(s: bytes, c: byte, from: nat): (r: Option<nat>)
    requires from <= |s|
    ensures r.Some? ==> from <= r.value < |s| && s[r.value] == c
    decreases |s| - from
  {
    if from == |s| then None else if s[from] == c then Some(from) else Find(s, c, from + 1)
  }

  /** The pairs of a text: up to the next '=' is the key, up to the separator after it the value. */
  function Pairs(s: bytes, flag: byte, from: nat): (r: seq<(bytes, bytes)>)
    requires from <= |s| && flag != EQUALS
    decreases |s| - from
  {
    match Find(s, EQUALS, from)
    case None => []
    case Some(e) =>
      match Find(s, flag, e)
      case None => [(s[from..e], s[e + 1..])]
      case Some(f) => [(s[from..e], s[e + 1..f])] + Pairs(s, flag, f + 1)
  }

  /** One unfolding of the scan, the two searches given. */
  lemma PairsStep(s: bytes, flag: byte, from: nat, e: nat, sep: Option<nat>)
    requires from <= |s| && flag != EQUALS && Find(s, EQUALS, from) == Some(e) && Find(s, flag, e) == sep
    ensures from <= e < |s| && (sep.Some? ==> e < sep.value < |s|)
    ensures Pairs(s, flag, from) ==
            if sep.Some? then [(s[from..e], s[e + 1..sep.value])] + Pairs(s, flag, sep.value + 1)
            else [(s[from..e], s[e + 1..])]
  {
  }

  function TrimKey(k: bytes, trim: bool): bytes {
    if trim then Trim(k) else k
  }

  /** std::map::insert: an existing entry stays. */
  function Insert(m: Params, k: bytes, v: bytes): Params {
    if Fold(k) in m then m else m[Fold(k) := Param(k, v)]
  }

  /** Inserting the scanned pairs, keys trimmed and values decoded. */
  function InsertAll(m: Params, ps: seq<(bytes, bytes)>, trim: bool): Params
    decreases |ps|
  {
    if ps == [] then m
    else InsertAll(Insert(m, TrimKey(ps[0].0, trim), Decoded(ps[0].1, true)), ps[1..], trim)
  }

  lemma InsertCons(m: Params, k: bytes, v: bytes, rest: seq<(bytes, bytes)>, trim: bool)
    ensures InsertAll(m, [(k, v)] + rest, trim) == InsertAll(Insert(m, TrimKey(k, trim), Decoded(v, true)), rest, trim)
  {
    assert ([(k, v)] + rest)[1..] == rest;
  }

  /** The pairs from a place on, if there is one. */
  function PairsFrom(str: bytes, flag: byte, from: Option<nat>): seq<(bytes, bytes)>
    requires flag != EQUALS && (from.Some? ==> from.value <= |str|)
  {
    if from.Some? then Pairs(str, flag, from.value) else []
  }

  /** One round of the scan: the pair up to the separator goes into the map; where the next one starts. */
  method ParsePair(str: bytes, m: Params, flag: byte, trim: bool, last: nat, key: nat)
    returns (m': Params, next: Option<nat>)
    requires last <= |str| && flag != EQUALS && Find(str, EQUALS, last) == Some(key)
    ensures next.Some? ==> last < next.value <= |str|
    ensures InsertAll(m, Pairs(str, flag, last), trim) == InsertAll(m', PairsFrom(str, flag, next), trim)
  {
    var sep := Find(str, flag, key);
    var raw := if sep.Some? then str[key + 1..sep.value] else str[key + 1..];
    var value := UrlDecode(raw, true);
    m' := Insert(m, TrimKey(str[last..key], trim), value);
    next := if sep.Some? then Some(sep.value + 1) else None;
    PairsStep(str, flag, last, key, sep);
    InsertCons(m, str[last..key], raw, PairsFrom(str, flag, next), trim);
  }

  /** PARSE_PARAM: the scanning loop. */
  method ParseParam(str: bytes, m0: Params, flag: byte, trim: bool) returns (m: Params)
    requires flag != EQUALS
    ensures m == InsertAll(m0, Pairs(str, flag, 0), trim)
  {
    m := m0;
    ghost var result := InsertAll(m0, Pairs(str, flag, 0), trim);
    var pos: nat := 0;
    while true
      invariant pos <= |str| && InsertAll(m, Pairs(str, flag, pos), trim) == result
      decreases |str| - pos
    {
      var eq := Find(str, EQUALS, pos);
      if eq.None? {
        break;
      }
      var next;
      m, next := ParsePair(str, m, flag, trim, pos, eq.value);
      if next.None? {
        break;
      }
      pos := next.value;
    }
  }

  // ---------- what a joined list of pairs gives ----------

  function Pair(p: (bytes, bytes), plus: bool): bytes {
    p.0 + [EQUALS] + Encoded(p.1, plus)
  }

  /** The form a client sends: k=encode(v), joined by the separator. */
  function Join(ps: seq<(bytes, bytes)>, flag: byte, plus: bool): bytes {
    if ps == [] then []
    else if |ps| == 1 then Pair(ps[0], plus)
    else Pair(ps[0], plus) + [flag] + Join(ps[1..], flag, plus)
  }

  lemma {:induction false} FindFirst(s: bytes, c: byte, from: nat, at: nat)
    requires from <= at < |s| && s[at] == c && forall j :: from <= j < at ==> s[j] != c
    ensures Find(s, c, from) == Some(at)
    decreases at - from
  {
    if from < at {
      FindFirst(s, c, from + 1, at);
    }
  }

  lemma {:induction false} FindNone(s: bytes, c: byte, from: nat)
    requires from <= |s| && forall j :: from <= j < |s| ==> s[j] != c
    ensures Find(s, c, from) == None
    decreases |s| - from
  {
    if from < |s| {
      FindNone(s, c, from + 1);
    }
  }

  lemma Absent(s: bytes, c: byte, from: nat, to: nat)
    requires from <= to <= |s| && c !in s[from..to]
    ensures forall j :: from <= j < to ==> s[j] != c
  {
    assert forall j :: from <= j < to ==> s[j] == s[from..to][j - from];
  }

  /** One pair of the scan, by the places of its '=' and its separator. */
  lemma PairAt(s: bytes, flag: byte, from: nat, e: nat, f: nat)
    requires from <= e < f < |s| && flag != EQUALS && s[e] == EQUALS && s[f] == flag
    requires EQUALS !in s[from..e] && flag !in s[e + 1..f]
    ensures Pairs(s, flag, from) == [(s[from..e], s[e + 1..f])] + Pairs(s, flag, f + 1)
  {
    Absent(s, EQUALS, from, e);
    Absent(s, flag, e + 1, f);
    FindFirst(s, EQUALS, from, e);
    FindFirst(s, flag, e, f);
    PairsStep(s, flag, from, e, Some(f));
  }

  /** A pair in front of a separator is scanned as that pair. */
  lemma PairNext(s: bytes, from: nat, next: nat, k: bytes, v: bytes, flag: byte, tail: seq<(bytes, bytes)>)
    requires flag != EQUALS && EQUALS !in k && flag !in v && next == from + |k| + |v| + 2 <= |s|
    requires s[from..from + |k|] == k && s[from + |k|] == EQUALS
    requires s[from + |k| + 1..from + |k| + 1 + |v|] == v && s[from + |k| + 1 + |v|] == flag
    requires Pairs(s, flag, next) == tail
    ensures Pairs(s, flag, from) == [(k, v)] + tail
  {
    PairAt(s, flag, from, from + |k|, from + |k| + 1 + |v|);
  }

  /** A pair with no separator behind it is the last one. */
  lemma PairLast(s: bytes, from: nat, k: bytes, v: bytes, flag: byte)
    requires flag != EQUALS && EQUALS !in k && flag !in v && from + |k| + |v| + 1 == |s|
    requires s[from..from + |k|] == k && s[from + |k|] == EQUALS && s[from + |k| + 1..] == v
    ensures Pairs(s, flag, from) == [(k, v)]
  {
    var e := from + |k|;
    Absent(s, EQUALS, from, e);
    Absent(s, flag, e + 1, |s|);
    FindFirst(s, EQUALS, from, e);
    FindNone(s, flag, e);
    PairsStep(s, flag, from, e, None);
  }

  /** Where the parts of a text that continues with a pair lie. */
  lemma Parts(s: bytes, from: nat, k: bytes, v: bytes, rest: bytes)
    requires from <= |s| && s[from..] == k + [EQUALS] + v + rest
    ensures from + |k| + 1 + |v| <= |s|
    ensures s[from..from + |k|] == k && s[from + |k|] == EQUALS
    ensures s[from + |k| + 1..from + |k| + 1 + |v|] == v && s[from + |k| + 1 + |v|..] == rest
  {
    var t, e, f := s[from..], |k|, |k| + 1 + |v|;
    assert t[..e] == s[from..from + e] && t[e] == s[from + e];
    assert t[e + 1..f] == s[from + e + 1..from + f] && t[f..] == s[from + f..];
  }

  /** The pairs as they travel, the values encoded. */
  function Sent(ps: seq<(bytes, bytes)>, plus: bool): (r: seq<(bytes, bytes)>)
    ensures |r| == |ps|
  {
    if ps == [] then [] else [(ps[0].0, Encoded(ps[0].1, plus))] + Sent(ps[1..], plus)
  }

  /** Scanning a joined text finds the pairs: keys may hold anything but '=', values
      anything at all, because the encoder never emits the separator. */
  lemma {:induction false} PairsOfJoin(s: bytes, from: nat, ps: seq<(bytes, bytes)>, flag: byte, plus: bool)
    requires flag != EQUALS && !Unreserved(flag) && flag != PERCENT && flag != PLUS
    requires forall p :: p in ps ==> EQUALS !in p.0
    requires from <= |s| && s[from..] == Join(ps, flag, plus)
    ensures Pairs(s, flag, from) == Sent(ps, plus)
    decreases |ps|
  {
    if ps == [] {
      FindNone(s, EQUALS, from);
      return;
    }
    var k, v := ps[0].0, Encoded(ps[0].1, plus);
    EncodedAlphabet(ps[0].1, plus);
    assert Sent(ps, plus) == [(k, v)] + Sent(ps[1..], plus);
    if |ps| == 1 {
      assert s[from..] == k + [EQUALS] + v + [];
      Parts(s, from, k, v, []);
      PairLast(s, from, k, v, flag);
      assert Sent(ps[1..], plus) == [];
    } else {
      var next := from + |k| + |v| + 2;
      var rest := [flag] + Join(ps[1..], flag, plus);
      assert s[from..] == k + [EQUALS] + v + rest;
      Parts(s, from, k, v, rest);
      assert s[next - 1] == rest[0] && s[next..] == rest[1..] == Join(ps[1..], flag, plus);
      PairsOfJoin(s, next, ps[1..], flag, plus);
      PairNext(s, from, next, k, v, flag, Sent(ps[1..], plus));
    }
  }

  /** Inserting plain pairs, the values as they are. */
  function Keep(m: Params, ps: seq<(bytes, bytes)>, trim: bool): Params
    decreases |ps|
  {
    if ps == [] then m else Keep(Insert(m, TrimKey(ps[0].0, trim), ps[0].1), ps[1..], trim)
  }

  lemma {:induction false} InsertSent(m: Params, ps: seq<(bytes, bytes)>, plus: bool, trim: bool)
    ensures InsertAll(m, Sent(ps, plus), trim) == Keep(m, ps, trim)
    decreases |ps|
  {
    if ps != [] {
      DecodeInvertsEncode(ps[0].1, plus, true);
      InsertCons(m, ps[0].0, Encoded(ps[0].1, plus), Sent(ps[1..], plus), trim);
      InsertSent(Insert(m, TrimKey(ps[0].0, trim), ps[0].1), ps[1..], plus, trim);
    }
  }

  /** The value found for `key`: the one already there, or the first pair with that key. */
  function FirstValue(m: Params, ps: seq<(bytes, bytes)>, trim: bool, key: bytes): Option<bytes> {
    if Fold(key) in m then Some(m[Fold(key)].value)
    else if ps == [] then None
    else if Fold(TrimKey(ps[0].0, trim)) == Fold(key) then Some(ps[0].1)
    else FirstValue(m, ps[1..], trim, key)
  }

  function Lookup(m: Params, key: bytes): Option<bytes> {
    if Fold(key) in m then Some(m[Fold(key)].value) else None
  }

  lemma {:induction false} KeepIsFirst(m: Params, ps: seq<(bytes, bytes)>, trim: bool, key: bytes)
    ensures Lookup(Keep(m, ps, trim), key) == FirstValue(m, ps, trim, key)
    decreases |ps|
  {
    if ps != [] {
      KeepIsFirst(Insert(m, TrimKey(ps[0].0, trim), ps[0].1), ps[1..], trim, key);
      FirstValueInserted(m, TrimKey(ps[0].0, trim), ps[0].1, ps[1..], trim, key);
    }
  }

  lemma {:induction false} FirstValueInserted(m: Params, k: bytes, v: bytes, ps: seq<(bytes, bytes)>, trim: bool,
                                              key: bytes)
    ensures FirstValue(Insert(m, k, v), ps, trim, key) ==
            if Fold(key) in m then Some(m[Fold(key)].value)
            else if Fold(k) == Fold(key) then Some(v)
            else FirstValue(m, ps, trim, key)
    decreases |ps|
  {
    if ps != [] {
      FirstValueInserted(m, k, v, ps[1..], trim, key);
    }
  }

  /** The scanner inverts the form encoder: every key yields the first value given for it,
      keys compared without case, whatever bytes the values hold. */
  method ScanJoined(ps: seq<(bytes, bytes)>, m0: Params, flag: byte, plus: bool, trim: bool) returns (m: Params)
    requires flag == AMPERSAND || flag == SEMICOLON
    requires forall p :: p in ps ==> EQUALS !in p.0
    ensures forall key :: Lookup(m, key) == FirstValue(m0, ps, trim, key)
  {
    m := ParseParam(Join(ps, flag, plus), m0, flag, trim);
    PairsOfJoin(Join(ps, flag, plus), 0, ps, flag, plus);
    InsertSent(m0, ps, plus, trim);
    forall key
      ensures Lookup(m, key) == FirstValue(m0, ps, trim, key)
    {
      KeepIsFirst(m0, ps, trim, key);
    }
  }

  // ---------- the request ----------

  /** strcasestr against a lower-case needle. */
  predicate ContainsFold(hay: bytes, needle: bytes) {
    exists i :: 0 <= i <= |Fold(hay)| && IsAt(Fold(hay), i, needle)
  }

  predicate IsAt(s: bytes, i: nat, needle: bytes) {
    i + |needle| <= |s| && s[i..i + |needle|] == needle
  }

  function Ascii(s: string): bytes
    requires forall k :: 0 <= k < |s| ==> s[k] < 128 as char
  {
    seq(|s|, i requires 0 <= i < |s| => s[i] as int)
  }

  const FORM_TYPE := Ascii("application/x-www-form-urlencoded")
  const CONTENT_TYPE := Ascii("content-type")
  const COOKIE := Ascii("cookie")

  class HttpRequest {
    var query: bytes
    var body: bytes
    var headers: Params
    var params: Params
    var cookies: Params
    var parsed: bv8

    function Header(key: bytes): bytes
      reads this`headers
    {
      match Lookup(headers, key)
      case None => []
      case Some(v) => v
    }

    /** The parameters `m` with those of the query, of the body if it is a form, and the cookies `m`
        with those of the header. */
    function WithQuery(m: Params): Params
      reads this`query
    {
      InsertAll(m, Pairs(query, AMPERSAND, 0), false)
    }

    function WithBody(m: Params): Params
      reads this`headers, this`body
    {
      if ContainsFold(Header(CONTENT_TYPE), FORM_TYPE) then InsertAll(m, Pairs(body, AMPERSAND, 0), false) else m
    }

    function WithCookies(m: Params): Params
      reads this`headers
    {
      if Header(COOKIE) == [] then m else InsertAll(m, Pairs(Header(COOKIE), SEMICOLON, 0), true)
    }

    method InitQueryParam()
      modifies this`params, this`parsed
      ensures parsed == old(parsed) | 1
      ensures params == if old(parsed) & 1 != 0 then old(params) else WithQuery(old(params))
    {
      if parsed & 1 != 0 {
        return;
      }
      params := ParseParam(query, params, AMPERSAND, false);
      parsed := parsed | 1;
    }

    method InitBodyParam()
      modifies this`params, this`parsed
      ensures parsed == old(parsed) | 2
      ensures params == if old(parsed) & 2 != 0 then old(params) else WithBody(old(params))
    {
      if parsed & 2 != 0 {
        return;
      }
      if !ContainsFold(Header(CONTENT_TYPE), FORM_TYPE) {
        parsed := parsed | 2;
        return;
      }
      params := ParseParam(body, params, AMPERSAND, false);
      parsed := parsed | 2;
    }

    method InitCookies()
      modifies this`cookies, this`parsed
      ensures parsed == old(parsed) | 4
      ensures cookies == if old(parsed) & 4 != 0 then old(cookies) else WithCookies(old(cookies))
    {
      if parsed & 4 != 0 {
        return;
      }
      var cookie := Header(COOKIE);
      if cookie == [] {
        parsed := parsed | 4;
        return;
      }
      cookies := ParseParam(cookie, cookies, SEMICOLON, true);
      parsed := parsed | 4;
    }

    /** Parses each source that has not been parsed, the query before the body, so that its values
        come first; a second run changes nothing. */
    method InitParam()
      modifies this`params, this`cookies, this`parsed
      ensures parsed == old(parsed) | 7
      ensures params == var m := if old(parsed) & 1 != 0 then old(params) else WithQuery(old(params));
                        if old(parsed) & 2 != 0 then m else WithBody(m)
      ensures cookies == if old(parsed) & 4 != 0 then old(cookies) else WithCookies(old(cookies))
      ensures old(parsed) & 7 == 7 ==> params == old(params) && cookies == old(cookies) && parsed == old(parsed)
    {
      InitQueryParam();
      InitBodyParam();
      InitCookies();
    }

    method GetParams(key: bytes, def: bytes) returns (v: bytes)
      modifies this`params, this`parsed
      ensures v == match Lookup(params, key) { case None => def case Some(x) => x }
      ensures parsed == old(parsed) | 3
      ensures params == var m := if old(parsed) & 1 != 0 then old(params) else WithQuery(old(params));
                        if old(parsed) & 2 != 0 then m else WithBody(m)
    {
      InitQueryParam();
      InitBodyParam();
      var found := Lookup(params, key);
      return match found { case None => def case Some(x) => x };
    }

    method GetCookie(key: bytes, def: bytes) returns (v: bytes)
      modifies this`cookies, this`parsed
      ensures v == match Lookup(cookies, key) { case None => def case Some(x) => x }
      ensures parsed == old(parsed) | 4
      ensures cookies == if old(parsed) & 4 != 0 then old(cookies) else WithCookies(old(cookies))
    {
      InitCookies();
      var found := Lookup(cookies, key);
      return match found { case None => def case Some(x) => x };
    }
  }

  /** What is in the map wins over what is inserted later, which is the same for every key not there. */
  lemma {:induction false} InsertedLater(m: Params, n: Params, ps: seq<(bytes, bytes)>, trim: bool, key: bytes)
    requires Lookup(n, key) == None
    ensures Lookup(InsertAll(m, ps, trim), key) ==
            if Lookup(m, key).Some? then Lookup(m, key) else Lookup(InsertAll(n, ps, trim), key)
    decreases |ps|
  {
    if ps != [] {
      var k, v := TrimKey(ps[0].0, trim), Decoded(ps[0].1, true);
      if Fold(k) == Fold(key) {
        InsertedLater(Insert(m, k, v), map[], ps[1..], trim, key);
        InsertedLater(Insert(n, k, v), map[], ps[1..], trim, key);
      } else {
        InsertedLater(Insert(m, k, v), Insert(n, k, v), ps[1..], trim, key);
      }
    }
  }

  // ---------- round trips ----------

  /** The first value sent under a key that is `key` but for the case of letters. */
  function FirstSent(ps: seq<(bytes, bytes)>, key: bytes): Option<bytes> {
    if ps == [] then None else if SameKey(ps[0].0, key) then Some(ps[0].1) else FirstSent(ps[1..], key)
  }

  lemma {:induction false} FirstSentIs(ps: seq<(bytes, bytes)>, key: bytes)
    ensures FirstValue(map[], ps, false, key) == FirstSent(ps, key)
  {
    if ps != [] {
      FoldIs(ps[0].0, key);
      FirstSentIs(ps[1..], key);
    }
  }

  /** The pairs of a text made by the form encoder, looked up in a map that has only them. */
  lemma JoinedLookup(s: bytes, ps: seq<(bytes, bytes)>, flag: byte, plus: bool, trim: bool, key: bytes)
    requires flag == AMPERSAND || flag == SEMICOLON
    requires s == Join(ps, flag, plus) && forall p :: p in ps ==> EQUALS !in p.0
    ensures Lookup(InsertAll(map[], Pairs(s, flag, 0), trim), key) == FirstValue(map[], ps, trim, key)
  {
    PairsOfJoin(s, 0, ps, flag, plus);
    InsertSent(map[], ps, plus, trim);
    KeepIsFirst(map[], ps, trim, key);
  }

  function OrElse(found: Option<bytes>, def: bytes): bytes {
    match found case None => def case Some(x) => x
  }

  /** A query string and a form body made by the form encoder, asked for a key: the first value sent for
      it in the query, else the first one in the body, else the default; the body counts only if the
      content type says that it is a form. */
  method QueryRoundTrip(req: HttpRequest, ps: seq<(bytes, bytes)>, qs: seq<(bytes, bytes)>, plus: bool, key: bytes,
                        def: bytes)
    returns (v: bytes)
    requires req.query == Join(ps, AMPERSAND, plus) && req.params == map[] && req.parsed == 0
    requires req.body == Join(qs, AMPERSAND, plus)
    requires (forall p :: p in ps ==> EQUALS !in p.0) && (forall q :: q in qs ==> EQUALS !in q.0)
    modifies req`params, req`parsed
    ensures var form := ContainsFold(req.Header(CONTENT_TYPE), FORM_TYPE);
            v == OrElse(FirstSent(ps, key), OrElse(if form then FirstSent(qs, key) else None, def))
  {
    JoinedLookup(req.query, ps, AMPERSAND, plus, false, key);
    JoinedLookup(req.body, qs, AMPERSAND, plus, false, key);
    FirstSentIs(ps, key);
    FirstSentIs(qs, key);
    InsertedLater(req.WithQuery(map[]), map[], Pairs(req.body, AMPERSAND, 0), false, key);
    v := req.GetParams(key, def);
  }

  /** A cookie as a client writes it, with blanks around its name. */
  datatype Cookie = Cookie(left: bytes, name: bytes, right: bytes, value: bytes)

  predicate Proper(c: Cookie) {
    Blank(c.left) && Inked(c.name) && Blank(c.right) && EQUALS !in c.name
  }

  function Written(cs: seq<Cookie>): (r: seq<(bytes, bytes)>) {
    if cs == [] then [] else [(cs[0].left + cs[0].name + cs[0].right, cs[0].value)] + Written(cs[1..])
  }

  function Named(cs: seq<Cookie>): seq<(bytes, bytes)> {
    if cs == [] then [] else [(cs[0].name, cs[0].value)] + Named(cs[1..])
  }

  lemma ProperName(c: Cookie)
    requires Proper(c)
    ensures Trim(c.left + c.name + c.right) == c.name && EQUALS !in c.left + c.name + c.right
  {
    TrimRecovers(c.left, c.name, c.right);
    BlankIs();
    assert EQUALS !in c.left && EQUALS !in c.right;
  }

  lemma {:induction false} CookieNames(cs: seq<Cookie>, key: bytes)
    requires forall c :: c in cs ==> Proper(c)
    ensures forall p :: p in Written(cs) ==> EQUALS !in p.0
    ensures FirstValue(map[], Written(cs), true, key) == FirstSent(Named(cs), key)
  {
    if cs != [] {
      assert cs[0] in cs;
      ProperName(cs[0]);
      FoldIs(cs[0].name, key);
      CookieNames(cs[1..], key);
    }
  }

  /** A cookie header made by the form encoder, asked for a name: the first value sent for it, whatever
      blanks are around the names, else the default. */
  method CookieRoundTrip(req: HttpRequest, cs: seq<Cookie>, plus: bool, key: bytes, def: bytes) returns (v: bytes)
    requires req.Header(COOKIE) == Join(Written(cs), SEMICOLON, plus) && req.cookies == map[] && req.parsed & 4 == 0
    requires forall c :: c in cs ==> Proper(c)
    modifies req`cookies, req`parsed
    ensures v == OrElse(FirstSent(Named(cs), key), def)
  {
    CookieNames(cs, key);
    JoinedLookup(req.Header(COOKIE), Written(cs), SEMICOLON, plus, true, key);
    v := req.GetCookie(key, def);
  }
}
