/** Lazada open-platform request signing: the canonical string built from
    the API name, the parameters in ascending key order and the body, its
    HMAC-SHA256 digest, and the upper-case hexadecimal rendering of the
    digest. The HMAC itself (RFC 2104 over SHA-256) is not modelled; callers
    pass it in as the function `mac`. */
module LazadaSign {

  import opened Wrappers
  import opened Text

  newtype byte = x: int | 0 <= x < 256

  const SignMethodHmac: string := "hmac"
  const SignMethodSha256: string := "sha256"

  // ---- canonical string ----

  predicate Sorted(ks: seq<string>) {
    forall i, j :: 0 <= i < j < |ks| ==> LessEq(ks[i], ks[j])
  }

  /** `ks` is what `sort.Strings` leaves in the slice of the map's keys. */
  predicate IsSortedKeys(params: map<string, string>, ks: seq<string>) {
    Sorted(ks) && multiset(ks) == multiset(params.Keys)
  }

  /** What one key adds to the canonical string. */
  function Contribution(params: map<string, string>, k: string): string {
    if k in params && k != "" && params[k] != "" then k + params[k] else ""
  }

  /** The parameters' part of the canonical string, keys taken in the order of `ks`. */
  function ParamsPart(params: map<string, string>, ks: seq<string>): string {
    if ks == [] then "" else ParamsPart(params, ks[..|ks| - 1]) + Contribution(params, ks[|ks| - 1])
  }

  /** The string that gets signed. */
  function SignString(apiName: string, params: map<string, string>, ks: seq<string>, body: string): string {
    apiName + ParamsPart(params, ks) + (if body != "" then body else "")
  }

  /** The head of a sorted sequence is no greater than any of its elements. */
  lemma SortedHeadLeast(a: seq<string>, x: string)
    requires Sorted(a) && x in multiset(a)
    ensures a != [] && LessEq(a[0], x)
  {
    var i :| 0 <= i < |a| && a[i] == x;
    if i == 0 {
      LessEqReflexive(a[0]);
    }
  }

  lemma TailMultiset(a: seq<string>)
    requires a != []
    ensures multiset(a[1..]) == multiset(a) - multiset{a[0]}
  {
    assert a == [a[0]] + a[1..];
    assert multiset(a) == multiset{a[0]} + multiset(a[1..]);
  }

  /** Sorted arrangements of the same elements start with the same element. */
  lemma SortedSameHead(a: seq<string>, b: seq<string>)
    requires a != [] && Sorted(a) && Sorted(b) && multiset(a) == multiset(b)
    ensures b != [] && a[0] == b[0]
  {
    assert a[0] in multiset(a);
    SortedHeadLeast(b, a[0]);
    SortedHeadLeast(a, b[0]);
    LessEqAntisymmetric(a[0], b[0]);
  }

  /** Dropping the head keeps a sequence sorted. */
  lemma SortedTail(a: seq<string>)
    requires a != [] && Sorted(a)
    ensures Sorted(a[1..])
  {
    forall i, j | 0 <= i < j < |a| - 1 ensures LessEq(a[1..][i], a[1..][j]) {
      assert a[1..][i] == a[i + 1] && a[1..][j] == a[j + 1];
    }
  }

  /** Two sorted arrangements of the same keys are the same sequence. */
  lemma {:induction false} SortedUnique(a: seq<string>, b: seq<string>)
    requires Sorted(a) && Sorted(b) && multiset(a) == multiset(b)
    ensures a == b
    decreases |a|
  {
    if a != [] {
      SortedSameHead(a, b);
      TailMultiset(a);
      TailMultiset(b);
      SortedTail(a);
      SortedTail(b);
      SortedUnique(a[1..], b[1..]);
      assert a == [a[0]] + a[1..] && b == [b[0]] + b[1..];
    } else {
      assert |multiset(b)| == 0;
    }
  }

  /** The signed string depends only on the map's contents: any two orders
      `sort.Strings` could leave the keys in give the same string. */
  lemma SignStringOrderIndependent(apiName: string, params: map<string, string>,
                                   ks1: seq<string>, ks2: seq<string>, body: string)
    requires IsSortedKeys(params, ks1) && IsSortedKeys(params, ks2)
    ensures SignString(apiName, params, ks1, body) == SignString(apiName, params, ks2, body)
  {
    SortedUnique(ks1, ks2);
  }

  /** Layout of the signed string: the API name first, then the parameter
      part, then the body exactly when it is non-empty. */
  lemma SignStringLayout(apiName: string, params: map<string, string>, ks: seq<string>, body: string)
    ensures var s := SignString(apiName, params, ks, body);
      && s[..|apiName|] == apiName
      && s[|apiName|..|apiName| + |ParamsPart(params, ks)|] == ParamsPart(params, ks)
      && (body == "" <==> |s| == |apiName| + |ParamsPart(params, ks)|)
      && s[|apiName| + |ParamsPart(params, ks)|..] == body
  {
  }

  /** The map with its empty keys and empty values removed. */
  function NonEmpty(params: map<string, string>): map<string, string>
  {
    map k | k in params && k != "" && params[k] != "" :: params[k]
  }

  function KeepNonEmpty(params: map<string, string>, ks: seq<string>): seq<string> {
    if ks == [] then []
    else KeepNonEmpty(params, ks[..|ks| - 1])
         + (var k := ks[|ks| - 1]; if k in params && k != "" && params[k] != "" then [k] else [])
  }

  lemma {:induction false} KeepNonEmptyPart(params: map<string, string>, ks: seq<string>)
    ensures ParamsPart(params, ks) == ParamsPart(NonEmpty(params), KeepNonEmpty(params, ks))
  {
    if ks != [] {
      var init, k := ks[..|ks| - 1], ks[|ks| - 1];
      KeepNonEmptyPart(params, init);
      var kept := KeepNonEmpty(params, ks);
      if k in NonEmpty(params) {
        assert kept == KeepNonEmpty(params, init) + [k];
        assert kept[..|kept| - 1] == KeepNonEmpty(params, init);
      } else {
        assert kept == KeepNonEmpty(params, init);
      }
    }
  }

  lemma {:induction false} KeepNonEmptyCount(params: map<string, string>, ks: seq<string>)
    ensures forall x :: multiset(KeepNonEmpty(params, ks))[x]
                        == if x in NonEmpty(params) then multiset(ks)[x] else 0
  {
    if ks != [] {
      var init, k := ks[..|ks| - 1], ks[|ks| - 1];
      KeepNonEmptyCount(params, init);
      assert ks == init + [k];
      assert multiset(ks) == multiset(init) + multiset([k]);
    }
  }

  lemma {:induction false} KeepNonEmptySorted(params: map<string, string>, ks: seq<string>)
    requires Sorted(ks)
    ensures forall x :: x in KeepNonEmpty(params, ks) ==> x in ks
    ensures Sorted(KeepNonEmpty(params, ks))
  {
    if ks != [] {
      var init, k := ks[..|ks| - 1], ks[|ks| - 1];
      assert Sorted(init);
      KeepNonEmptySorted(params, init);
      var kept := KeepNonEmpty(params, ks);
      if k in NonEmpty(params) {
        assert kept == KeepNonEmpty(params, init) + [k];
        forall i, j | 0 <= i < j < |kept| ensures LessEq(kept[i], kept[j]) {
          if j == |kept| - 1 {
            assert kept[i] in init;
            var p :| 0 <= p < |init| && init[p] == kept[i];
            assert ks[p] == kept[i];
          }
        }
      }
    }
  }

  /** Parameters whose key or value is empty contribute nothing: signing the
      map equals signing the map without them. */
  lemma EmptyParamsContributeNothing(apiName: string, params: map<string, string>,
                                     ks: seq<string>, ks': seq<string>, body: string)
    requires IsSortedKeys(params, ks)
    requires IsSortedKeys(NonEmpty(params), ks')
    ensures SignString(apiName, params, ks, body) == SignString(apiName, NonEmpty(params), ks', body)
  {
    KeepNonEmptyPart(params, ks);
    KeepNonEmptyCount(params, ks);
    KeepNonEmptySorted(params, ks);
    var kept := KeepNonEmpty(params, ks);
    assert multiset(kept) == multiset(NonEmpty(params).Keys);
    SortedUnique(kept, ks');
  }

  // ---- building the string (the strings.Builder loop) ----

  /** The loop over the map that collects its keys, then `sort.Strings`. */
  method SortedKeys(params: map<string, string>) returns (keys: seq<string>)
    ensures IsSortedKeys(params, keys)
  {
    keys := [];
    var remaining := params.Keys;
    while remaining != {}
      invariant multiset(keys) + multiset(remaining) == multiset(params.Keys)
      decreases |remaining|
    {
      var k :| k in remaining;
      keys := keys + [k];
      remaining := remaining - {k};
    }
    var a := new string[|keys|](i requires 0 <= i < |keys| => keys[i]);
    assert a[..] == keys;
    SortStrings(a);
    keys := a[..];
  }

  /** In-place insertion sort by `LessEq` (what `sort.Strings` promises). */
  method SortStrings(a: array<string>)
    modifies a
    ensures Sorted(a[..])
    ensures multiset(a[..]) == multiset(old(a[..]))
  {
    var i := 0;
    while i < a.Length
      invariant 0 <= i <= a.Length
      invariant Sorted(a[..i])
      invariant multiset(a[..]) == multiset(old(a[..]))
    {
      InsertAt(a, i);
      i := i + 1;
    }
    assert a[..a.Length] == a[..];
  }

  /** Midway through inserting: `s[..i + 1]` is sorted apart from the
      moving element at `j`, which is no greater than anything right of it. */
  ghost predicate Inserting(s: seq<string>, i: nat, j: nat)
    requires j <= i < |s|
  {
    (forall p, q :: 0 <= p < q <= i && p != j && q != j ==> LessEq(s[p], s[q]))
    && (forall q :: j < q <= i ==> LessEq(s[j], s[q]))
  }

  /** `s` with the elements at `j - 1` and `j` exchanged. */
  function SwapLeft(s: seq<string>, j: nat): (r: seq<string>)
    requires 0 < j < |s|
    ensures multiset(r) == multiset(s)
  {
    s[j - 1 := s[j]][j := s[j - 1]]
  }

  /** Swapping the moving element with a greater left neighbour keeps the
      insertion state, one place further left. */
  lemma InsertingSwap(s: seq<string>, i: nat, j: nat)
    requires 0 < j <= i < |s|
    requires Inserting(s, i, j)
    requires !LessEq(s[j - 1], s[j])
    ensures Inserting(SwapLeft(s, j), i, j - 1)
  {
    LessEqTotal(s[j - 1], s[j]);
  }

  /** Once the left neighbour is no greater (or there is none), the prefix
      is sorted. */
  lemma InsertingDone(s: seq<string>, i: nat, j: nat)
    requires j <= i < |s|
    requires Inserting(s, i, j)
    requires j == 0 || LessEq(s[j - 1], s[j])
    ensures Sorted(s[..i + 1])
  {
    forall p, q | 0 <= p < q <= i ensures LessEq(s[p], s[q]) {
      if q == j && p < j - 1 {
        LessEqTransitive(s[p], s[j - 1], s[j]);
      }
    }
  }

  /** Moves `a[i]` left into its place within the sorted prefix `a[..i]`. */
  method InsertAt(a: array<string>, i: nat)
    requires i < a.Length
    requires Sorted(a[..i])
    modifies a
    ensures Sorted(a[..i + 1])
    ensures multiset(a[..]) == multiset(old(a[..]))
  {
    var j := i;
    assert Inserting(a[..], i, j);
    while j > 0 && !LessEq(a[j - 1], a[j])
      invariant 0 <= j <= i
      invariant Inserting(a[..], i, j)
      invariant multiset(a[..]) == multiset(old(a[..]))
    {
      ghost var before := a[..];
      InsertingSwap(before, i, j);
      a[j - 1], a[j] := a[j], a[j - 1];
      assert a[..] == SwapLeft(before, j);
      j := j - 1;
    }
    InsertingDone(a[..], i, j);
  }

  /** The strings.Builder loop of `signAPIRequest`. */
  method BuildQuery(apiName: string, params: map<string, string>, keys: seq<string>, body: string)
    returns (query: string)
    ensures query == SignString(apiName, params, keys, body)
  {
    query := apiName;
    for i := 0 to |keys|
      invariant query == apiName + ParamsPart(params, keys[..i])
    {
      var key := keys[i];
      assert keys[..i + 1][..i] == keys[..i];
      if key in params && key != "" && params[key] != "" {
        query := query + (key + params[key]);
      }
    }
    assert keys[..|keys|] == keys;
    if body != "" {
      query := query + body;
    }
  }

  // ---- signature ----

  /** Lower-case hexadecimal digit, as `hex.EncodeToString` writes it. */
  function HexDigitLower(d: nat): char
    requires d < 16
  {
    "0123456789abcdef"[d]
  }

  /** `hex.EncodeToString`. */
  function HexEncode(bs: seq<byte>): string {
    if bs == [] then ""
    else [HexDigitLower(bs[0] as int / 16), HexDigitLower(bs[0] as int % 16)] + HexEncode(bs[1..])
  }

  /** `strings.ToUpper`, on the ASCII letters a hex string can hold. */
  function ToUpperAscii(s: string): string {
    if s == [] then ""
    else [if 'a' <= s[0] <= 'z' then (s[0] as int - 32) as char else s[0]] + ToUpperAscii(s[1..])
  }

  /** `byte2hex`. */
  function Byte2Hex(bs: seq<byte>): string {
    ToUpperAscii(HexEncode(bs))
  }

  predicate IsUpperHexChar(c: char) {
    '0' <= c <= '9' || 'A' <= c <= 'F'
  }

  function UpperHexValue(c: char): (d: nat)
    requires IsUpperHexChar(c)
    ensures d < 16
  {
    if c <= '9' then (c as int - '0' as int) as nat else (c as int - 'A' as int + 10) as nat
  }

  /** Reads back an upper-case hex string; `None` for odd length or a
      character outside 0-9A-F. */
  function HexDecode(s: string): Option<seq<byte>>
    decreases |s|
  {
    if s == [] then Some([])
    else if |s| < 2 || !IsUpperHexChar(s[0]) || !IsUpperHexChar(s[1]) then None
    else match HexDecode(s[2..])
         case None => None
         case Some(rest) => Some([(UpperHexValue(s[0]) * 16 + UpperHexValue(s[1])) as byte] + rest)
  }

  function HexDigitUpper(d: nat): char
    requires d < 16
  {
    "0123456789ABCDEF"[d]
  }

  lemma {:induction false} ToUpperAsciiAppend(a: string, b: string)
    ensures ToUpperAscii(a + b) == ToUpperAscii(a) + ToUpperAscii(b)
  {
    if a == [] {
      assert a + b == b;
    } else {
      assert (a + b)[1..] == a[1..] + b;
      ToUpperAsciiAppend(a[1..], b);
    }
  }

  /** One byte of `byte2hex` output: its two upper-case digits. */
  lemma Byte2HexCons(bs: seq<byte>)
    requires bs != []
    ensures Byte2Hex(bs) == [HexDigitUpper(bs[0] as int / 16), HexDigitUpper(bs[0] as int % 16)] + Byte2Hex(bs[1..])
  {
    var hi, lo := bs[0] as int / 16, bs[0] as int % 16;
    ToUpperAsciiAppend([HexDigitLower(hi), HexDigitLower(lo)], HexEncode(bs[1..]));
    assert ToUpperAscii([HexDigitLower(hi), HexDigitLower(lo)]) == [HexDigitUpper(hi), HexDigitUpper(lo)] by {
      assert [HexDigitLower(hi), HexDigitLower(lo)][1..] == [HexDigitLower(lo)];
    }
  }

  lemma HexDigitUpperValue(d: nat)
    requires d < 16
    ensures IsUpperHexChar(HexDigitUpper(d))
    ensures UpperHexValue(HexDigitUpper(d)) == d
  {
  }

  lemma DecodePair(hi: nat, lo: nat, rest: string, tail: seq<byte>)
    requires hi < 16 && lo < 16
    requires HexDecode(rest) == Some(tail)
    ensures HexDecode([HexDigitUpper(hi), HexDigitUpper(lo)] + rest) == Some([(hi * 16 + lo) as byte] + tail)
  {
    var s := [HexDigitUpper(hi), HexDigitUpper(lo)] + rest;
    HexDigitUpperValue(hi);
    HexDigitUpperValue(lo);
    assert s[0] == HexDigitUpper(hi) && s[1] == HexDigitUpper(lo) && s[2..] == rest;
  }

  /** `byte2hex` writes two characters per byte, all from 0-9A-F, and
      decoding them gives the bytes back (so it is injective). */
  lemma {:induction false} Byte2HexRoundTrip(bs: seq<byte>)
    ensures |Byte2Hex(bs)| == 2 * |bs|
    ensures forall i :: 0 <= i < |Byte2Hex(bs)| ==> IsUpperHexChar(Byte2Hex(bs)[i])
    ensures HexDecode(Byte2Hex(bs)) == Some(bs)
  {
    if bs != [] {
      var hi, lo := bs[0] as int / 16, bs[0] as int % 16;
      var rest := Byte2Hex(bs[1..]);
      Byte2HexRoundTrip(bs[1..]);
      Byte2HexCons(bs);
      HexDigitUpperValue(hi);
      HexDigitUpperValue(lo);
      var pair := [HexDigitUpper(hi), HexDigitUpper(lo)];
      assert Byte2Hex(bs) == pair + rest;
      assert forall i :: 0 <= i < |pair + rest| ==> IsUpperHexChar((pair + rest)[i]) by {
        forall i | 0 <= i < |pair + rest| ensures IsUpperHexChar((pair + rest)[i]) {
          if i >= 2 {
            assert (pair + rest)[i] == rest[i - 2];
          }
        }
      }
      DecodePair(hi, lo, rest, bs[1..]);
      assert (hi * 16 + lo) as byte == bs[0];
      assert [bs[0]] + bs[1..] == bs;
    }
  }

  lemma Byte2HexInjective(a: seq<byte>, b: seq<byte>)
    requires Byte2Hex(a) == Byte2Hex(b)
    ensures a == b
  {
    Byte2HexRoundTrip(a);
    Byte2HexRoundTrip(b);
  }

  /** The signature for a given signed string: both recognised sign methods
      use HMAC-SHA256 with the app secret; any other method leaves the digest
      empty, which renders as "". */
  function Signature(query: string, appSecret: string, signMethod: string,
                     mac: (string, string) -> Result<seq<byte>>): Result<string> {
    if signMethod == SignMethodHmac || signMethod == SignMethodSha256 then
      match mac(query, appSecret)
      case Ok(digest) => Ok(Byte2Hex(digest))
      case Err(e) => Err(e)
    else Ok(Byte2Hex([]))
  }

  /** `"hmac"` and `"sha256"` give the same signature. */
  lemma HmacAndSha256Agree(query: string, appSecret: string, mac: (string, string) -> Result<seq<byte>>)
    ensures Signature(query, appSecret, SignMethodHmac, mac) == Signature(query, appSecret, SignMethodSha256, mac)
  {
  }

  /** `signAPIRequest`: signs the canonical string of the request. */
  method SignAPIRequest(params: map<string, string>, body: string, appSecret: string,
                        signMethod: string, apiName: string,
                        mac: (string, string) -> Result<seq<byte>>)
    returns (r: Result<string>)
    ensures forall ks :: IsSortedKeys(params, ks) ==>
              r == Signature(SignString(apiName, params, ks, body), appSecret, signMethod, mac)
    ensures signMethod != SignMethodHmac && signMethod != SignMethodSha256 ==> r == Ok("")
    ensures r.Ok? && (signMethod == SignMethodHmac || signMethod == SignMethodSha256) ==>
              exists digest :: |r.value| == 2 * |digest| && HexDecode(r.value) == Some(digest)
  {
    var keys := SortedKeys(params);
    var query := BuildQuery(apiName, params, keys, body);
    var signature: seq<byte> := [];
    var failure: Option<string> := None;
    if signMethod == SignMethodHmac {
      var res := mac(query, appSecret);
      if res.Err? {
        failure := Some(res.msg);
      } else {
        signature := res.value;
      }
    } else if signMethod == SignMethodSha256 {
      var res := mac(query, appSecret);
      if res.Err? {
        failure := Some(res.msg);
      } else {
        signature := res.value;
      }
    }
    Byte2HexRoundTrip(signature);
    r := if failure.Some? then Err(failure.value) else Ok(Byte2Hex(signature));
    forall ks | IsSortedKeys(params, ks)
      ensures r == Signature(SignString(apiName, params, ks, body), appSecret, signMethod, mac)
    {
      SignStringOrderIndependent(apiName, params, keys, ks, body);
    }
  }
}
