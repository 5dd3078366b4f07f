/** The application/x-www-form-urlencoded serializer that `URLSearchParams.toString()`
    applies (WHATWG URL Standard, section 5.2): every code point outside ASCII
    alphanumerics and `*-._` is UTF-8 encoded and percent-encoded with upper-case
    hex digits, except space, which becomes `+`; name/value pairs are joined as
    `name=value` with `&` between them. A decoder for the serializer's image is
    defined alongside and proved to invert it, so the query string of a route
    determines the parameters it was built from. */
module UrlEncode {
  import opened Wrappers
  import opened Text

  // ---------------------------------------------------------------------------
  // Characters
  // ---------------------------------------------------------------------------

  /** Code points the form-urlencoded percent-encode set leaves alone. */
  predicate IsUnreserved(c: char) {
    ('a' <= c <= 'z') || ('A' <= c <= 'Z') || ('0' <= c <= '9')
    || c == '*' || c == '-' || c == '.' || c == '_'
  }

  /** Characters an encoded component can contain. */
  predicate IsEncodedChar(c: char) {
    IsUnreserved(c) || c == '%' || c == '+'
  }

  predicate AllEncodedChars(s: string) {
    forall i :: 0 <= i < |s| ==> IsEncodedChar(s[i])
  }

  function HexDigit(n: nat): (c: char)
    requires n < 16
    ensures IsUnreserved(c)
  {
    "0123456789ABCDEF"[n]
  }

  predicate IsHexDigit(c: char) {
    ('0' <= c <= '9') || ('A' <= c <= 'F') || ('a' <= c <= 'f')
  }

  function HexValue(c: char): (n: nat)
    requires IsHexDigit(c)
    ensures n < 16
  {
    if '0' <= c <= '9' then c as int - '0' as int
    else if 'A' <= c <= 'F' then c as int - 'A' as int + 10
    else c as int - 'a' as int + 10
  }

  lemma HexRoundTrip(n: nat)
    requires n < 16
    ensures IsHexDigit(HexDigit(n)) && HexValue(HexDigit(n)) == n
  {
  }

  // ---------------------------------------------------------------------------
  // UTF-8
  // ---------------------------------------------------------------------------

  predicate IsByteSeq(bs: seq<nat>) {
    forall i :: 0 <= i < |bs| ==> bs[i] < 256
  }

  /** The UTF-8 encoding of one code point. Each continuation byte carries
      the next six bits, lowest last; `q1`, `q2`, `q3` are the code point
      with its lowest 6, 12 and 18 bits shifted out. */
  function Utf8(c: char): (bs: seq<nat>)
    ensures 1 <= |bs| <= 4 && IsByteSeq(bs)
  {
    var cp := c as int;
    var q1 := cp / 0x40;
    var q2 := q1 / 0x40;
    var q3 := q2 / 0x40;
    if cp < 0x80 then [cp]
    else if cp < 0x800 then [0xC0 + q1, 0x80 + cp % 0x40]
    else if cp < 0x10000 then [0xE0 + q2, 0x80 + q1 % 0x40, 0x80 + cp % 0x40]
    else [0xF0 + q3, 0x80 + q2 % 0x40, 0x80 + q1 % 0x40, 0x80 + cp % 0x40]
  }

  /** The sequence length a UTF-8 lead byte announces (0 for a byte that
      cannot start a sequence). */
  function Utf8SeqLength(b0: nat): nat {
    if b0 < 0x80 then 1
    else if 0xC2 <= b0 < 0xE0 then 2
    else if 0xE0 <= b0 < 0xF0 then 3
    else if 0xF0 <= b0 < 0xF5 then 4
    else 0
  }

  /** The code point a well-formed UTF-8 sequence of 1 to 4 bytes denotes. */
  function Utf8Value(bs: seq<nat>): int
    requires 1 <= |bs| <= 4
  {
    var b := seq(|bs|, i requires 0 <= i < |bs| => bs[i] as int);
    if |b| == 1 then b[0]
    else if |b| == 2 then (b[0] - 0xC0) * 0x40 + (b[1] - 0x80)
    else if |b| == 3 then (b[0] - 0xE0) * 0x1000 + (b[1] - 0x80) * 0x40 + (b[2] - 0x80)
    else (b[0] - 0xF0) * 0x40000 + (b[1] - 0x80) * 0x1000 + (b[2] - 0x80) * 0x40 + (b[3] - 0x80)
  }

  predicate IsScalarValue(cp: int) {
    (0 <= cp < 0xD800) || (0xE000 <= cp < 0x110000)
  }

  lemma Utf8RoundTrip(c: char)
    ensures Utf8SeqLength(Utf8(c)[0]) == |Utf8(c)|
    ensures Utf8Value(Utf8(c)) == c as int
  {
    var cp := c as int;
    var q1 := cp / 0x40;
    var q2 := q1 / 0x40;
    assert cp == q1 * 0x40 + cp % 0x40;
    assert q1 == q2 * 0x40 + q1 % 0x40;
    assert q2 == (q2 / 0x40) * 0x40 + q2 % 0x40;
  }

  // ---------------------------------------------------------------------------
  // Encoding
  // ---------------------------------------------------------------------------

  /** `%XX` for every byte, with upper-case hex digits. */
  function PercentBytes(bs: seq<nat>): (e: string)
    requires IsByteSeq(bs)
    ensures |e| == 3 * |bs|
    ensures AllEncodedChars(e)
  {
    if |bs| == 0 then []
    else ['%', HexDigit(bs[0] / 16), HexDigit(bs[0] % 16)] + PercentBytes(bs[1..])
  }

  function EncodeChar(c: char): (e: string)
    ensures |e| > 0 && AllEncodedChars(e)
  {
    if IsUnreserved(c) then [c]
    else if c == ' ' then "+"
    else PercentBytes(Utf8(c))
  }

  /** The form-urlencoded serialization of one name or value. Its output never
      contains `&`, `=`, `#`, `?` or a space, so it cannot break out of the
      query parameter it is placed in. */
  function FormEncode(s: string): (e: string)
    ensures AllEncodedChars(e)
    ensures |e| >= |s|
  {
    if |s| == 0 then [] else EncodeChar(s[0]) + FormEncode(s[1..])
  }

  /** Strings made only of unreserved characters (numerals, the filter names)
      pass through unchanged. */
  lemma {:induction false} FormEncodeUnreserved(s: string)
    requires forall i :: 0 <= i < |s| ==> IsUnreserved(s[i])
    ensures FormEncode(s) == s
  {
    if |s| > 0 {
      FormEncodeUnreserved(s[1..]);
    }
  }

  // ---------------------------------------------------------------------------
  // Decoding the encoder's image
  // ---------------------------------------------------------------------------

  /** Reads `n` percent-encoded bytes from the front of `e`. */
  function ReadBytes(e: string, n: nat): (r: Option<seq<nat>>)
    ensures r.Some? ==> |r.value| == n && 3 * n <= |e|
  {
    if n == 0 then Some([])
    else if |e| >= 3 && e[0] == '%' && IsHexDigit(e[1]) && IsHexDigit(e[2]) then
      match ReadBytes(e[3..], n - 1)
      case None => None
      case Some(rest) => Some([HexValue(e[1]) * 16 + HexValue(e[2])] + rest)
    else None
  }

  /** Decodes the first encoded code point of `e` and says how many characters
      it took. */
  function DecodeOne(e: string): (r: Option<(char, nat)>)
    ensures r.Some? ==> 0 < r.value.1 <= |e|
  {
    if |e| == 0 then None
    else if IsUnreserved(e[0]) then Some((e[0], 1))
    else if e[0] == '+' then Some((' ', 1))
    else if e[0] == '%' && |e| >= 3 && IsHexDigit(e[1]) && IsHexDigit(e[2]) then
      var n := Utf8SeqLength(HexValue(e[1]) * 16 + HexValue(e[2]));
      if n == 0 then None
      else match ReadBytes(e, n)
        case None => None
        case Some(bs) =>
          var cp := Utf8Value(bs);
          if IsScalarValue(cp) then Some((cp as char, 3 * n)) else None
    else None
  }

  /** Decodes a whole encoded component. */
  function FormDecode(e: string): Option<string>
    decreases |e|
  {
    if |e| == 0 then Some([])
    else match DecodeOne(e)
      case None => None
      case Some((c, k)) =>
        match FormDecode(e[k..])
        case None => None
        case Some(rest) => Some([c] + rest)
  }

  /** One `%XX` group in front of `tail` reads back as its byte. */
  lemma ReadBytesCons(b: nat, tail: string, n: nat)
    requires b < 256 && n > 0
    ensures ReadBytes(['%', HexDigit(b / 16), HexDigit(b % 16)] + tail, n)
         == match ReadBytes(tail, n - 1)
            case None => None
            case Some(r) => Some([b] + r)
  {
    var e := ['%', HexDigit(b / 16), HexDigit(b % 16)] + tail;
    assert e[3..] == tail;
    HexRoundTrip(b / 16);
    HexRoundTrip(b % 16);
  }

  lemma {:induction false} ReadPercentBytes(bs: seq<nat>, rest: string)
    requires IsByteSeq(bs)
    ensures ReadBytes(PercentBytes(bs) + rest, |bs|) == Some(bs)
  {
    if |bs| > 0 {
      var tail := PercentBytes(bs[1..]) + rest;
      assert PercentBytes(bs) + rest == ['%', HexDigit(bs[0] / 16), HexDigit(bs[0] % 16)] + tail;
      ReadPercentBytes(bs[1..], rest);
      ReadBytesCons(bs[0], tail, |bs|);
      assert [bs[0]] + bs[1..] == bs;
    }
  }

  lemma DecodeOneEncodeChar(c: char, rest: string)
    ensures DecodeOne(EncodeChar(c) + rest) == Some((c, |EncodeChar(c)|))
  {
    if !IsUnreserved(c) && c != ' ' {
      var bs := Utf8(c);
      var e := EncodeChar(c) + rest;
      Utf8RoundTrip(c);
      ReadPercentBytes(bs, rest);
      HexRoundTrip(bs[0] / 16);
      HexRoundTrip(bs[0] % 16);
      assert e[1] == HexDigit(bs[0] / 16) && e[2] == HexDigit(bs[0] % 16);
    }
  }

  /** Decoding undoes encoding. */
  lemma {:induction false} FormDecodeEncode(s: string)
    ensures FormDecode(FormEncode(s)) == Some(s)
  {
    if |s| > 0 {
      var e := FormEncode(s);
      var head := EncodeChar(s[0]);
      DecodeOneEncodeChar(s[0], FormEncode(s[1..]));
      assert e[|head|..] == FormEncode(s[1..]);
      FormDecodeEncode(s[1..]);
      assert [s[0]] + s[1..] == s;
    }
  }

  /** So the encoder is injective: distinct values never share an encoding. */
  lemma FormEncodeInjective(s: string, t: string)
    requires FormEncode(s) == FormEncode(t)
    ensures s == t
  {
    FormDecodeEncode(s);
    FormDecodeEncode(t);
  }

  // ---------------------------------------------------------------------------
  // Query strings
  // ---------------------------------------------------------------------------

  /** One `name=value` pair, both sides encoded. */
  function EncodePair(p: (string, string)): (e: string)
    ensures '&' !in e
  {
    var n := FormEncode(p.0);
    var v := FormEncode(p.1);
    assert forall i :: 0 <= i < |n| ==> IsEncodedChar(n[i]);
    assert forall i :: 0 <= i < |v| ==> IsEncodedChar(v[i]);
    n + "=" + v
  }

  /** `URLSearchParams.toString()`: the encoded pairs in insertion order,
      separated by `&`; the empty list serializes to the empty string. */
  function Serialize(ps: seq<(string, string)>): (q: string)
    ensures q == [] <==> ps == []
  {
    if |ps| == 0 then []
    else if |ps| == 1 then EncodePair(ps[0])
    else EncodePair(ps[0]) + "&" + Serialize(ps[1..])
  }

  /** Cuts `s` at every `sep`; there is always at least one piece. */
  function SplitAll(s: string, sep: char): (parts: seq<string>)
    ensures |parts| >= 1
  {
    if |s| == 0 then [[]]
    else
      var rest := SplitAll(s[1..], sep);
      if s[0] == sep then [[]] + rest else [[s[0]] + rest[0]] + rest[1..]
  }

  /** Decodes the `name=value` pieces of a query string. */
  function DecodePairs(parts: seq<string>): Option<seq<(string, string)>> {
    if |parts| == 0 then Some([])
    else
      var (n, v) := SplitFirst(parts[0], '=');
      match (FormDecode(n), FormDecode(v), DecodePairs(parts[1..]))
      case (Some(name), Some(value), Some(rest)) => Some([(name, value)] + rest)
      case _ => None
  }

  /** Reads the pairs back out of a serialized query string. */
  function ParseQuery(q: string): Option<seq<(string, string)>> {
    if q == [] then Some([]) else DecodePairs(SplitAll(q, '&'))
  }

  lemma {:induction false} SplitAllNoSep(a: string, sep: char)
    requires sep !in a
    ensures SplitAll(a, sep) == [a]
    decreases |a|
  {
    if |a| > 0 {
      assert sep !in a[1..] by {
        assert forall i :: 0 <= i < |a[1..]| ==> a[1..][i] == a[i + 1];
      }
      SplitAllNoSep(a[1..], sep);
      assert [a[0]] + a[1..] == a;
    }
  }

  lemma {:induction false} SplitAllCons(a: string, b: string, sep: char)
    requires sep !in a
    ensures SplitAll(a + [sep] + b, sep) == [a] + SplitAll(b, sep)
    decreases |a|
  {
    var s := a + [sep] + b;
    if |a| == 0 {
      assert s[1..] == b;
    } else {
      assert s[1..] == a[1..] + [sep] + b;
      assert sep !in a[1..] by {
        assert forall i :: 0 <= i < |a[1..]| ==> a[1..][i] == a[i + 1];
      }
      SplitAllCons(a[1..], b, sep);
      assert [a[0]] + a[1..] == a;
    }
  }

  /** The serialized pieces of a pair list, one per pair. */
  function EncodedPairs(ps: seq<(string, string)>): (parts: seq<string>)
    ensures |parts| == |ps|
  {
    if |ps| == 0 then [] else [EncodePair(ps[0])] + EncodedPairs(ps[1..])
  }

  lemma {:induction false} SplitSerialize(ps: seq<(string, string)>)
    requires |ps| > 0
    ensures SplitAll(Serialize(ps), '&') == EncodedPairs(ps)
  {
    if |ps| == 1 {
      SplitAllNoSep(EncodePair(ps[0]), '&');
    } else {
      SplitAllCons(EncodePair(ps[0]), Serialize(ps[1..]), '&');
      SplitSerialize(ps[1..]);
    }
  }

  lemma DecodeEncodedPair(p: (string, string))
    ensures SplitFirst(EncodePair(p), '=') == (FormEncode(p.0), FormEncode(p.1))
    ensures FormDecode(FormEncode(p.0)) == Some(p.0)
    ensures FormDecode(FormEncode(p.1)) == Some(p.1)
  {
    var n := FormEncode(p.0);
    assert forall i :: 0 <= i < |n| ==> IsEncodedChar(n[i]);
    SplitFirstCons(n, FormEncode(p.1), '=');
    FormDecodeEncode(p.0);
    FormDecodeEncode(p.1);
  }

  lemma {:induction false} DecodeEncodedPairs(ps: seq<(string, string)>)
    ensures DecodePairs(EncodedPairs(ps)) == Some(ps)
  {
    if |ps| > 0 {
      DecodeEncodedPair(ps[0]);
      assert EncodedPairs(ps)[1..] == EncodedPairs(ps[1..]);
      DecodeEncodedPairs(ps[1..]);
      assert [ps[0]] + ps[1..] == ps;
    }
  }

  /** Parsing undoes serialization: a query string determines exactly the
      pairs, names, values and order it was built from. */
  lemma QueryRoundTrip(ps: seq<(string, string)>)
    ensures ParseQuery(Serialize(ps)) == Some(ps)
  {
    if |ps| > 0 {
      SplitSerialize(ps);
      DecodeEncodedPairs(ps);
    }
  }
}
