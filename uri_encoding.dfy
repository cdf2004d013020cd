/** Percent-encoding as the browser performs it for the core: `encodeURIComponent`
    (used to wrap image URLs in the resize proxy) and the
    application/x-www-form-urlencoded serializer behind `URLSearchParams.toString()`
    (used to assemble catalogue queries). Both encode each character's UTF-8 bytes
    as `%XY` with upper-case hexadecimal digits unless the character is in their
    safe set. `DecodeURIComponent` is the inverse used to state that
    `encodeURIComponent` loses nothing. */
module UriEncoding {
  import opened Base

  type Byte = b: int | 0 <= b < 256

  /** The UTF-8 encoding of one Unicode scalar value. */
  function Utf8(c: char): (r: seq<Byte>)
    ensures 1 <= |r| <= 4
    ensures |r| == 1 <==> c as int < 0x80
    ensures |r| == 1 ==> r[0] == c as int
  {
    var n := c as int;
    if n < 0x80 then [n]
    else if n < 0x800 then [0xC0 + n / 64, 0x80 + n % 64]
    else if n < 0x10000 then [0xE0 + n / 4096, 0x80 + n / 64 % 64, 0x80 + n % 64]
    else [0xF0 + n / 262144, 0x80 + n / 4096 % 64, 0x80 + n / 64 % 64, 0x80 + n % 64]
  }

  /** An upper-case hexadecimal digit. */
  function HexDigit(d: int): (c: char)
    requires 0 <= d < 16
    ensures IsHexDigit(c)
  {
    if d < 10 then ('0' as int + d) as char else ('A' as int + d - 10) as char
  }

  predicate IsHexDigit(c: char) {
    '0' <= c <= '9' || 'A' <= c <= 'F' || 'a' <= c <= 'f'
  }

  /** The value of a hexadecimal digit, either case. */
  function HexValue(c: char): (v: int)
    requires IsHexDigit(c)
    ensures 0 <= v < 16
  {
    if '0' <= c <= '9' then c as int - '0' as int
    else if 'A' <= c <= 'F' then c as int - 'A' as int + 10
    else c as int - 'a' as int + 10
  }

  /** `%XY` for one byte. */
  function PercentByte(b: Byte): string {
    ['%', HexDigit(b / 16), HexDigit(b % 16)]
  }

  /** `%XY%XY...` for a byte sequence. */
  function PercentBytes(bs: seq<Byte>): (r: string)
    ensures |r| == 3 * |bs|
    ensures forall i :: 0 <= i < |r| ==> r[i] == '%' || IsHexDigit(r[i])
  {
    if bs == [] then [] else PercentByte(bs[0]) + PercentBytes(bs[1..])
  }

  /** The characters `encodeURIComponent` leaves as they are. */
  predicate IsUriUnreserved(c: char) {
    'A' <= c <= 'Z' || 'a' <= c <= 'z' || '0' <= c <= '9' ||
    c == '-' || c == '_' || c == '.' || c == '!' || c == '~' || c == '*' ||
    c == '\'' || c == '(' || c == ')'
  }

  function EncodeUriChar(c: char): (r: string)
    ensures IsUriUnreserved(c) ==> r == [c]
    ensures !IsUriUnreserved(c) ==> |r| >= 3 && r[0] == '%'
  {
    if IsUriUnreserved(c) then [c] else PercentBytes(Utf8(c))
  }

  /** `encodeURIComponent(s)`. (Dafny strings hold no lone surrogates, so the
      `URIError` the browser raises for one cannot arise.) */
  function EncodeUriComponent(s: string): string {
    if s == [] then [] else EncodeUriChar(s[0]) + EncodeUriComponent(s[1..])
  }

  /** Every character of `r` is unreserved or `%`. */
  predicate InUriAlphabet(r: string) {
    forall i :: 0 <= i < |r| ==> IsUriUnreserved(r[i]) || r[i] == '%'
  }

  lemma EncodeUriCharAlphabet(c: char)
    ensures InUriAlphabet(EncodeUriChar(c))
  {
    var r := EncodeUriChar(c);
    forall i | 0 <= i < |r| ensures IsUriUnreserved(r[i]) || r[i] == '%' {
      if !IsUriUnreserved(c) {
        assert r[i] == '%' || IsHexDigit(r[i]);
      }
    }
  }

  /** Everything `encodeURIComponent` produces is an unreserved character, `%` or a
      hexadecimal digit; in particular it holds no `/`, `?`, `&`, `=` or `:`. */
  lemma {:induction false} EncodeUriAlphabet(s: string)
    ensures InUriAlphabet(EncodeUriComponent(s))
  {
    if s != [] {
      EncodeUriAlphabet(s[1..]);
      EncodeUriCharAlphabet(s[0]);
      var head, tail := EncodeUriChar(s[0]), EncodeUriComponent(s[1..]);
      forall i | 0 <= i < |head + tail| ensures IsUriUnreserved((head + tail)[i]) || (head + tail)[i] == '%' {
        if i >= |head| {
          assert (head + tail)[i] == tail[i - |head|];
        }
      }
    }
  }

  /** The output is never shorter than the input, and is longer as soon as one
      character needs escaping. */
  lemma {:induction false} EncodeUriLength(s: string)
    ensures |EncodeUriComponent(s)| >= |s|
    ensures (exists i :: 0 <= i < |s| && !IsUriUnreserved(s[i])) ==> |EncodeUriComponent(s)| > |s|
  {
    if s != [] {
      EncodeUriLength(s[1..]);
      if exists i :: 0 <= i < |s| && !IsUriUnreserved(s[i]) {
        var i :| 0 <= i < |s| && !IsUriUnreserved(s[i]);
        if i > 0 { assert s[1..][i - 1] == s[i]; }
      }
    }
  }

  /** `encodeURIComponent` leaves a string unchanged exactly when every character
      of it is unreserved. */
  lemma {:induction false} EncodeUriIdentityIff(s: string)
    ensures EncodeUriComponent(s) == s <==> forall i :: 0 <= i < |s| ==> IsUriUnreserved(s[i])
  {
    EncodeUriLength(s);
    if forall i :: 0 <= i < |s| ==> IsUriUnreserved(s[i]) {
      UnreservedUnchanged(s);
    }
  }

  lemma {:induction false} UnreservedUnchanged(s: string)
    requires forall i :: 0 <= i < |s| ==> IsUriUnreserved(s[i])
    ensures EncodeUriComponent(s) == s
  {
    if s != [] {
      UnreservedUnchanged(s[1..]);
    }
  }

  // ---- decoding: the inverse of encodeURIComponent ----

  /** The byte written as `%XY` at position `k` of `s`, if there is one. */
  function ByteAt(s: string, k: nat): Option<Byte> {
    if k + 3 <= |s| && s[k] == '%' && IsHexDigit(s[k + 1]) && IsHexDigit(s[k + 2])
    then Some(16 * HexValue(s[k + 1]) + HexValue(s[k + 2]))
    else None
  }

  /** The number of bytes in the UTF-8 sequence a lead byte starts (0: not a lead byte). */
  function SequenceLength(b: Byte): nat {
    if b < 0x80 then 1
    else if 0xC0 <= b < 0xE0 then 2
    else if 0xE0 <= b < 0xF0 then 3
    else if 0xF0 <= b < 0xF8 then 4
    else 0
  }

  predicate IsContinuation(b: Byte) {
    0x80 <= b < 0xC0
  }

  /** The code point a complete, well-formed UTF-8 sequence stands for; `None` for
      an overlong form, a surrogate or a value past U+10FFFF. */
  function Utf8Decode(bs: seq<Byte>): Option<char>
    requires 1 <= |bs| <= 4 && SequenceLength(bs[0]) == |bs|
    requires forall i :: 1 <= i < |bs| ==> IsContinuation(bs[i])
  {
    if |bs| == 1 then Some(bs[0] as char)
    else
      var n: int :=
        if |bs| == 2 then (bs[0] as int - 0xC0) * 64 + (bs[1] as int - 0x80)
        else if |bs| == 3 then (bs[0] as int - 0xE0) * 4096 + (bs[1] as int - 0x80) * 64 + (bs[2] as int - 0x80)
        else (bs[0] as int - 0xF0) * 262144 + (bs[1] as int - 0x80) * 4096 + (bs[2] as int - 0x80) * 64 + (bs[3] as int - 0x80);
      var least := if |bs| == 2 then 0x80 else if |bs| == 3 then 0x800 else 0x10000;
      if least <= n <= 0x10FFFF && !(0xD800 <= n <= 0xDFFF) then Some(n as char) else None
  }

  /** The `count` bytes written as `%XY` triplets from position `k` on. */
  function BytesAt(s: string, k: nat, count: nat): (r: Option<seq<Byte>>)
    ensures r.Some? ==> |r.value| == count
    decreases count
  {
    if count == 0 then Some([])
    else match ByteAt(s, k)
      case None => None
      case Some(b) =>
        match BytesAt(s, k + 3, count - 1)
        case None => None
        case Some(rest) => Some([b] + rest)
  }

  /** `decodeURIComponent(s)`, `None` standing for the `URIError` it throws on a
      malformed escape or an invalid UTF-8 sequence. */
  function DecodeUriComponent(s: string): Option<string>
    decreases |s|
  {
    if s == [] then Some([])
    else if s[0] != '%' then
      match DecodeUriComponent(s[1..])
      case None => None
      case Some(t) => Some([s[0]] + t)
    else
      match ByteAt(s, 0)
      case None => None
      case Some(b) =>
        var len := SequenceLength(b);
        if len == 0 || 3 * len > |s| then None
        else match BytesAt(s, 0, len)
          case None => None
          case Some(bs) =>
            if exists i :: 1 <= i < len && !IsContinuation(bs[i]) then None
            else match Utf8Decode(bs)
              case None => None
              case Some(c) =>
                match DecodeUriComponent(s[3 * len..])
                case None => None
                case Some(t) => Some([c] + t)
  }

  lemma HexRoundTrip(d: int)
    requires 0 <= d < 16
    ensures HexValue(HexDigit(d)) == d
  {
  }

  lemma PercentByteRead(b: Byte, t: string)
    ensures ByteAt(PercentByte(b) + t, 0) == Some(b)
  {
    HexRoundTrip(b / 16);
    HexRoundTrip(b % 16);
  }

  lemma {:induction false} PercentBytesRead(bs: seq<Byte>, t: string)
    ensures BytesAt(PercentBytes(bs) + t, 0, |bs|) == Some(bs)
    decreases |bs|
  {
    if bs != [] {
      var s := PercentBytes(bs) + t;
      assert s == PercentByte(bs[0]) + (PercentBytes(bs[1..]) + t);
      PercentByteRead(bs[0], PercentBytes(bs[1..]) + t);
      PercentBytesRead(bs[1..], t);
      BytesAtShift(PercentByte(bs[0]), PercentBytes(bs[1..]) + t, |bs| - 1);
      assert BytesAt(s, 3, |bs| - 1) == Some(bs[1..]);
      assert [bs[0]] + bs[1..] == bs;
    }
  }

  /** Reading triplets after a three-character prefix is reading them in the rest. */
  lemma {:induction false} BytesAtShift(p: string, s: string, count: nat)
    requires |p| == 3
    ensures BytesAt(p + s, 3, count) == BytesAt(s, 0, count)
    decreases count
  {
    if count > 0 {
      assert ByteAt(p + s, 3) == ByteAt(s, 0) by {
        if 3 + 3 <= |p + s| {
          assert (p + s)[3] == s[0] && (p + s)[4] == s[1] && (p + s)[5] == s[2];
        }
      }
      BytesAtShiftFrom(p, s, 3, count - 1);
    }
  }

  lemma {:induction false} BytesAtShiftFrom(p: string, s: string, k: nat, count: nat)
    requires |p| == 3
    ensures BytesAt(p + s, k + 3, count) == BytesAt(s, k, count)
    decreases count
  {
    if count > 0 {
      assert ByteAt(p + s, k + 3) == ByteAt(s, k) by {
        if k + 3 + 3 <= |p + s| {
          assert (p + s)[k + 3] == s[k] && (p + s)[k + 4] == s[k + 1] && (p + s)[k + 5] == s[k + 2];
        }
      }
      BytesAtShiftFrom(p, s, k + 3, count - 1);
    }
  }

  /** Decoding the UTF-8 bytes of a character gives the character back. */
  lemma Utf8RoundTrip(c: char)
    ensures SequenceLength(Utf8(c)[0]) == |Utf8(c)|
    ensures forall i :: 1 <= i < |Utf8(c)| ==> IsContinuation(Utf8(c)[i])
    ensures Utf8Decode(Utf8(c)) == Some(c)
  {
    var n := c as int;
    if 0x80 <= n < 0x800 {
      Utf8Two(n);
    } else if 0x800 <= n < 0x10000 {
      Utf8Three(n);
    } else if 0x10000 <= n {
      Utf8Four(n);
    }
  }

  lemma Utf8Two(n: int)
    requires 0x80 <= n < 0x800
    ensures 0xC0 <= 0xC0 + n / 64 < 0xE0 && 0x80 <= 0x80 + n % 64 < 0xC0
    ensures (n / 64) * 64 + n % 64 == n
  {
  }

  lemma Utf8Three(n: int)
    requires 0x800 <= n < 0x10000
    ensures 0xE0 <= 0xE0 + n / 4096 < 0xF0
    ensures (n / 4096) * 4096 + (n / 64 % 64) * 64 + n % 64 == n
  {
    assert n % 4096 == (n / 64 % 64) * 64 + n % 64;
    assert n == (n / 4096) * 4096 + n % 4096;
  }

  lemma Utf8Four(n: int)
    requires 0x10000 <= n < 0x110000
    ensures 0xF0 <= 0xF0 + n / 262144 < 0xF8
    ensures (n / 262144) * 262144 + (n / 4096 % 64) * 4096 + (n / 64 % 64) * 64 + n % 64 == n
  {
    assert n % 4096 == (n / 64 % 64) * 64 + n % 64;
    assert n % 262144 == (n / 4096 % 64) * 4096 + n % 4096;
    assert n == (n / 262144) * 262144 + n % 262144;
  }

  /** Decoding the encoding of one character followed by `t`. */
  lemma DecodeUriCharThen(c: char, t: string)
    ensures DecodeUriComponent(EncodeUriChar(c) + t) ==
      match DecodeUriComponent(t) case None => None case Some(u) => Some([c] + u)
  {
    var e := EncodeUriChar(c);
    var s := e + t;
    if IsUriUnreserved(c) {
      assert s[1..] == t;
    } else {
      var bs := Utf8(c);
      Utf8RoundTrip(c);
      PercentBytesRead(bs, t);
      assert s == PercentByte(bs[0]) + (PercentBytes(bs[1..]) + t);
      PercentByteRead(bs[0], PercentBytes(bs[1..]) + t);
      assert s[3 * |bs|..] == t;
    }
  }

  /** `decodeURIComponent(encodeURIComponent(s)) === s` for every string. */
  lemma {:induction false} DecodeEncodeUri(s: string)
    ensures DecodeUriComponent(EncodeUriComponent(s)) == Some(s)
  {
    if s != [] {
      DecodeEncodeUri(s[1..]);
      DecodeUriCharThen(s[0], EncodeUriComponent(s[1..]));
      assert [s[0]] + s[1..] == s;
    }
  }

  /** Hence `encodeURIComponent` is injective. */
  lemma EncodeUriInjective(s: string, t: string)
    requires EncodeUriComponent(s) == EncodeUriComponent(t)
    ensures s == t
  {
    DecodeEncodeUri(s);
    DecodeEncodeUri(t);
  }

  // ---- application/x-www-form-urlencoded (URLSearchParams.toString) ----

  /** The characters the form serializer leaves as they are. */
  predicate IsFormSafe(c: char) {
    'A' <= c <= 'Z' || 'a' <= c <= 'z' || '0' <= c <= '9' ||
    c == '*' || c == '-' || c == '.' || c == '_'
  }

  function FormEncodeChar(c: char): string {
    if c == ' ' then "+" else if IsFormSafe(c) then [c] else PercentBytes(Utf8(c))
  }

  /** The form serializer applied to one name or value. */
  function FormEncode(s: string): (r: string)
    ensures '&' !in r && '=' !in r && '?' !in r
  {
    if s == [] then [] else FormEncodeChar(s[0]) + FormEncode(s[1..])
  }

  /** `URLSearchParams.toString()`: `name=value` pairs, in insertion order, joined by `&`. */
  function SerializeQuery(q: seq<(string, string)>): (r: string)
    ensures r == [] <==> q == []
    ensures '?' !in r
  {
    if q == [] then []
    else
      var pair := FormEncode(q[0].0) + "=" + FormEncode(q[0].1);
      assert pair[|FormEncode(q[0].0)|] == '=';
      if |q| == 1 then pair else pair + "&" + SerializeQuery(q[1..])
  }

  function CountChar(s: string, c: char): nat {
    if s == [] then 0 else (if s[0] == c then 1 else 0) + CountChar(s[1..], c)
  }

  lemma {:induction false} CountCharAppend(a: string, b: string, c: char)
    ensures CountChar(a + b, c) == CountChar(a, c) + CountChar(b, c)
  {
    if a != [] {
      assert (a + b)[1..] == a[1..] + b;
      CountCharAppend(a[1..], b, c);
    } else {
      assert a + b == b;
    }
  }

  lemma {:induction false} CountAbsent(s: string, c: char)
    requires c !in s
    ensures CountChar(s, c) == 0
  {
    if s != [] {
      assert s[0] != c && c !in s[1..];
      CountAbsent(s[1..], c);
    }
  }

  /** A serialized query holds one `&` fewer than it has pairs, so it splits back
      into exactly its pairs (names and values never contain `&` or `=`). */
  lemma {:induction false} SerializeQuerySeparators(q: seq<(string, string)>)
    requires q != []
    ensures CountChar(SerializeQuery(q), '&') == |q| - 1
    ensures CountChar(SerializeQuery(q), '=') == |q|
  {
    var n, v := FormEncode(q[0].0), FormEncode(q[0].1);
    var pair := n + "=" + v;
    CountAbsent(n, '&'); CountAbsent(v, '&'); CountAbsent(n, '='); CountAbsent(v, '=');
    CountCharAppend(n, "=", '&'); CountCharAppend(n + "=", v, '&');
    CountCharAppend(n, "=", '='); CountCharAppend(n + "=", v, '=');
    if |q| > 1 {
      SerializeQuerySeparators(q[1..]);
      var rest := SerializeQuery(q[1..]);
      CountCharAppend(pair, "&", '&'); CountCharAppend(pair + "&", rest, '&');
      CountCharAppend(pair, "&", '='); CountCharAppend(pair + "&", rest, '=');
    }
  }
}
