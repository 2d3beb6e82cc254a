/** `Uri.EscapeDataString` and the percent-decoding that undoes it
    (sections 2.1 and 2.3 of RFC 3986): an unreserved character stands for
    itself, every other character becomes the percent-encoded triplets of
    its UTF-8 bytes, written with upper-case hexadecimal digits. */
module PercentEncoding {

  import opened Results
  import opened Utf8

  /** ALPHA / DIGIT / "-" / "." / "_" / "~" (section 2.3 of RFC 3986). */
  predicate IsUnreserved(c: char)
  {
    'A' <= c <= 'Z' || 'a' <= c <= 'z' || '0' <= c <= '9' || c == '-' || c == '.' || c == '_' || c == '~'
  }

  const HexDigits := "0123456789ABCDEF"

  predicate IsUpperHexDigit(c: char)
  {
    '0' <= c <= '9' || 'A' <= c <= 'F'
  }

  /** The value of a hexadecimal digit of either case (section 2.1 of
      RFC 3986 makes the two cases equivalent). */
  function HexValue(c: char): (r: Option<int>)
    ensures r.Some? ==> 0 <= r.value < 16
  {
    if '0' <= c <= '9' then Some(c as int - '0' as int)
    else if 'A' <= c <= 'F' then Some(c as int - 'A' as int + 10)
    else if 'a' <= c <= 'f' then Some(c as int - 'a' as int + 10)
    else None
  }

  /** `%` and the two upper-case digits of `b`. */
  function Triplet(b: Byte): (t: string)
    ensures |t| == 3 && t[0] == '%' && IsUpperHexDigit(t[1]) && IsUpperHexDigit(t[2])
    ensures HexValue(t[1]) == Some(b / 16) && HexValue(t[2]) == Some(b % 16)
  {
    ['%', HexDigits[b / 16], HexDigits[b % 16]]
  }

  function Triplets(bytes: seq<Byte>): (r: string)
    ensures |r| == 3 * |bytes|
  {
    if |bytes| == 0 then "" else Triplet(bytes[0]) + Triplets(bytes[1..])
  }

  /** One character of the input, escaped. */
  function EscapeChar(c: char): (r: string)
    ensures IsUnreserved(c) ==> r == [c]
    ensures !IsUnreserved(c) ==> 3 <= |r| <= 12 && r[0] == '%'
  {
    if IsUnreserved(c) then [c] else Triplets(EncodeChar(c))
  }

  /** `Uri.EscapeDataString(s)`: each character in turn, unreserved ones
      kept and every other one replaced by the triplets of its UTF-8 bytes,
      so the text grows by at most twelve characters per character, and not
      at all exactly when nothing needs escaping. */
  function EscapeDataString(s: string): (r: string)
    ensures |s| <= |r| <= 12 * |s|
    ensures |r| == |s| <==> forall k :: 0 <= k < |s| ==> IsUnreserved(s[k])
  {
    if |s| == 0 then "" else EscapeChar(s[0]) + EscapeDataString(s[1..])
  }

  /** Text made only of unreserved characters and well-formed triplets. */
  predicate WellEscaped(s: string)
    decreases |s|
  {
    if |s| == 0 then true
    else if IsUnreserved(s[0]) then WellEscaped(s[1..])
    else 3 <= |s| && s[0] == '%' && IsUpperHexDigit(s[1]) && IsUpperHexDigit(s[2]) && WellEscaped(s[3..])
  }

  /** The bytes a percent-encoded text stands for: a triplet is its byte,
      any other character its own UTF-8 bytes; a `%` not followed by two
      hexadecimal digits makes the text malformed. */
  function Unescape(s: string): Option<seq<Byte>>
    decreases |s|
  {
    if |s| == 0 then Some([])
    else if s[0] == '%' then
      if 3 <= |s| && HexValue(s[1]).Some? && HexValue(s[2]).Some? then
        match Unescape(s[3..])
        case None => None
        case Some(rest) => Some([HexValue(s[1]).value * 16 + HexValue(s[2]).value] + rest)
      else None
    else
      match Unescape(s[1..])
      case None => None
      case Some(rest) => Some(EncodeChar(s[0]) + rest)
  }

  /** Percent-decoding: the text whose UTF-8 bytes the input stands for. */
  function PercentDecode(s: string): Option<string>
  {
    match Unescape(s)
    case None => None
    case Some(bytes) => Decode(bytes)
  }

  lemma {:induction false} WellEscapedAppend(a: string, b: string)
    requires WellEscaped(a) && WellEscaped(b)
    ensures WellEscaped(a + b)
    decreases |a|
  {
    if |a| > 0 {
      if IsUnreserved(a[0]) {
        assert (a + b)[1..] == a[1..] + b;
        WellEscapedAppend(a[1..], b);
      } else {
        assert (a + b)[3..] == a[3..] + b;
        WellEscapedAppend(a[3..], b);
      }
    } else {
      assert a + b == b;
    }
  }

  lemma {:induction false} TripletsWellEscaped(bytes: seq<Byte>)
    ensures WellEscaped(Triplets(bytes))
    decreases |bytes|
  {
    if |bytes| > 0 {
      var t := Triplets(bytes);
      TripletsWellEscaped(bytes[1..]);
      assert t[3..] == Triplets(bytes[1..]);
    }
  }

  /** Every output of the escaper is well formed. */
  lemma {:induction false} EscapeWellEscaped(s: string)
    ensures WellEscaped(EscapeDataString(s))
    decreases |s|
  {
    if |s| > 0 {
      if !IsUnreserved(s[0]) {
        TripletsWellEscaped(EncodeChar(s[0]));
      }
      EscapeWellEscaped(s[1..]);
      WellEscapedAppend(EscapeChar(s[0]), EscapeDataString(s[1..]));
    }
  }

  /** A well-escaped text consists of unreserved characters, `%` and
      upper-case hexadecimal digits only. */
  lemma {:induction false} WellEscapedAlphabet(s: string)
    requires WellEscaped(s)
    ensures forall k :: 0 <= k < |s| ==> IsUnreserved(s[k]) || s[k] == '%' || IsUpperHexDigit(s[k])
    decreases |s|
  {
    if |s| > 0 {
      var n := if IsUnreserved(s[0]) then 1 else 3;
      WellEscapedAlphabet(s[n..]);
      forall k | n <= k < |s|
        ensures IsUnreserved(s[k]) || s[k] == '%' || IsUpperHexDigit(s[k])
      {
        assert s[k] == s[n..][k - n];
      }
    }
  }

  /** An escaped value cannot change the structure of the URI it is put
      into: none of the delimiters of a query survives escaping. */
  lemma EscapedHasNoDelimiters(s: string)
    ensures forall k :: 0 <= k < |EscapeDataString(s)| ==> EscapeDataString(s)[k] !in "&=?#/:+ "
  {
    EscapeWellEscaped(s);
    WellEscapedAlphabet(EscapeDataString(s));
  }

  lemma UnescapePlainCons(c: char, rest: string)
    requires c != '%' && Unescape(rest).Some?
    ensures Unescape([c] + rest) == Some(EncodeChar(c) + Unescape(rest).value)
  {
  }

  lemma UnescapeTripletCons(t: string, rest: string)
    requires |t| == 3 && t[0] == '%' && HexValue(t[1]).Some? && HexValue(t[2]).Some?
    requires Unescape(rest).Some?
    ensures Unescape(t + rest) == Some([HexValue(t[1]).value * 16 + HexValue(t[2]).value] + Unescape(rest).value)
  {
  }

  lemma {:induction false} UnescapeAppend(a: string, b: string)
    requires WellEscaped(a)
    requires Unescape(a).Some? && Unescape(b).Some?
    ensures Unescape(a + b) == Some(Unescape(a).value + Unescape(b).value)
    decreases |a|
  {
    if |a| == 0 {
      assert a + b == b;
      assert Unescape(a).value + Unescape(b).value == Unescape(b).value;
    } else {
      var n := if IsUnreserved(a[0]) then 1 else 3;
      var head, tail := a[..n], a[n..];
      assert a == head + tail && a + b == head + (tail + b);
      if n == 1 {
        var x := EncodeChar(a[0]);
        assert head == [a[0]] && a[0] != '%';
        UnescapePlainCons(a[0], tail);
        UnescapeAppend(tail, b);
        UnescapePlainCons(a[0], tail + b);
        assert x + (Unescape(tail).value + Unescape(b).value) == (x + Unescape(tail).value) + Unescape(b).value;
      } else {
        assert head[0] == '%' && head[1] == a[1] && head[2] == a[2];
        assert HexValue(head[1]).Some? && HexValue(head[2]).Some?;
        var x := HexValue(head[1]).value * 16 + HexValue(head[2]).value;
        UnescapeTripletCons(head, tail);
        UnescapeAppend(tail, b);
        UnescapeTripletCons(head, tail + b);
        assert [x] + (Unescape(tail).value + Unescape(b).value) == ([x] + Unescape(tail).value) + Unescape(b).value;
      }
    }
  }

  lemma {:induction false} UnescapeTriplets(bytes: seq<Byte>)
    ensures Unescape(Triplets(bytes)) == Some(bytes)
    decreases |bytes|
  {
    if |bytes| > 0 {
      var t := Triplets(bytes);
      var b := bytes[0];
      assert t == Triplet(b) + Triplets(bytes[1..]);
      assert t[1] == Triplet(b)[1] && t[2] == Triplet(b)[2];
      assert t[3..] == Triplets(bytes[1..]);
      UnescapeTriplets(bytes[1..]);
      assert HexValue(t[1]).value * 16 + HexValue(t[2]).value == b;
      assert [b] + bytes[1..] == bytes;
    }
  }

  /** An unreserved character is ASCII, so its one UTF-8 byte is itself. */
  lemma UnescapeChar(c: char)
    ensures WellEscaped(EscapeChar(c))
    ensures Unescape(EscapeChar(c)) == Some(EncodeChar(c))
  {
    if IsUnreserved(c) {
      var e := EscapeChar(c);
      assert e == [c] && e[0] != '%';
      assert e[1..] == "";
      assert EncodeChar(c) + [] == EncodeChar(c);
    } else {
      TripletsWellEscaped(EncodeChar(c));
      UnescapeTriplets(EncodeChar(c));
    }
  }

  /** Escaping keeps the UTF-8 bytes of its input. */
  lemma {:induction false} UnescapeEscape(s: string)
    ensures Unescape(EscapeDataString(s)) == Some(Encode(s))
    decreases |s|
  {
    if |s| > 0 {
      UnescapeChar(s[0]);
      UnescapeEscape(s[1..]);
      UnescapeAppend(EscapeChar(s[0]), EscapeDataString(s[1..]));
    }
  }

  /** Percent-decoding an escaped value gives back the value. */
  lemma PercentDecodeEscape(s: string)
    ensures PercentDecode(EscapeDataString(s)) == Some(s)
  {
    UnescapeEscape(s);
    DecodeEncode(s);
  }

  /** Escaping is injective: distinct values never share an escaped form. */
  lemma EscapeInjective(a: string, b: string)
    requires EscapeDataString(a) == EscapeDataString(b)
    ensures a == b
  {
    PercentDecodeEscape(a);
    PercentDecodeEscape(b);
  }

  /** The `%` a profile handle may contain is itself escaped. */
  lemma EscapesPercentSign()
    ensures EscapeDataString("%") == "%25"
  {
  }

  /** Unreserved text passes through unchanged. */
  lemma {:induction false} EscapeUnreserved(s: string)
    requires forall k :: 0 <= k < |s| ==> IsUnreserved(s[k])
    ensures EscapeDataString(s) == s
    decreases |s|
  {
    if |s| > 0 {
      EscapeUnreserved(s[1..]);
    }
  }
}
