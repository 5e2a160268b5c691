/**
 * Strings on both sides of the wish tree.
 *
 * The browser code works on JavaScript strings, which are sequences of UTF-16
 * code units: `.length` and `substring` count units, not characters. The
 * server code works on Python strings, which are sequences of code points.
 * A JavaScript string is modelled as a `JsString` (a sequence of `CodeUnit`),
 * a Python string as a Dafny `string`; `Utf16` encodes the latter as the
 * former and `DecodeUtf16` undoes it.
 *
 * The two languages also trim different sets of whitespace, so `JsTrim` and
 * `PyStrip` are kept apart and share only the generic `Trim`.
 */
module Text {
  import opened Common

  /** One UTF-16 code unit, the element of a JavaScript string. */
  newtype CodeUnit = x: int | 0 <= x < 0x1_0000

  type JsString = seq<CodeUnit>

  predicate IsHighSurrogate(u: CodeUnit) { 0xD800 <= u < 0xDC00 }

  predicate IsLowSurrogate(u: CodeUnit) { 0xDC00 <= u < 0xE000 }

  /** The UTF-16 encoding of one code point: one unit in the Basic
      Multilingual Plane, a surrogate pair above it. */
  function EncodeChar(c: char): (u: JsString)
    ensures |u| == (if c as int < 0x1_0000 then 1 else 2)
    ensures |u| == 1 ==> u[0] as int == c as int && !IsHighSurrogate(u[0]) && !IsLowSurrogate(u[0])
    ensures |u| == 2 ==> IsHighSurrogate(u[0]) && IsLowSurrogate(u[1])
  {
    var v := c as int;
    if v < 0x1_0000 then [v as CodeUnit]
    else [(0xD800 + (v - 0x1_0000) / 0x400) as CodeUnit, (0xDC00 + (v - 0x1_0000) % 0x400) as CodeUnit]
  }

  /** The JavaScript string holding the same text as a Python string. */
  function Utf16(s: string): (u: JsString)
    ensures |u| >= |s|
    ensures s == [] <==> u == []
    decreases |s|
  {
    if s == [] then [] else EncodeChar(s[0]) + Utf16(s[1..])
  }

  /** The Python string a JavaScript string decodes to; None when it holds
      an unpaired surrogate. */
  function DecodeUtf16(u: JsString): (r: Option<string>)
    decreases |u|
  {
    if u == [] then Some([])
    else if !IsHighSurrogate(u[0]) && !IsLowSurrogate(u[0]) then
      match DecodeUtf16(u[1..])
      case None => None
      case Some(t) => Some([u[0] as int as char] + t)
    else if IsHighSurrogate(u[0]) && |u| >= 2 && IsLowSurrogate(u[1]) then
      match DecodeUtf16(u[2..])
      case None => None
      case Some(t) =>
        Some([(0x1_0000 + (u[0] as int - 0xD800) * 0x400 + (u[1] as int - 0xDC00)) as char] + t)
    else None
  }

  lemma EncodeThenDecodeChar(c: char, rest: JsString)
    ensures DecodeUtf16(EncodeChar(c) + rest) ==
      match DecodeUtf16(rest)
      case None => None
      case Some(t) => Some([c] + t)
  {
    var u := EncodeChar(c) + rest;
    if c as int < 0x1_0000 {
      assert u[1..] == rest;
    } else {
      assert u[2..] == rest;
      var v := c as int - 0x1_0000;
      assert v == (v / 0x400) * 0x400 + v % 0x400;
    }
  }

  /** Decoding undoes encoding: a text survives the trip from Python to
      JavaScript and back. */
  lemma {:induction false} DecodeUtf16OfUtf16(s: string)
    ensures DecodeUtf16(Utf16(s)) == Some(s)
    decreases |s|
  {
    if s != [] {
      DecodeUtf16OfUtf16(s[1..]);
      EncodeThenDecodeChar(s[0], Utf16(s[1..]));
      assert [s[0]] + s[1..] == s;
    }
  }

  /** Encoding the other way round: a JavaScript string without unpaired
      surrogates is the encoding of what it decodes to. */
  lemma {:induction false} Utf16OfDecodeUtf16(u: JsString)
    requires DecodeUtf16(u).Some?
    ensures Utf16(DecodeUtf16(u).value) == u
    decreases |u|
  {
    if u != [] {
      var s := DecodeUtf16(u).value;
      if !IsHighSurrogate(u[0]) && !IsLowSurrogate(u[0]) {
        Utf16OfDecodeUtf16(u[1..]);
        assert s[1..] == DecodeUtf16(u[1..]).value;
        assert [u[0]] + u[1..] == u;
      } else {
        Utf16OfDecodeUtf16(u[2..]);
        assert s[1..] == DecodeUtf16(u[2..]).value;
        var hi, lo := u[0] as int - 0xD800, u[1] as int - 0xDC00;
        assert s[0] as int - 0x1_0000 == hi * 0x400 + lo;
        assert (hi * 0x400 + lo) / 0x400 == hi && (hi * 0x400 + lo) % 0x400 == lo;
        assert EncodeChar(s[0]) == u[..2];
        assert u[..2] + u[2..] == u;
      }
    }
  }

  /** Encoding distributes over concatenation. */
  lemma {:induction false} Utf16Append(a: string, b: string)
    ensures Utf16(a + b) == Utf16(a) + Utf16(b)
    decreases |a|
  {
    if a != [] {
      Utf16Append(a[1..], b);
      assert (a + b)[0] == a[0] && (a + b)[1..] == a[1..] + b;
    } else {
      assert a + b == b;
    }
  }

  /** A text starts with the first unit of its first character and ends
      with the last unit of its last one. */
  lemma Utf16Ends(s: string)
    requires s != []
    ensures Utf16(s)[0] == EncodeChar(s[0])[0]
    ensures Utf16(s)[|Utf16(s)| - 1] == EncodeChar(s[|s| - 1])[|EncodeChar(s[|s| - 1])| - 1]
  {
    var c := s[|s| - 1];
    Utf16Append(s[..|s| - 1], [c]);
    assert s[..|s| - 1] + [c] == s;
    assert Utf16([c]) == EncodeChar(c) + Utf16([]);
  }

  /** A text made only of characters above the Basic Multilingual Plane
      takes two units per character. */
  lemma {:induction false} Utf16OfAstral(s: string)
    requires forall i :: 0 <= i < |s| ==> !InBmp(s[i])
    ensures |Utf16(s)| == 2 * |s|
    decreases |s|
  {
    if s != [] {
      assert forall i :: 0 <= i < |s[1..]| ==> !InBmp(s[1..][i]) by {
        forall i | 0 <= i < |s[1..]| ensures !InBmp(s[1..][i]) {
          assert s[1..][i] == s[i + 1];
        }
      }
      Utf16OfAstral(s[1..]);
      assert !InBmp(s[0]);
    }
  }

  predicate InBmp(c: char) { c as int < 0x1_0000 }

  /** A literal text of the Basic Multilingual Plane as a JavaScript
      string: one unit per character. (A character above the plane, which
      no literal of this model contains, would become U+FFFD.) */
  function Lit(s: string): (u: JsString)
    ensures |u| == |s|
  {
    seq(|s|, i requires 0 <= i < |s| => if InBmp(s[i]) then s[i] as int as CodeUnit else 0xFFFD)
  }

  /** Every character of a text lies in the Basic Multilingual Plane,
      checked one character after another (which is how the verifier
      evaluates it on a literal). */
  predicate AllInBmp(s: string)
    decreases |s|
  {
    s == [] || (InBmp(s[0]) && AllInBmp(s[1..]))
  }

  lemma {:induction false} AllInBmpAt(s: string)
    requires AllInBmp(s)
    ensures forall i :: 0 <= i < |s| ==> InBmp(s[i])
    decreases |s|
  {
    if s != [] {
      AllInBmpAt(s[1..]);
      assert forall i :: 1 <= i < |s| ==> s[i] == s[1..][i - 1];
    }
  }

  /** For such texts the literal form is the UTF-16 encoding. */
  lemma {:induction false} LitIsUtf16(s: string)
    requires forall i :: 0 <= i < |s| ==> InBmp(s[i])
    ensures Lit(s) == Utf16(s)
    decreases |s|
  {
    if s != [] {
      assert forall i :: 0 <= i < |s[1..]| ==> InBmp(s[1..][i]) by {
        forall i | 0 <= i < |s[1..]| ensures InBmp(s[1..][i]) {
          assert s[1..][i] == s[i + 1];
        }
      }
      LitIsUtf16(s[1..]);
      assert InBmp(s[0]);
      assert Lit(s) == Lit([s[0]]) + Lit(s[1..]);
    }
  }

  /** JavaScript's `.length` of a text equals Python's `len` exactly when
      the text has no character above the Basic Multilingual Plane, and
      exceeds it otherwise. */
  lemma {:induction false} Utf16LengthExact(s: string)
    ensures |Utf16(s)| == |s| <==> forall i :: 0 <= i < |s| ==> InBmp(s[i])
    decreases |s|
  {
    if s != [] {
      Utf16LengthExact(s[1..]);
      assert forall i :: 1 <= i < |s| ==> s[i] == s[1..][i - 1];
      if forall i :: 0 <= i < |s| ==> InBmp(s[i]) {
        assert forall i :: 0 <= i < |s[1..]| ==> InBmp(s[1..][i]) by {
          forall i | 0 <= i < |s[1..]| ensures InBmp(s[1..][i]) {
            assert s[1..][i] == s[i + 1];
          }
        }
      }
    }
  }

  // ---------------------------------------------------------------------
  // Trimming

  /** Drops the leading elements that satisfy `white`. */
  function TrimStart<T>(s: seq<T>, white: T -> bool): (r: seq<T>)
    ensures |r| <= |s| && r == s[|s| - |r|..]
    ensures r == [] || !white(r[0])
    ensures forall i :: 0 <= i < |s| - |r| ==> white(s[i])
    decreases |s|
  {
    if s != [] && white(s[0]) then TrimStart(s[1..], white) else s
  }

  /** Drops the trailing elements that satisfy `white`. */
  function TrimEnd<T>(s: seq<T>, white: T -> bool): (r: seq<T>)
    ensures |r| <= |s| && r == s[..|r|]
    ensures r == [] || !white(r[|r| - 1])
    ensures forall i :: |r| <= i < |s| ==> white(s[i])
    decreases |s|
  {
    if s != [] && white(s[|s| - 1]) then TrimEnd(s[..|s| - 1], white) else s
  }

  /** How many leading elements `Trim` removes. */
  function LeadingWhite<T>(s: seq<T>, white: T -> bool): nat
  {
    |s| - |TrimStart(s, white)|
  }

  /** Drops leading and trailing elements that satisfy `white`: what is
      left is the slice of `s` between its first and its last non-white
      element, and is empty exactly when every element is white. */
  function Trim<T>(s: seq<T>, white: T -> bool): (r: seq<T>)
    ensures LeadingWhite(s, white) + |r| <= |s|
    ensures r == s[LeadingWhite(s, white)..LeadingWhite(s, white) + |r|]
    ensures r == [] || (!white(r[0]) && !white(r[|r| - 1]))
    ensures forall i :: 0 <= i < LeadingWhite(s, white) ==> white(s[i])
    ensures forall i :: LeadingWhite(s, white) + |r| <= i < |s| ==> white(s[i])
  {
    TrimEnd(TrimStart(s, white), white)
  }

  predicate AllWhite<T>(s: seq<T>, white: T -> bool)
  {
    forall i :: 0 <= i < |s| ==> white(s[i])
  }

  /** The reference definition of trimming: a text made of a white prefix,
      a middle that is empty or starts and ends with a non-white element,
      and a white suffix, trims to that middle. */
  lemma TrimOfPadded<T>(p: seq<T>, m: seq<T>, q: seq<T>, white: T -> bool)
    requires AllWhite(p, white) && AllWhite(q, white)
    requires m == [] || (!white(m[0]) && !white(m[|m| - 1]))
    ensures Trim(p + m + q, white) == m
  {
    var s := p + m + q;
    var r := Trim(s, white);
    var a := LeadingWhite(s, white);
    if m == [] {
      assert AllWhite(s, white) by {
        forall i | 0 <= i < |s| ensures white(s[i]) {
          if i < |p| { assert s[i] == p[i]; } else { assert s[i] == q[i - |p|]; }
        }
      }
    } else {
      // s[|p|] is the first non-white element and s[|p| + |m| - 1] the last.
      assert s[|p|] == m[0];
      assert s[|p| + |m| - 1] == m[|m| - 1];
      assert r != [];
      assert s[a] == r[0];
      assert s[a + |r| - 1] == r[|r| - 1];
      assert a == |p|;
      assert a + |r| == |p| + |m|;
    }
  }

  /** A text that neither starts nor ends with a white element trims to
      itself. */
  lemma TrimOfBare<T>(m: seq<T>, white: T -> bool)
    requires m == [] || (!white(m[0]) && !white(m[|m| - 1]))
    ensures Trim(m, white) == m
  {
    TrimOfPadded([], m, [], white);
    assert [] + m + [] == m;
  }

  /** Every element of a text is white exactly when it trims to nothing. */
  lemma TrimEmptyIffAllWhite<T>(s: seq<T>, white: T -> bool)
    ensures Trim(s, white) == [] <==> AllWhite(s, white)
  {
  }

  /** Trimming a trimmed text changes nothing. */
  lemma TrimIdempotent<T>(s: seq<T>, white: T -> bool)
    ensures Trim(Trim(s, white), white) == Trim(s, white)
  {
    var m := Trim(s, white);
    TrimOfPadded([], m, [], white);
    assert [] + m + [] == m;
  }

  // ---------------------------------------------------------------------
  // The two whitespace sets

  /** The units `String.prototype.trim` removes: the WhiteSpace and
      LineTerminator code points of ECMAScript (sections 12.2 and 12.3 of
      ECMA-262), all of which lie in the Basic Multilingual Plane. */
  predicate IsJsWhite(u: CodeUnit)
  {
    (0x09 <= u <= 0x0D) || u == 0x20 || u == 0xA0 || u == 0x1680 || (0x2000 <= u <= 0x200A)
    || u == 0x2028 || u == 0x2029 || u == 0x202F || u == 0x205F || u == 0x3000 || u == 0xFEFF
  }

  /** The code points Python's `str.strip()` removes when called without
      an argument: those for which `str.isspace()` holds. */
  predicate IsPyWhite(c: char)
  {
    var v := c as int;
    (0x09 <= v <= 0x0D) || (0x1C <= v <= 0x1F) || v == 0x20 || v == 0x85 || v == 0xA0 || v == 0x1680
    || (0x2000 <= v <= 0x200A) || v == 0x2028 || v == 0x2029 || v == 0x202F || v == 0x205F || v == 0x3000
  }

  /** JavaScript `s.trim()`. */
  function JsTrim(s: JsString): JsString
  {
    Trim(s, IsJsWhite)
  }

  /** Python `s.strip()`. */
  function PyStrip(s: string): string
  {
    Trim(s, IsPyWhite)
  }

  // ---------------------------------------------------------------------
  // Decimal rendering

  predicate IsDigit(u: CodeUnit) { '0' as CodeUnit <= u <= '9' as CodeUnit }

  /** What JavaScript shows when a non-negative integer is written into
      `textContent`: its decimal digits, most significant first, with no
      leading zero. */
  function DecimalText(n: nat): (s: JsString)
    ensures |s| >= 1
    ensures forall i :: 0 <= i < |s| ==> IsDigit(s[i])
    ensures (s[0] == '0' as CodeUnit) <==> n == 0
    decreases n
  {
    if n < 10 then ['0' as CodeUnit + n as CodeUnit]
    else DecimalText(n / 10) + ['0' as CodeUnit + (n % 10) as CodeUnit]
  }

  /** The number a string of decimal digits denotes. */
  function DecimalValue(s: JsString): nat
    requires forall i :: 0 <= i < |s| ==> IsDigit(s[i])
    decreases |s|
  {
    if s == [] then 0
    else
      var last := s[|s| - 1];
      assert IsDigit(last);
      DecimalValue(s[..|s| - 1]) * 10 + (last as int - '0' as int)
  }

  /** Reading the digits back gives the number that was written. */
  lemma {:induction false} DecimalTextRoundTrip(n: nat)
    ensures DecimalValue(DecimalText(n)) == n
    decreases n
  {
    if n >= 10 {
      DecimalTextRoundTrip(n / 10);
      var s := DecimalText(n);
      assert s[..|s| - 1] == DecimalText(n / 10);
    }
  }
}
