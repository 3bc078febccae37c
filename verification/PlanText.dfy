/**
 The canonical text a plan is fingerprinted from: compact JSON, escaped to ASCII
 as `json.dumps` does by default. The decoder reads every escape of section 7 of
 RFC 8259; decoding the printed text gives the list back.
 */
module PlanText {
  import opened Wrappers

  /** The part of a planned change that is fingerprinted. */
  datatype Line = Line(address: string, actions: seq<string>)

  // ----- Printing strings -----

  function HexDigit(d: nat): char
    requires d < 16
  {
    if d < 10 then '0' + (d as char) else 'a' + ((d - 10) as char)
  }

  function Hex4(n: nat): string
    requires n < 0x10000
  {
    [HexDigit(n / 4096), HexDigit(n / 256 % 16), HexDigit(n / 16 % 16), HexDigit(n % 16)]
  }

  function UnicodeEscape(n: nat): string
    requires n < 0x10000
  {
    "\\u" + Hex4(n)
  }

  /** One character of a JSON string; above the basic plane, a surrogate pair. */
  function Escape(c: char): string {
    if c == '"' then "\\\""
    else if c == '\\' then "\\\\"
    else if c == '\n' then "\\n"
    else if c == '\r' then "\\r"
    else if c == '\t' then "\\t"
    else if c as int == 0x0C then "\\f"
    else if c as int == 0x08 then "\\b"
    else if ' ' <= c <= '~' then [c]
    else if (c as int) < 0x10000 then UnicodeEscape(c as int)
    else
      var n := c as int - 0x10000;
      UnicodeEscape(0xD800 + n / 1024) + UnicodeEscape(0xDC00 + n % 1024)
  }

  function EscapeAll(s: string): string {
    if s == "" then "" else Escape(s[0]) + EscapeAll(s[1..])
  }

  function Quote(s: string): string {
    "\"" + (EscapeAll(s) + "\"")
  }

  // ----- Reading strings -----

  function HexValue(c: char): Option<nat> {
    if '0' <= c <= '9' then Some((c - '0') as nat)
    else if 'a' <= c <= 'f' then Some((c - 'a') as nat + 10)
    else if 'A' <= c <= 'F' then Some((c - 'A') as nat + 10)
    else None
  }

  /** The code unit of a `\uXXXX` escape at the start of a text. */
  function CodeUnit(t: string): (r: Option<nat>)
    ensures r.Some? ==> r.value < 0x10000 && |t| >= 6
  {
    if |t| < 6 || t[0] != '\\' || t[1] != 'u' then None
    else
      var (a, b, c, d) := (HexValue(t[2]), HexValue(t[3]), HexValue(t[4]), HexValue(t[5]));
      if a.None? || b.None? || c.None? || d.None? then None
      else if a.value > 15 || b.value > 15 || c.value > 15 || d.value > 15 then None
      else Some(4096 * a.value + 256 * b.value + 16 * c.value + d.value)
  }

  /** A two-character escape. */
  function ShortEscape(c: char): Option<char> {
    if c == '"' || c == '\\' || c == '/' then Some(c)
    else if c == 'b' then Some(8 as char)
    else if c == 'f' then Some(12 as char)
    else if c == 'n' then Some('\n')
    else if c == 'r' then Some('\r')
    else if c == 't' then Some('\t')
    else None
  }

  /** The first character of a JSON string's contents and the text after it; None at malformed input. */
  function ReadChar(t: string): (r: Option<(char, string)>)
    ensures r.Some? ==> |r.value.1| < |t|
  {
    if t == "" || t[0] == '"' || (t[0] as int) < 0x20 then None
    else if t[0] != '\\' then Some((t[0], t[1..]))
    else if |t| < 2 then None
    else if ShortEscape(t[1]).Some? then Some((ShortEscape(t[1]).value, t[2..]))
    else
      var u := CodeUnit(t);
      if u.None? then None
      else if u.value < 0xD800 || 0xE000 <= u.value then Some((u.value as char, t[6..]))
      else if 0xDC00 <= u.value then None
      else
        var low := CodeUnit(t[6..]);
        if low.None? || low.value < 0xDC00 || 0xE000 <= low.value then None
        else Some(((0x10000 + 1024 * (u.value - 0xD800) + (low.value - 0xDC00)) as char, t[12..]))
  }

  /** The contents of a JSON string up to its closing quote, and the text after that. */
  function ReadContents(t: string): (r: Option<(string, string)>)
    ensures r.Some? ==> |r.value.1| < |t|
    decreases |t|
  {
    if t == "" then None
    else if t[0] == '"' then Some(("", t[1..]))
    else
      var c := ReadChar(t);
      if c.None? then None
      else
        var rest := ReadContents(c.value.1);
        if rest.None? then None else Some(([c.value.0] + rest.value.0, rest.value.1))
  }

  function ReadString(t: string): (r: Option<(string, string)>)
    ensures r.Some? ==> |r.value.1| < |t|
  {
    if t == "" || t[0] != '"' then None else ReadContents(t[1..])
  }

  // ----- Strings round-trip -----

  lemma HexDigitRoundTrip(d: nat)
    requires d < 16
    ensures HexValue(HexDigit(d)) == Some(d)
  {
  }

  /** A number below 16^4 is the sum of its four hexadecimal digits. */
  lemma FourDigits(n: nat)
    requires n < 0x10000
    ensures n / 4096 < 16
    ensures n == 4096 * (n / 4096) + 256 * (n / 256 % 16) + 16 * (n / 16 % 16) + n % 16
  {
    var a, b := n / 16, n / 256;
    assert n / 4096 == b / 16 && b == a / 16;
  }

  lemma CodeUnitOfDigits(a: nat, b: nat, c: nat, d: nat, rest: string)
    requires a < 16 && b < 16 && c < 16 && d < 16
    ensures CodeUnit(['\\', 'u', HexDigit(a), HexDigit(b), HexDigit(c), HexDigit(d)] + rest)
            == Some(4096 * a + 256 * b + 16 * c + d)
  {
    HexDigitRoundTrip(a);
    HexDigitRoundTrip(b);
    HexDigitRoundTrip(c);
    HexDigitRoundTrip(d);
  }

  lemma CodeUnitRoundTrip(n: nat, rest: string)
    requires n < 0x10000
    ensures CodeUnit(UnicodeEscape(n) + rest) == Some(n)
    ensures (UnicodeEscape(n) + rest)[6..] == rest
  {
    FourDigits(n);
    var (a, b, c, d) := (n / 4096, n / 256 % 16, n / 16 % 16, n % 16);
    CodeUnitOfDigits(a, b, c, d, rest);
    assert UnicodeEscape(n) == ['\\', 'u', HexDigit(a), HexDigit(b), HexDigit(c), HexDigit(d)];
  }

  /** A surrogate pair is read as one character. */
  lemma ReadPair(high: nat, low: nat, rest: string)
    requires 0xD800 <= high < 0xDC00 <= low < 0xE000
    ensures ReadChar(UnicodeEscape(high) + (UnicodeEscape(low) + rest))
            == Some(((0x10000 + 1024 * (high - 0xD800) + (low - 0xDC00)) as char, rest))
  {
    var tail := UnicodeEscape(low) + rest;
    var t := UnicodeEscape(high) + tail;
    CodeUnitRoundTrip(high, tail);
    CodeUnitRoundTrip(low, rest);
    assert t[12..] == t[6..][6..];
    assert t[0] == '\\' && t[1] == 'u';
  }

  lemma PairRoundTrip(c: char, rest: string)
    requires 0x10000 <= c as int
    ensures ReadChar(Escape(c) + rest) == Some((c, rest))
  {
    var n := c as int - 0x10000;
    var high, low := 0xD800 + n / 1024, 0xDC00 + n % 1024;
    assert Escape(c) + rest == UnicodeEscape(high) + (UnicodeEscape(low) + rest);
    assert 1024 * (n / 1024) + n % 1024 == n;
    ReadPair(high, low, rest);
  }

  lemma ShortRoundTrip(c: char, rest: string)
    requires |Escape(c)| <= 2
    ensures ReadChar(Escape(c) + rest) == Some((c, rest))
  {
    var t := Escape(c) + rest;
    assert t[|Escape(c)|..] == rest;
    assert t[0] == Escape(c)[0] && (|Escape(c)| == 2 ==> t[1] == Escape(c)[1]);
  }

  lemma UnitRoundTrip(n: nat, rest: string)
    requires n < 0xD800 || 0xE000 <= n < 0x10000
    ensures ReadChar(UnicodeEscape(n) + rest) == Some((n as char, rest))
  {
    CodeUnitRoundTrip(n, rest);
    assert (UnicodeEscape(n) + rest)[1] == 'u';
  }

  lemma LongEscape(c: char)
    requires c as int < 0x10000 && |Escape(c)| > 2
    ensures Escape(c) == UnicodeEscape(c as int)
    ensures c as int < 0xD800 || 0xE000 <= c as int
  {
  }

  lemma CharRoundTrip(c: char, rest: string)
    ensures ReadChar(Escape(c) + rest) == Some((c, rest))
  {
    if 0x10000 <= c as int {
      PairRoundTrip(c, rest);
    } else if |Escape(c)| <= 2 {
      ShortRoundTrip(c, rest);
    } else {
      LongEscape(c);
      UnitRoundTrip(c as int, rest);
    }
  }

  lemma EscapeStart(c: char)
    ensures Escape(c) != "" && Escape(c)[0] != '"'
  {
  }

  /** An escaped character in front is read first. */
  lemma ReadEscaped(c: char, tail: string)
    requires ReadContents(tail).Some?
    ensures ReadContents(Escape(c) + tail)
            == Some(([c] + ReadContents(tail).value.0, ReadContents(tail).value.1))
  {
    EscapeStart(c);
    CharRoundTrip(c, tail);
    var t := Escape(c) + tail;
    assert t != "" && t[0] != '"';
    assert ReadChar(t) == Some((c, tail));
  }

  lemma {:induction false} ContentsRoundTrip(s: string, rest: string)
    ensures ReadContents(EscapeAll(s) + ("\"" + rest)) == Some((s, rest))
    decreases |s|
  {
    if s == "" {
      assert EscapeAll(s) + ("\"" + rest) == "\"" + rest;
      assert ("\"" + rest)[1..] == rest;
    } else {
      var tail := EscapeAll(s[1..]) + ("\"" + rest);
      assert EscapeAll(s) + ("\"" + rest) == Escape(s[0]) + tail;
      ContentsRoundTrip(s[1..], rest);
      ReadEscaped(s[0], tail);
      assert s == [s[0]] + s[1..];
    }
  }

  lemma StringRoundTrip(s: string, rest: string)
    ensures ReadString(Quote(s) + rest) == Some((s, rest))
  {
    var t := Quote(s) + rest;
    assert t[1..] == EscapeAll(s) + ("\"" + rest);
    ContentsRoundTrip(s, rest);
  }

  // ----- Lists -----

  /** The elements after the first, and the closing bracket. */
  function PrintStrings(xs: seq<string>): string {
    if xs == [] then "]" else "," + (Quote(xs[0]) + PrintStrings(xs[1..]))
  }

  function PrintActions(xs: seq<string>): string {
    if xs == [] then "[]" else "[" + (Quote(xs[0]) + PrintStrings(xs[1..]))
  }

  function PrintLine(l: Line): string {
    "[" + (Quote(l.address) + ("," + (PrintActions(l.actions) + "]")))
  }

  function PrintLines(ls: seq<Line>): string {
    if ls == [] then "]" else "," + (PrintLine(ls[0]) + PrintLines(ls[1..]))
  }

  /** json.dumps of the list of [address, [action, …]] pairs, without spaces. */
  function Canonical(ls: seq<Line>): string {
    if ls == [] then "[]" else "[" + (PrintLine(ls[0]) + PrintLines(ls[1..]))
  }

  function Symbol(c: char, t: string): (r: Option<string>)
    ensures r.Some? ==> |r.value| < |t|
  {
    if t != "" && t[0] == c then Some(t[1..]) else None
  }

  function ReadStrings(t: string): (r: Option<(seq<string>, string)>)
    ensures r.Some? ==> |r.value.1| < |t|
    decreases |t|
  {
    if Symbol(']', t).Some? then Some(([], Symbol(']', t).value))
    else if Symbol(',', t).None? then None
    else
      var x := ReadString(Symbol(',', t).value);
      if x.None? then None
      else
        var xs := ReadStrings(x.value.1);
        if xs.None? then None else Some(([x.value.0] + xs.value.0, xs.value.1))
  }

  function ReadActions(t: string): (r: Option<(seq<string>, string)>)
    ensures r.Some? ==> |r.value.1| < |t|
  {
    if Symbol('[', t).None? then None
    else
      var t1 := Symbol('[', t).value;
      if Symbol(']', t1).Some? then Some(([], Symbol(']', t1).value))
      else
        var x := ReadString(t1);
        if x.None? then None
        else
          var xs := ReadStrings(x.value.1);
          if xs.None? then None else Some(([x.value.0] + xs.value.0, xs.value.1))
  }

  function ReadLine(t: string): (r: Option<(Line, string)>)
    ensures r.Some? ==> |r.value.1| < |t|
  {
    if Symbol('[', t).None? then None
    else
      var a := ReadString(Symbol('[', t).value);
      if a.None? || Symbol(',', a.value.1).None? then None
      else
        var xs := ReadActions(Symbol(',', a.value.1).value);
        if xs.None? || Symbol(']', xs.value.1).None? then None
        else Some((Line(a.value.0, xs.value.0), Symbol(']', xs.value.1).value))
  }

  function ReadLines(t: string): (r: Option<(seq<Line>, string)>)
    ensures r.Some? ==> |r.value.1| < |t|
    decreases |t|
  {
    if Symbol(']', t).Some? then Some(([], Symbol(']', t).value))
    else if Symbol(',', t).None? then None
    else
      var l := ReadLine(Symbol(',', t).value);
      if l.None? then None
      else
        var ls := ReadLines(l.value.1);
        if ls.None? then None else Some(([l.value.0] + ls.value.0, ls.value.1))
  }

  /** Reads a whole canonical text. */
  function Decode(t: string): Option<seq<Line>> {
    if Symbol('[', t).None? then None
    else
      var t1 := Symbol('[', t).value;
      if Symbol(']', t1).Some? then (if Symbol(']', t1).value == "" then Some([]) else None)
      else
        var l := ReadLine(t1);
        if l.None? then None
        else
          var ls := ReadLines(l.value.1);
          if ls.None? || ls.value.1 != "" then None else Some([l.value.0] + ls.value.0)
  }

  // ----- Lists round-trip -----

  lemma SymbolRoundTrip(c: char, rest: string)
    ensures Symbol(c, [c] + rest) == Some(rest)
    ensures forall d :: d != c ==> Symbol(d, [c] + rest) == None
  {
    assert ([c] + rest)[1..] == rest;
  }

  /** A separator, an element, the elements after it, and the text after the list. */
  lemma Regroup(c: char, x: string, xs: string, rest: string)
    ensures [c] + (x + xs) + rest == [c] + (x + (xs + rest))
  {
  }

  lemma QuoteStart(s: string, rest: string)
    ensures Symbol(']', Quote(s) + rest) == None
  {
    assert (Quote(s) + rest)[0] == '"';
  }

  lemma LineStart(l: Line, rest: string)
    ensures Symbol(']', PrintLine(l) + rest) == None
  {
    assert (PrintLine(l) + rest)[0] == '[';
  }

  lemma {:induction false} StringsRoundTrip(xs: seq<string>, rest: string)
    ensures ReadStrings(PrintStrings(xs) + rest) == Some((xs, rest))
    decreases |xs|
  {
    if xs == [] {
      SymbolRoundTrip(']', rest);
    } else {
      StringsRoundTrip(xs[1..], rest);
      var t2 := PrintStrings(xs[1..]) + rest;
      Regroup(',', Quote(xs[0]), PrintStrings(xs[1..]), rest);
      SymbolRoundTrip(',', Quote(xs[0]) + t2);
      StringRoundTrip(xs[0], t2);
      assert xs == [xs[0]] + xs[1..];
    }
  }

  lemma ActionsRoundTrip(xs: seq<string>, rest: string)
    ensures ReadActions(PrintActions(xs) + rest) == Some((xs, rest))
  {
    if xs == [] {
      assert PrintActions(xs) + rest == ['['] + ([']'] + rest);
      SymbolRoundTrip('[', [']'] + rest);
      SymbolRoundTrip(']', rest);
    } else {
      StringsRoundTrip(xs[1..], rest);
      var t2 := PrintStrings(xs[1..]) + rest;
      Regroup('[', Quote(xs[0]), PrintStrings(xs[1..]), rest);
      SymbolRoundTrip('[', Quote(xs[0]) + t2);
      QuoteStart(xs[0], t2);
      StringRoundTrip(xs[0], t2);
      assert xs == [xs[0]] + xs[1..];
    }
  }

  lemma LineRoundTrip(l: Line, rest: string)
    ensures ReadLine(PrintLine(l) + rest) == Some((l, rest))
  {
    var t3 := [']'] + rest;
    var t2 := PrintActions(l.actions) + t3;
    var t1 := [','] + t2;
    assert PrintLine(l) + rest == ['['] + (Quote(l.address) + t1);
    SymbolRoundTrip('[', Quote(l.address) + t1);
    StringRoundTrip(l.address, t1);
    SymbolRoundTrip(',', t2);
    ActionsRoundTrip(l.actions, t3);
    SymbolRoundTrip(']', rest);
  }

  /** Reading one more element of the outer list. */
  lemma LinesCons(l: Line, t: string, ls: seq<Line>, rest: string)
    requires ReadLines(t) == Some((ls, rest))
    ensures ReadLines([','] + (PrintLine(l) + t)) == Some(([l] + ls, rest))
  {
    SymbolRoundTrip(',', PrintLine(l) + t);
    LineRoundTrip(l, t);
  }

  lemma {:induction false} LinesRoundTrip(ls: seq<Line>, rest: string)
    ensures ReadLines(PrintLines(ls) + rest) == Some((ls, rest))
    decreases |ls|
  {
    if ls == [] {
      SymbolRoundTrip(']', rest);
    } else {
      LinesRoundTrip(ls[1..], rest);
      LinesCons(ls[0], PrintLines(ls[1..]) + rest, ls[1..], rest);
      Regroup(',', PrintLine(ls[0]), PrintLines(ls[1..]), rest);
      assert ls == [ls[0]] + ls[1..];
    }
  }

  lemma DecodeCons(l: Line, t: string, ls: seq<Line>)
    requires ReadLines(t) == Some((ls, ""))
    ensures Decode(['['] + (PrintLine(l) + t)) == Some([l] + ls)
  {
    SymbolRoundTrip('[', PrintLine(l) + t);
    LineStart(l, t);
    LineRoundTrip(l, t);
  }

  /** The canonical text decodes to the plan it was printed from, for every list and every string. */
  lemma CanonicalRoundTrip(ls: seq<Line>)
    ensures Decode(Canonical(ls)) == Some(ls)
  {
    if ls == [] {
      SymbolRoundTrip('[', [']'] + "");
      SymbolRoundTrip(']', "");
      assert Canonical(ls) == ['['] + ([']'] + "");
    } else {
      LinesRoundTrip(ls[1..], "");
      assert PrintLines(ls[1..]) + "" == PrintLines(ls[1..]);
      DecodeCons(ls[0], PrintLines(ls[1..]), ls[1..]);
      assert ls == [ls[0]] + ls[1..];
    }
  }

  /** Equal canonical texts mean equal plans. */
  lemma CanonicalInjective(a: seq<Line>, b: seq<Line>)
    ensures Canonical(a) == Canonical(b) <==> a == b
  {
    CanonicalRoundTrip(a);
    CanonicalRoundTrip(b);
  }

  // ----- The text is printable ASCII, so encoding it to UTF-8 changes nothing -----

  predicate Ascii(s: string) {
    forall i :: 0 <= i < |s| ==> ' ' <= s[i] <= '~'
  }

  lemma AsciiConcat(a: string, b: string)
    requires Ascii(a) && Ascii(b)
    ensures Ascii(a + b)
  {
  }

  lemma EscapeAscii(c: char)
    ensures Ascii(Escape(c))
  {
  }

  lemma {:induction false} EscapeAllAscii(s: string)
    ensures Ascii(EscapeAll(s))
    decreases |s|
  {
    if s != "" {
      EscapeAscii(s[0]);
      EscapeAllAscii(s[1..]);
      AsciiConcat(Escape(s[0]), EscapeAll(s[1..]));
    }
  }

  lemma QuoteAscii(s: string)
    ensures Ascii(Quote(s))
  {
    EscapeAllAscii(s);
    AsciiConcat(EscapeAll(s), "\"");
    AsciiConcat("\"", EscapeAll(s) + "\"");
  }

  lemma {:induction false} StringsAscii(xs: seq<string>)
    ensures Ascii(PrintStrings(xs))
    decreases |xs|
  {
    if xs != [] {
      QuoteAscii(xs[0]);
      StringsAscii(xs[1..]);
      AsciiConcat(Quote(xs[0]), PrintStrings(xs[1..]));
      AsciiConcat(",", Quote(xs[0]) + PrintStrings(xs[1..]));
    }
  }

  lemma ActionsAscii(xs: seq<string>)
    ensures Ascii(PrintActions(xs))
  {
    if xs != [] {
      QuoteAscii(xs[0]);
      StringsAscii(xs[1..]);
      AsciiConcat(Quote(xs[0]), PrintStrings(xs[1..]));
      AsciiConcat("[", Quote(xs[0]) + PrintStrings(xs[1..]));
    }
  }

  lemma LineAscii(l: Line)
    ensures Ascii(PrintLine(l))
  {
    QuoteAscii(l.address);
    ActionsAscii(l.actions);
    AsciiConcat(PrintActions(l.actions), "]");
    AsciiConcat(",", PrintActions(l.actions) + "]");
    AsciiConcat(Quote(l.address), "," + (PrintActions(l.actions) + "]"));
    AsciiConcat("[", Quote(l.address) + ("," + (PrintActions(l.actions) + "]")));
  }

  lemma {:induction false} LinesAscii(ls: seq<Line>)
    ensures Ascii(PrintLines(ls))
    decreases |ls|
  {
    if ls != [] {
      LineAscii(ls[0]);
      LinesAscii(ls[1..]);
      AsciiConcat(PrintLine(ls[0]), PrintLines(ls[1..]));
      AsciiConcat(",", PrintLine(ls[0]) + PrintLines(ls[1..]));
    }
  }

  /** Every character of the canonical text is printable ASCII, whatever the addresses hold. */
  lemma CanonicalAscii(ls: seq<Line>)
    ensures Ascii(Canonical(ls))
  {
    if ls != [] {
      LineAscii(ls[0]);
      LinesAscii(ls[1..]);
      AsciiConcat(PrintLine(ls[0]), PrintLines(ls[1..]));
      AsciiConcat("[", PrintLine(ls[0]) + PrintLines(ls[1..]));
    }
  }

  // ----- The text itself -----

  /** Printable ASCII prints as itself, but for the quote and the backslash. */
  lemma PlainCharacters(c: char)
    requires ' ' <= c <= '~' && c != '"' && c != '\\'
    ensures Escape(c) == [c]
  {
  }

  lemma ShortEscapes()
    ensures Escape('"') == "\\\"" && Escape('\\') == "\\\\"
    ensures Escape('\n') == "\\n" && Escape('\r') == "\\r" && Escape('\t') == "\\t"
    ensures Escape('\U{8}') == "\\b" && Escape('\U{C}') == "\\f"
  {
  }

  /** Hexadecimal digits are written in lower case, the most significant first. */
  lemma HexDigits(n: nat)
    requires n < 0x10000
    ensures var digits := "0123456789abcdef";
      Hex4(n) == [digits[n / 4096], digits[n / 256 % 16], digits[n / 16 % 16], digits[n % 16]]
  {
    LowerCase(n / 4096);
    LowerCase(n / 256 % 16);
    LowerCase(n / 16 % 16);
    LowerCase(n % 16);
  }

  lemma LowerCase(d: nat)
    requires d < 16
    ensures HexDigit(d) == "0123456789abcdef"[d]
  {
  }

  /** Every other character of the basic plane is written by its code. */
  lemma CodeEscape(c: char)
    requires c < ' ' || (c > '~' && c as int < 0x10000)
    requires c !in ['\n', '\r', '\t', '\U{8}', '\U{C}']
    ensures Escape(c) == "\\u" + Hex4(c as int)
  {
  }

  /** A character above it is written by its UTF-16 surrogates, the high one first. */
  lemma SurrogateEscape(c: char)
    requires c as int >= 0x10000
    ensures Escape(c) == "\\u" + Hex4(0xD800 + (c as int - 0x10000) / 1024)
                         + ("\\u" + Hex4(0xDC00 + (c as int - 0x10000) % 1024))
  {
  }

  /** A line is its address and its list of actions between brackets. */
  lemma LineText(l: Line)
    ensures PrintLine(l) == "[" + Quote(l.address) + "," + PrintActions(l.actions) + "]"
  {
    Flat("[", Quote(l.address), ",", PrintActions(l.actions), "]");
  }

  lemma Flat(a: string, b: string, c: string, d: string, e: string)
    ensures a + (b + (c + (d + e))) == a + b + c + d + e
  {
  }

  /** The actions stand between brackets, separated by commas, and so do the lines. */
  lemma ActionsText(a: string, b: string, rest: seq<string>)
    ensures PrintActions([]) == "[]" && PrintActions([a]) == "[" + Quote(a) + "]"
    ensures PrintActions([a, b] + rest) == "[" + Quote(a) + "," + Quote(b) + PrintStrings(rest)
  {
    assert [a][1..] == [];
    assert ([a, b] + rest)[1..] == [b] + rest && ([b] + rest)[1..] == rest;
    assert "[" + (Quote(a) + "]") == "[" + Quote(a) + "]";
    Flat("[", Quote(a), ",", Quote(b), PrintStrings(rest));
  }

  lemma LinesText(a: Line, b: Line, rest: seq<Line>)
    ensures Canonical([]) == "[]" && Canonical([a]) == "[" + PrintLine(a) + "]"
    ensures Canonical([a, b] + rest) == "[" + PrintLine(a) + "," + PrintLine(b) + PrintLines(rest)
  {
    assert [a][1..] == [];
    assert ([a, b] + rest)[1..] == [b] + rest && ([b] + rest)[1..] == rest;
    assert "[" + (PrintLine(a) + "]") == "[" + PrintLine(a) + "]";
    Flat("[", PrintLine(a), ",", PrintLine(b), PrintLines(rest));
  }

  lemma {:induction false} PlainText(s: string)
    requires forall i :: 0 <= i < |s| ==> ' ' <= s[i] <= '~' && s[i] != '"' && s[i] != '\\'
    ensures EscapeAll(s) == s && Quote(s) == "\"" + s + "\""
    decreases |s|
  {
    if s != "" {
      PlainText(s[1..]);
      assert s == [s[0]] + s[1..];
    }
  }

  /** The decoder reads what any JSON writer may write: either case of hexadecimal, and an escaped solidus. */
  lemma DecoderExamples()
    ensures ReadChar("\\u00E9x") == Some(('\U{E9}', "x")) && ReadChar("\\u00e9x") == Some(('\U{E9}', "x"))
    ensures ReadChar("\\/x") == Some(('/', "x")) && ReadChar("\\nx") == Some(('\n', "x"))
    ensures ReadChar("\\tx") == Some(('\t', "x")) && ReadChar("\\rx") == Some(('\r', "x"))
    ensures ReadChar("\\bx") == Some(('\U{8}', "x")) && ReadChar("\\fx") == Some(('\U{C}', "x"))
  {
    assert "\\u00E9x"[6..] == "x" && "\\u00e9x"[6..] == "x" && "\\/x"[2..] == "x" && "\\nx"[2..] == "x";
    assert "\\tx"[2..] == "x" && "\\rx"[2..] == "x" && "\\bx"[2..] == "x" && "\\fx"[2..] == "x";
  }
}
