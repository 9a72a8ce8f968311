/**
 * Scalars of the hand-rolled YAML printer, and a reader for them: double-quoted
 * scalars as in sections 5.7 and 7.3.1 of YAML 1.2.2, and plain scalars resolved
 * by the core schema of section 10.3.2.
 */
module YamlText {
  import opened Results

  datatype Value =
    | Str(s: string)
    | Int(n: int)
    | Bool(b: bool)
    | Null
    | Map(m: map<string, Value>)

  // ----- Escaping -----------------------------------------------------------

  /** `text.replace(c, with)` for a single character. */
  function Replace(text: string, c: char, with: string): string {
    if text == "" then "" else (if text[0] == c then with else [text[0]]) + Replace(text[1..], c, with)
  }

  /** The chain of replacements, backslash first. */
  function Escape(text: string): string {
    Replace(Replace(Replace(Replace(Replace(text, '\\', "\\\\"), '"', "\\\""), '\n', "\\n"), '\r', "\\r"), '\t', "\\t")
  }

  function EscapeChar(c: char): string {
    if c == '\\' then "\\\\"
    else if c == '"' then "\\\""
    else if c == '\n' then "\\n"
    else if c == '\r' then "\\r"
    else if c == '\t' then "\\t"
    else [c]
  }

  function EscapeEach(text: string): string {
    if text == "" then "" else EscapeChar(text[0]) + EscapeEach(text[1..])
  }

  lemma {:induction false} ReplaceConcat(a: string, b: string, c: char, with: string)
    ensures Replace(a + b, c, with) == Replace(a, c, with) + Replace(b, c, with)
  {
    if a == "" {
      assert a + b == b;
    } else {
      ReplaceConcat(a[1..], b, c, with);
      assert (a + b)[0] == a[0] && (a + b)[1..] == a[1..] + b;
      var first := if a[0] == c then with else [a[0]];
      var a', b' := Replace(a[1..], c, with), Replace(b, c, with);
      assert first + (a' + b') == first + a' + b';
    }
  }

  lemma ReplaceOne(x: char, c: char, with: string)
    ensures Replace([x], c, with) == if x == c then with else [x]
  {
    assert Replace([x][1..], c, with) == "";
  }

  lemma ReplaceTwo(x: char, y: char, c: char, with: string)
    requires x != c && y != c
    ensures Replace([x, y], c, with) == [x, y]
  {
    ReplaceConcat([x], [y], c, with);
    ReplaceOne(x, c, with);
    ReplaceOne(y, c, with);
    assert [x] + [y] == [x, y];
  }

  /** An escape sequence survives the replacements that follow the one that made it. */
  lemma EscapeSingle(c: char)
    ensures Escape([c]) == EscapeChar(c)
  {
    ReplaceOne(c, '\\', "\\\\");
    if c == '\\' {
      ReplaceTwo('\\', '\\', '"', "\\\"");
      ReplaceTwo('\\', '\\', '\n', "\\n");
      ReplaceTwo('\\', '\\', '\r', "\\r");
      ReplaceTwo('\\', '\\', '\t', "\\t");
    } else {
      ReplaceOne(c, '"', "\\\"");
      if c == '"' {
        ReplaceTwo('\\', '"', '\n', "\\n");
        ReplaceTwo('\\', '"', '\r', "\\r");
        ReplaceTwo('\\', '"', '\t', "\\t");
      } else {
        EscapeControl(c);
      }
    }
  }

  lemma EscapeControl(c: char)
    requires c != '\\' && c != '"'
    ensures Replace(Replace(Replace([c], '\n', "\\n"), '\r', "\\r"), '\t', "\\t") == EscapeChar(c)
  {
    ReplaceOne(c, '\n', "\\n");
    if c == '\n' {
      ReplaceTwo('\\', 'n', '\r', "\\r");
      ReplaceTwo('\\', 'n', '\t', "\\t");
    } else {
      ReplaceOne(c, '\r', "\\r");
      if c == '\r' {
        ReplaceTwo('\\', 'r', '\t', "\\t");
      } else {
        ReplaceOne(c, '\t', "\\t");
      }
    }
  }

  lemma EscapeConcat(a: string, b: string)
    ensures Escape(a + b) == Escape(a) + Escape(b)
  {
    ReplaceConcat(a, b, '\\', "\\\\");
    var a1, b1 := Replace(a, '\\', "\\\\"), Replace(b, '\\', "\\\\");
    ReplaceConcat(a1, b1, '"', "\\\"");
    var a2, b2 := Replace(a1, '"', "\\\""), Replace(b1, '"', "\\\"");
    ReplaceConcat(a2, b2, '\n', "\\n");
    var a3, b3 := Replace(a2, '\n', "\\n"), Replace(b2, '\n', "\\n");
    ReplaceConcat(a3, b3, '\r', "\\r");
    ReplaceConcat(Replace(a3, '\r', "\\r"), Replace(b3, '\r', "\\r"), '\t', "\\t");
  }

  /** The five chained replacements are one per-character escape. */
  lemma {:induction false} EscapeIsPerChar(text: string)
    ensures Escape(text) == EscapeEach(text)
  {
    if text != "" {
      EscapeIsPerChar(text[1..]);
      EscapeSingle(text[0]);
      EscapeConcat([text[0]], text[1..]);
      assert text == [text[0]] + text[1..];
    }
  }

  // ----- Quoted scalars -----------------------------------------------------

  function Quote(text: string): string {
    "\"" + Escape(text) + "\""
  }

  /** What a backslash and this character stand for; other escapes of section 5.7 are never printed. */
  function Unescaped(c: char): Option<char> {
    if c == '\\' || c == '"' || c == '/' then Some(c)
    else if c == 'n' then Some('\n')
    else if c == 'r' then Some('\r')
    else if c == 't' then Some('\t')
    else None
  }

  /** Reads a double-quoted scalar whose opening quote is behind us; gives the text and what follows it. */
  function ReadQuoted(t: string): Option<(string, string)> {
    if t == "" then None
    else if t[0] == '"' then Some(("", t[1..]))
    else if t[0] == '\\' then
      if |t| < 2 || Unescaped(t[1]).None? then None
      else match ReadQuoted(t[2..])
           case None => None
           case Some((s, rest)) => Some(([Unescaped(t[1]).value] + s, rest))
    else if t[0] < ' ' && t[0] != '\t' then None
    else match ReadQuoted(t[1..])
         case None => None
         case Some((s, rest)) => Some(([t[0]] + s, rest))
  }

  /** The escapes cover newline, carriage return and tab; other control characters would stand raw. */
  predicate Printable(text: string) {
    forall i :: 0 <= i < |text| ==> text[i] >= ' ' || text[i] == '\n' || text[i] == '\r' || text[i] == '\t'
  }

  lemma PrintableTail(text: string)
    requires text != ""
    ensures Printable(text) <==>
              (text[0] >= ' ' || text[0] == '\n' || text[0] == '\r' || text[0] == '\t') && Printable(text[1..])
  {
    assert forall i :: 0 < i < |text| ==> text[i] == text[1..][i - 1];
    assert forall i :: 0 <= i < |text| - 1 ==> text[1..][i] == text[i + 1];
  }

  /** Reading back what was quoted gives the same text, or fails if a raw control character was left in. */
  lemma {:induction false} ReadEscaped(text: string, tail: string)
    ensures ReadQuoted(EscapeEach(text) + "\"" + tail) == if Printable(text) then Some((text, tail)) else None
  {
    var t := EscapeEach(text) + "\"" + tail;
    if text == "" {
      assert t == "\"" + tail && t[1..] == tail;
    } else {
      var e, rest := EscapeChar(text[0]), EscapeEach(text[1..]) + "\"" + tail;
      assert t == e + rest && t[|e|..] == rest;
      PrintableTail(text);
      ReadEscaped(text[1..], tail);
      if Printable(text) {
        assert [text[0]] + text[1..] == text;
      }
    }
  }

  // ----- Integers -----------------------------------------------------------

  function Digit(d: nat): char
    requires d < 10
  {
    '0' + d as char
  }

  predicate IsDigit(c: char) {
    '0' <= c <= '9'
  }

  predicate AllDigits(t: string) {
    forall i :: 0 <= i < |t| ==> IsDigit(t[i])
  }

  function Digits(n: nat): (t: string)
    ensures t != "" && AllDigits(t)
  {
    if n < 10 then [Digit(n)] else Digits(n / 10) + [Digit(n % 10)]
  }

  /** `str(n)`. */
  function IntText(n: int): string {
    if n < 0 then "-" + Digits(-n) else Digits(n)
  }

  function DigitsValue(t: string): nat
    requires AllDigits(t)
  {
    if t == "" then 0 else 10 * DigitsValue(t[..|t| - 1]) + (t[|t| - 1] as int - '0' as int)
  }

  lemma {:induction false} ValueOfDigits(n: nat)
    ensures DigitsValue(Digits(n)) == n
  {
    if n >= 10 {
      ValueOfDigits(n / 10);
      var front := Digits(n / 10);
      assert (front + [Digit(n % 10)])[..|front|] == front;
    } else {
      assert DigitsValue([Digit(n)][..0]) == 0;
    }
  }

  predicate IsIntText(t: string) {
    var u := if t != "" && (t[0] == '-' || t[0] == '+') then t[1..] else t;
    u != "" && AllDigits(u)
  }

  function IntValue(t: string): int
    requires IsIntText(t)
  {
    if t[0] == '-' then
      var magnitude: int := DigitsValue(t[1..]);
      -magnitude
    else if t[0] == '+' then DigitsValue(t[1..])
    else DigitsValue(t)
  }

  lemma IntTextBack(n: int)
    ensures IsIntText(IntText(n)) && IntValue(IntText(n)) == n
  {
    ValueOfDigits(if n < 0 then -n else n);
    var t := IntText(n);
    if n < 0 {
      assert t[1..] == Digits(-n);
    } else {
      assert IsDigit(t[0]);
    }
  }

  // ----- Plain scalars ------------------------------------------------------

  predicate IsNullText(t: string) {
    t == "" || t == "~" || t == "null" || t == "Null" || t == "NULL"
  }

  predicate IsTrueText(t: string) {
    t == "true" || t == "True" || t == "TRUE"
  }

  predicate IsFalseText(t: string) {
    t == "false" || t == "False" || t == "FALSE"
  }

  predicate IsOctalDigit(c: char) {
    '0' <= c <= '7'
  }

  predicate IsHexDigit(c: char) {
    IsDigit(c) || 'a' <= c <= 'f' || 'A' <= c <= 'F'
  }

  predicate IsBasedText(t: string) {
    && |t| >= 3 && t[0] == '0'
    && ((t[1] == 'o' && forall i :: 2 <= i < |t| ==> IsOctalDigit(t[i]))
        || (t[1] == 'x' && forall i :: 2 <= i < |t| ==> IsHexDigit(t[i])))
  }

  /** `digits . digits` with digits on at least one side, or just digits. */
  predicate IsMantissa(t: string) {
    || (t != "" && AllDigits(t))
    || exists i :: 0 <= i < |t| && t[i] == '.' && |t| > 1 && AllDigits(t[..i]) && AllDigits(t[i + 1..])
  }

  predicate IsUnsignedFloat(t: string) {
    || IsMantissa(t)
    || exists i :: 0 <= i < |t| && (t[i] == 'e' || t[i] == 'E') && IsMantissa(t[..i]) && IsIntText(t[i + 1..])
  }

  predicate IsFloatText(t: string) {
    IsUnsignedFloat(if t != "" && (t[0] == '-' || t[0] == '+') then t[1..] else t)
  }

  /** Text that the core schema does not leave as a string. */
  predicate IsSpecial(t: string) {
    IsNullText(t) || IsTrueText(t) || IsFalseText(t) || IsIntText(t) || IsBasedText(t) || IsFloatText(t)
  }

  /** The value of a plain scalar; based integers and floats are outside the value type. */
  function ResolvePlain(t: string): Option<Value> {
    if IsNullText(t) then Some(Null)
    else if IsTrueText(t) then Some(Bool(true))
    else if IsFalseText(t) then Some(Bool(false))
    else if IsIntText(t) then Some(Int(IntValue(t)))
    else if IsSpecial(t) then None
    else Some(Str(t))
  }

  lemma ResolveInt(n: int)
    ensures ResolvePlain(IntText(n)) == Some(Int(n))
    ensures IntText(n) != "" && IntText(n)[0] != '"'
  {
    IntTextBack(n);
    var t := IntText(n);
    assert t[0] == '-' || IsDigit(t[0]);
    assert "~"[0] == '~' && "null"[0] == 'n' && "Null"[0] == 'N' && "NULL"[0] == 'N';
    assert "true"[0] == 't' && "True"[0] == 'T' && "TRUE"[0] == 'T';
    assert "false"[0] == 'f' && "False"[0] == 'F' && "FALSE"[0] == 'F';
  }
}
