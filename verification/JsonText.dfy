/** JSON text as the trace crate and the native host print it, and a reader for that text.

    Strings are escaped by section 7 of RFC 8259. The reader accepts every escape of that section
    except surrogate pairs, so it knows nothing of which printer wrote the text. */
module JsonText {
  import opened Common

  datatype Value = Text(text: string) | Number(number: int) | Null

  datatype Field = Field(name: string, value: Value)

  /** `Trace`: `push_json_string` of the trace crate. `Native`: `json_escape` of the host, which
      also has short forms for backspace and form feed. */
  datatype Style = Trace | Native

  // ---------------------------------------------------------------- printing

  predicate Control(c: char) { c <= '\U{1F}' }

  function HexDigit(n: nat): char
    requires n < 16
  {
    if n < 10 then '0' + n as char else 'a' + (n - 10) as char
  }

  function EscapeChar(style: Style, c: char): string {
    if c == '"' then "\\\""
    else if c == '\\' then "\\\\"
    else if c == '\n' then "\\n"
    else if c == '\r' then "\\r"
    else if c == '\t' then "\\t"
    else if style == Native && c == '\U{8}' then "\\b"
    else if style == Native && c == '\U{C}' then "\\f"
    else if Control(c) then "\\u00" + [HexDigit(c as int / 16), HexDigit(c as int % 16)]
    else [c]
  }

  function Escape(style: Style, s: string): string {
    if s == [] then [] else EscapeChar(style, s[0]) + Escape(style, s[1..])
  }

  function Quoted(s: string): string { "\"" + Escape(Trace, s) + "\"" }

  function Digits(n: nat): string {
    if n < 10 then [HexDigit(n)] else Digits(n / 10) + [HexDigit(n % 10)]
  }

  function Decimal(n: int): string { if n < 0 then "-" + Digits(-n) else Digits(n) }

  function PrintValue(v: Value): string {
    match v
    case Text(text) => Quoted(text)
    case Number(n) => Decimal(n)
    case Null => "null"
  }

  function PrintField(f: Field): string { Quoted(f.name) + ":" + PrintValue(f.value) }

  function PrintFields(fields: seq<Field>): string {
    if |fields| == 0 then []
    else if |fields| == 1 then PrintField(fields[0])
    else PrintField(fields[0]) + "," + PrintFields(fields[1..])
  }

  function PrintObject(fields: seq<Field>): string { "{" + PrintFields(fields) + "}" }

  // ---------------------------------------------------------------- reading

  predicate StartsWith(t: string, c: char) { |t| > 0 && t[0] == c }

  function HexValue(c: char): Option<nat> {
    if '0' <= c <= '9' then Some(c as int - '0' as int)
    else if 'a' <= c <= 'f' then Some(c as int - 'a' as int + 10)
    else if 'A' <= c <= 'F' then Some(c as int - 'A' as int + 10)
    else None
  }

  /** The code point named by hexadecimal digits; surrogates name none. */
  function ReadHex(digits: string): Option<char>
    requires |digits| == 4
  {
    var a, b, c, d := HexValue(digits[0]), HexValue(digits[1]), HexValue(digits[2]), HexValue(digits[3]);
    if a.None? || b.None? || c.None? || d.None? then None
    else
      var n := ((a.value * 16 + b.value) * 16 + c.value) * 16 + d.value;
      if n < 0xD800 || 0xE000 <= n < 0x1_0000 then Some(n as char) else None
  }

  /** The character at the front of a string body and how many characters stand for it. */
  function ReadChar(t: string): (r: Option<(char, nat)>)
    ensures r.Some? ==> 0 < r.value.1 <= |t|
  {
    if t == [] || t[0] == '"' || Control(t[0]) then None
    else if t[0] != '\\' then Some((t[0], 1))
    else if |t| < 2 then None
    else if t[1] == '"' || t[1] == '\\' || t[1] == '/' then Some((t[1], 2))
    else if t[1] == 'b' then Some(('\U{8}', 2))
    else if t[1] == 'f' then Some(('\U{C}', 2))
    else if t[1] == 'n' then Some(('\n', 2))
    else if t[1] == 'r' then Some(('\r', 2))
    else if t[1] == 't' then Some(('\t', 2))
    else if t[1] == 'u' && |t| >= 6 && ReadHex(t[2..6]).Some? then Some((ReadHex(t[2..6]).value, 6))
    else None
  }

  /** A string body up to its closing quote, and what follows the quote. */
  function ReadBody(t: string): (r: Option<(string, string)>)
    ensures r.Some? ==> |r.value.1| < |t|
    decreases |t|
  {
    if StartsWith(t, '"') then Some(([], t[1..]))
    else
      var c := ReadChar(t);
      if c.None? then None
      else
        var more := ReadBody(t[c.value.1..]);
        if more.None? then None else Some(([c.value.0] + more.value.0, more.value.1))
  }

  predicate IsDigit(c: char) { '0' <= c <= '9' }

  function DigitValue(c: char): nat
    requires IsDigit(c)
  {
    c as int - '0' as int
  }

  function LeadingDigits(t: string): (n: nat)
    ensures n <= |t|
    ensures forall i | 0 <= i < n :: IsDigit(t[i])
    ensures n < |t| ==> !IsDigit(t[n])
  {
    if t == [] || !IsDigit(t[0]) then 0 else 1 + LeadingDigits(t[1..])
  }

  function ValueOf(digits: string): nat
    requires forall i | 0 <= i < |digits| :: IsDigit(digits[i])
  {
    if digits == [] then 0
    else ValueOf(digits[..|digits| - 1]) * 10 + DigitValue(digits[|digits| - 1])
  }

  /** Digits without a needless leading zero. */
  function ReadDigits(t: string): (r: Option<(int, string)>)
    ensures r.Some? ==> |r.value.1| < |t|
  {
    var n := LeadingDigits(t);
    if n == 0 || (t[0] == '0' && n > 1) then None else Some((ValueOf(t[..n]), t[n..]))
  }

  function ReadNumber(t: string): (r: Option<(int, string)>)
    ensures r.Some? ==> |r.value.1| < |t|
  {
    if StartsWith(t, '-') then
      var d := ReadDigits(t[1..]);
      if d.None? then None else Some((-d.value.0, d.value.1))
    else ReadDigits(t)
  }

  function ReadValue(t: string): (r: Option<(Value, string)>)
    ensures r.Some? ==> |r.value.1| < |t|
  {
    if StartsWith(t, '"') then
      var body := ReadBody(t[1..]);
      if body.None? then None else Some((Text(body.value.0), body.value.1))
    else if |t| >= 4 && t[..4] == "null" then Some((Null, t[4..]))
    else
      var n := ReadNumber(t);
      if n.None? then None else Some((Number(n.value.0), n.value.1))
  }

  function ReadField(t: string): (r: Option<(Field, string)>)
    ensures r.Some? ==> |r.value.1| < |t|
  {
    if !StartsWith(t, '"') then None
    else
      var name := ReadBody(t[1..]);
      if name.None? || !StartsWith(name.value.1, ':') then None
      else
        var v := ReadValue(name.value.1[1..]);
        if v.None? then None else Some((Field(name.value.0, v.value.0), v.value.1))
  }

  predicate Ends(t: string) { |t| == 1 && t[0] == '}' }

  /** Fields up to the closing brace, which must end the text. */
  function ReadFields(t: string): Option<seq<Field>>
    decreases |t|
  {
    var f := ReadField(t);
    if f.None? then None
    else if Ends(f.value.1) then Some([f.value.0])
    else if !StartsWith(f.value.1, ',') then None
    else
      var more := ReadFields(f.value.1[1..]);
      if more.None? then None else Some([f.value.0] + more.value)
  }

  function ReadObject(t: string): Option<seq<Field>> {
    if !StartsWith(t, '{') then None
    else if Ends(t[1..]) then Some([])
    else ReadFields(t[1..])
  }

  lemma Regroup(a: string, b: string, c: string)
    ensures a + b + c == a + (b + c)
  {
  }

  // ---------------------------------------------------------------- strings

  lemma ReadEscapedChar(style: Style, c: char, rest: string)
    ensures ReadChar(EscapeChar(style, c) + rest) == Some((c, |EscapeChar(style, c)|))
    ensures !StartsWith(EscapeChar(style, c) + rest, '"')
  {
    var code := EscapeChar(style, c);
    var t := code + rest;
    if |code| == 6 {
      assert t[2..6] == "00" + [HexDigit(c as int / 16), HexDigit(c as int % 16)];
      assert HexValue('0') == Some(0);
      assert HexValue(HexDigit(c as int / 16)) == Some(c as int / 16);
      assert HexValue(HexDigit(c as int % 16)) == Some(c as int % 16);
      assert ReadHex(t[2..6]) == Some(c);
    }
  }

  /** Reading undoes escaping, for either printer, whatever follows the closing quote. */
  lemma {:induction false} ReadEscaped(style: Style, s: string, rest: string)
    ensures ReadBody(Escape(style, s) + "\"" + rest) == Some((s, rest))
  {
    var t := Escape(style, s) + "\"" + rest;
    if s == [] {
      assert t == ['"'] + rest;
    } else {
      var code, tail := EscapeChar(style, s[0]), Escape(style, s[1..]) + "\"" + rest;
      assert t == code + tail;
      ReadEscapedChar(style, s[0], tail);
      assert t[|code|..] == tail;
      ReadEscaped(style, s[1..], rest);
      assert [s[0]] + s[1..] == s;
    }
  }

  /** How each character is written: a backslash in front of quotes and backslashes, letters for the three
      usual blanks and, by the native printer, for backspace and form feed, four hexadecimal digits for
      every other control character, and everything else as it is. */
  lemma EscapesExactly(style: Style, c: char)
    ensures EscapeChar(style, '"') == ['\\', '"'] && EscapeChar(style, '\\') == ['\\', '\\']
    ensures EscapeChar(style, '\n') == ['\\', 'n'] && EscapeChar(style, '\r') == ['\\', 'r']
    ensures EscapeChar(style, '\t') == ['\\', 't']
    ensures EscapeChar(Native, '\U{8}') == ['\\', 'b'] && EscapeChar(Native, '\U{C}') == ['\\', 'f']
    ensures c < ' ' && c !in ['\n', '\r', '\t'] && (style == Trace || c !in ['\U{8}', '\U{C}']) ==>
            var n := c as int;
            EscapeChar(style, c) == ['\\', 'u', '0', '0', "0123456789abcdef"[n / 16], "0123456789abcdef"[n % 16]]
    ensures c >= ' ' && c != '"' && c != '\\' ==> EscapeChar(style, c) == [c]
  {
    if c < ' ' {
      DigitsOfHex(c as int / 16);
      DigitsOfHex(c as int % 16);
    }
  }

  lemma DigitsOfHex(n: nat)
    requires n < 16
    ensures HexDigit(n) == "0123456789abcdef"[n]
  {
  }

  lemma {:induction false} EscapeAppend(style: Style, a: string, b: string)
    ensures Escape(style, a + b) == Escape(style, a) + Escape(style, b)
  {
    hide EscapeChar;
    if a == [] {
      assert a + b == b;
    } else {
      EscapeAppend(style, a[1..], b);
      assert (a + b)[1..] == a[1..] + b && (a + b)[0] == a[0];
      Regroup(EscapeChar(style, a[0]), Escape(style, a[1..]), Escape(style, b));
    }
  }

  /** Escaped text never holds a control character, nor a quote that could end the string early. */
  predicate Clean(t: string) { forall i | 0 <= i < |t| :: !Control(t[i]) }

  lemma {:induction false} EscapedIsClean(style: Style, s: string)
    ensures Clean(Escape(style, s))
  {
    if s != [] {
      EscapedIsClean(style, s[1..]);
      assert Clean(EscapeChar(style, s[0]));
    }
  }

  /** Text with nothing to escape is printed as it is. */
  predicate Plain(s: string) { forall i | 0 <= i < |s| :: s[i] != '"' && s[i] != '\\' && !Control(s[i]) }

  lemma {:induction false} PlainIsItself(style: Style, s: string)
    requires Plain(s)
    ensures Escape(style, s) == s
  {
    if s != [] {
      PlainIsItself(style, s[1..]);
    }
  }

  // ---------------------------------------------------------------- numbers

  lemma {:induction false} DigitsShape(n: nat)
    ensures |Digits(n)| > 0 && (n != 0 ==> Digits(n)[0] != '0') && (n == 0 ==> |Digits(n)| == 1)
    ensures forall i | 0 <= i < |Digits(n)| :: IsDigit(Digits(n)[i])
    ensures ValueOf(Digits(n)) == n
  {
    if n >= 10 {
      DigitsShape(n / 10);
      assert Digits(n)[..|Digits(n)| - 1] == Digits(n / 10);
    } else {
      assert Digits(n)[..0] == [];
    }
  }

  /** Numbers are written in decimal. */
  lemma DigitsExactly(n: nat)
    ensures n < 10 ==> Digits(n) == ["0123456789"[n]]
    ensures n >= 10 ==> Digits(n) == Digits(n / 10) + ["0123456789"[n % 10]]
  {
    DigitsOfHex(n % 10);
  }

  lemma {:induction false} LeadingDigitsOf(digits: string, rest: string)
    requires forall i | 0 <= i < |digits| :: IsDigit(digits[i])
    requires rest == [] || !IsDigit(rest[0])
    ensures LeadingDigits(digits + rest) == |digits|
  {
    if digits == [] {
      assert digits + rest == rest;
    } else {
      LeadingDigitsOf(digits[1..], rest);
      assert (digits + rest)[1..] == digits[1..] + rest;
    }
  }

  lemma ReadPrintedDigits(n: nat, rest: string)
    requires rest == [] || !IsDigit(rest[0])
    ensures ReadDigits(Digits(n) + rest) == Some((n, rest))
    ensures IsDigit((Digits(n) + rest)[0])
  {
    DigitsShape(n);
    LeadingDigitsOf(Digits(n), rest);
    var t := Digits(n) + rest;
    assert t[..|Digits(n)|] == Digits(n) && t[|Digits(n)|..] == rest;
  }

  lemma ReadDecimal(n: int, rest: string)
    requires rest == [] || !IsDigit(rest[0])
    ensures ReadNumber(Decimal(n) + rest) == Some((n, rest))
  {
    hide Digits, ReadDigits;
    var m := if n < 0 then -n else n;
    var t := Digits(m) + rest;
    ReadPrintedDigits(m, rest);
    if n < 0 {
      assert (Decimal(n) + rest)[1..] == t && (Decimal(n) + rest)[0] == '-';
    }
  }

  lemma DecimalIsClean(n: int)
    ensures Clean(Decimal(n)) && |Decimal(n)| > 0
    ensures Decimal(n)[0] == '-' || IsDigit(Decimal(n)[0])
  {
    DigitsShape(if n < 0 then -n else n);
  }

  // ---------------------------------------------------------------- objects

  lemma ReadQuoted(s: string, rest: string)
    ensures StartsWith(Quoted(s) + rest, '"')
    ensures ReadBody((Quoted(s) + rest)[1..]) == Some((s, rest))
  {
    assert (Quoted(s) + rest)[1..] == Escape(Trace, s) + "\"" + rest;
    ReadEscaped(Trace, s, rest);
  }

  lemma ReadPrintedValue(v: Value, rest: string)
    requires rest == [] || !IsDigit(rest[0])
    ensures ReadValue(PrintValue(v) + rest) == Some((v, rest))
  {
    hide ReadBody, ReadDigits, Digits, Escape;
    match v
    case Text(text) => ReadQuoted(text, rest);
    case Number(n) =>
      ReadDecimal(n, rest);
      DecimalIsClean(n);
      assert (Decimal(n) + rest)[0] == Decimal(n)[0];
    case Null =>
      assert ("null" + rest)[..4] == "null" && ("null" + rest)[4..] == rest;
  }

  lemma FieldStep(t: string, name: string, tail: string, v: Value, rest: string)
    requires StartsWith(t, '"') && ReadBody(t[1..]) == Some((name, tail))
    requires StartsWith(tail, ':') && ReadValue(tail[1..]) == Some((v, rest))
    ensures ReadField(t) == Some((Field(name, v), rest))
  {
  }

  lemma ReadPrintedField(f: Field, rest: string)
    requires rest == [] || !IsDigit(rest[0])
    ensures ReadField(PrintField(f) + rest) == Some((f, rest))
  {
    var text := PrintValue(f.value) + rest;
    var tail := [':'] + text;
    Regroup(Quoted(f.name) + ":", PrintValue(f.value), rest);
    Regroup(Quoted(f.name), ":", text);
    ReadQuoted(f.name, tail);
    assert tail[1..] == text;
    ReadPrintedValue(f.value, rest);
    FieldStep(Quoted(f.name) + tail, f.name, tail, f.value, rest);
  }

  lemma FieldsStep(t: string, f: Field, tail: string, more: seq<Field>)
    requires ReadField(t) == Some((f, tail)) && StartsWith(tail, ',')
    requires ReadFields(tail[1..]) == Some(more)
    ensures ReadFields(t) == Some([f] + more)
  {
  }

  lemma {:induction false} ReadPrintedFields(fields: seq<Field>, end: string)
    requires fields != [] && Ends(end)
    ensures ReadFields(PrintFields(fields) + end) == Some(fields)
  {
    if |fields| == 1 {
      ReadPrintedField(fields[0], end);
      assert fields == [fields[0]];
    } else {
      var text := PrintFields(fields[1..]) + end;
      var tail := [','] + text;
      var first := PrintField(fields[0]);
      Regroup(first + ",", PrintFields(fields[1..]), end);
      Regroup(first, ",", text);
      ReadPrintedField(fields[0], tail);
      assert tail[1..] == text;
      ReadPrintedFields(fields[1..], end);
      FieldsStep(PrintField(fields[0]) + tail, fields[0], tail, fields[1..]);
      assert fields == [fields[0]] + fields[1..];
    }
  }

  lemma Unbrace(body: string) returns (end: string)
    ensures ("{" + body + "}")[1..] == body + end && Ends(end)
  {
    end := "}";
  }

  lemma ObjectStep(t: string, tail: string, fields: seq<Field>)
    requires StartsWith(t, '{') && t[1..] == tail
    requires if |fields| == 0 then Ends(tail) else ReadFields(tail) == Some(fields)
    ensures ReadObject(t) == Some(fields)
  {
  }

  /** Reading undoes printing for every list of fields, with any names, strings and integers. */
  lemma ObjectRoundTrip(fields: seq<Field>)
    ensures ReadObject(PrintObject(fields)) == Some(fields)
  {
    var end := Unbrace(PrintFields(fields));
    if |fields| == 0 {
      assert [] + end == end;
    } else {
      ReadPrintedFields(fields, end);
    }
    ObjectStep(PrintObject(fields), PrintFields(fields) + end, fields);
  }

  lemma FieldIsClean(f: Field)
    ensures Clean(PrintField(f))
  {
    EscapedIsClean(Trace, f.name);
    match f.value
    case Text(text) => EscapedIsClean(Trace, text);
    case Number(n) => DecimalIsClean(n);
    case Null =>
  }

  lemma {:induction false} FieldsAreClean(fields: seq<Field>)
    ensures Clean(PrintFields(fields))
  {
    if fields != [] {
      FieldIsClean(fields[0]);
      FieldsAreClean(fields[1..]);
    }
  }

  /** A printed object is one line: it holds no control character, so no newline. */
  lemma ObjectIsClean(fields: seq<Field>)
    ensures Clean(PrintObject(fields))
  {
    FieldsAreClean(fields);
  }

  // ---------------------------------------------------------------- the native escaper

  /** `json_escape` */
  method JsonEscape(value: string) returns (output: string)
    ensures output == Escape(Native, value)
  {
    output := "";
    for i := 0 to |value|
      invariant output == Escape(Native, value[..i])
    {
      var ch := value[i];
      ghost var before := output;
      if ch == '\\' {
        output := output + "\\\\";
      } else if ch == '"' {
        output := output + "\\\"";
      } else if ch == '\U{8}' {
        output := output + "\\b";
      } else if ch == '\U{C}' {
        output := output + "\\f";
      } else if ch == '\n' {
        output := output + "\\n";
      } else if ch == '\r' {
        output := output + "\\r";
      } else if ch == '\t' {
        output := output + "\\t";
      } else if ch < ' ' {
        output := output + "\\u00" + [HexDigit(ch as int / 16), HexDigit(ch as int % 16)];
      } else {
        output := output + [ch];
      }
      assert output == before + EscapeChar(Native, ch);
      EscapeAppend(Native, value[..i], [ch]);
      assert value[..i + 1] == value[..i] + [ch];
    }
    assert value[..|value|] == value;
  }
}
