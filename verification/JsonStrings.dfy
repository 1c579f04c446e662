// The JSON text of a string, read back character by character as section 7 of
// RFC 8259 has it: nothing an excerpt could quote is lost in an encoded summary
// (src/audit.rs, entity_value and validate_source_refs).
module JsonStrings {
  import opened Outcomes
  import opened AuditModel

  function HexValue(c: char): Option<nat> {
    if '0' <= c <= '9' then Some((c as int) - ('0' as int))
    else if 'a' <= c <= 'f' then Some((c as int) - ('a' as int) + 10)
    else if 'A' <= c <= 'F' then Some((c as int) - ('A' as int) + 10)
    else None
  }

  // What a backslash and one more character stand for.
  function Meant(c: char): Option<char> {
    match c
    case '"' => Some('"')
    case '\\' => Some('\\')
    case '/' => Some('/')
    case 'b' => Some(8 as char)
    case 'f' => Some(12 as char)
    case 'n' => Some(10 as char)
    case 'r' => Some(13 as char)
    case 't' => Some(9 as char)
    case _ => None
  }

  // Four hexadecimal digits, below the surrogates.
  function CodePoint(digits: string): Option<char>
    requires |digits| == 4
  {
    match (HexValue(digits[0]), HexValue(digits[1]), HexValue(digits[2]), HexValue(digits[3]))
    case (Some(a), Some(b), Some(c), Some(d)) =>
      var n := ((a * 16 + b) * 16 + c) * 16 + d;
      if n < 0xD800 then Some(n as char) else None
    case _ => None
  }

  // The first character that the text stands for, and how much of the text it takes.
  function FirstChar(text: string): Option<(char, nat)>
    requires text != []
    ensures FirstChar(text).Some? ==> 0 < FirstChar(text).value.1 <= |text|
  {
    if text[0] == '"' || text[0] < ' ' then None
    else if text[0] != '\\' then Some((text[0], 1))
    else if |text| >= 6 && text[1] == 'u' then
      var c := CodePoint(text[2..6]);
      if c.Some? then Some((c.value, 6)) else None
    else if |text| >= 2 then
      var c := Meant(text[1]);
      if c.Some? then Some((c.value, 2)) else None
    else None
  }

  function ReadChars(text: string): Option<string> {
    if text == [] then Some([])
    else
      var first := FirstChar(text);
      if first.None? then None
      else
        var rest := ReadChars(text[first.value.1..]);
        if rest.None? then None else Some([first.value.0] + rest.value)
  }

  // A quoted string: its characters between two quotation marks.
  function ReadString(text: string): Option<string> {
    if |text| < 2 || text[0] != '"' || text[|text| - 1] != '"' then None else ReadChars(text[1..|text| - 1])
  }

  lemma DigitReadsBack(n: int)
    requires 0 <= n < 16
    ensures HexValue(HexDigit(n)) == Some(n)
  {
    if n < 10 {
      assert HexDigit(n) == ((('0' as int) + n) as char);
    } else {
      assert HexDigit(n) == ((('a' as int) + n - 10) as char);
    }
  }

  lemma ControlReadsBack(c: char, rest: string)
    requires c < ' '
    ensures var text := "\\u00" + [HexDigit(c as int / 16), HexDigit(c as int % 16)] + rest;
            FirstChar(text) == Some((c, 6)) && text[6..] == rest
  {
    var text := "\\u00" + [HexDigit(c as int / 16), HexDigit(c as int % 16)] + rest;
    var digits := text[2..6];
    DigitReadsBack(c as int / 16);
    DigitReadsBack(c as int % 16);
    assert digits[0] == '0' && digits[1] == '0' && digits[2] == HexDigit(c as int / 16);
    assert digits[3] == HexDigit(c as int % 16);
    assert CodePoint(digits) == Some(c);
  }

  lemma CharReadsBack(c: char, rest: string)
    ensures var text := Escaped(c) + rest;
            FirstChar(text) == Some((c, |Escaped(c)|)) && text[|Escaped(c)|..] == rest
  {
    if c < ' ' && |Escaped(c)| == 6 {
      ControlReadsBack(c, rest);
    }
  }

  lemma {:induction false} CharsReadBack(s: string)
    ensures ReadChars(EscapedAll(s)) == Some(s)
  {
    if s != [] {
      CharReadsBack(s[0], EscapedAll(s[1..]));
      CharsReadBack(s[1..]);
      assert s == [s[0]] + s[1..];
    }
  }

  // Every string is read back from its JSON text.
  lemma StringsReadBack(s: string)
    ensures ReadString(JsonText(Text(s))) == Some(s)
  {
    CharsReadBack(s);
    assert Quoted(s)[1..|Quoted(s)| - 1] == EscapedAll(s);
  }

  // So is the JSON text of an encoded value from the text of its encoding.
  lemma {:induction false} EncodingsReadBack(v: Value)
    ensures ReadString(JsonText(Encoded(v))) == Some(JsonText(v))
  {
    StringsReadBack(JsonText(v));
  }
}
