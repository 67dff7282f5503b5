/**
 * The XML 1.0 the JUnit report uses: escaping (src/junit.rs), a printer of markup, and a reader that
 * follows the standard (sections 2.2, 2.4, 2.11, 3.1, 3.3.3 and 4.6) and undoes it.
 */
module Xml {
  import opened Wrappers
  import opened Numerals

  // ----- Characters -----

  /** Section 2.2: is `n` the number of a character a document may hold? */
  predicate IsXmlCode(n: nat) {
    n == 0x9 || n == 0xA || n == 0xD || 0x20 <= n <= 0xD7FF || 0xE000 <= n <= 0xFFFD || 0x1_0000 <= n <= 0x10_FFFF
  }

  predicate IsXmlChar(c: char) { IsXmlCode(c as int) }

  const REPLACEMENT: char := '\U{FFFD}'

  function CleanChar(c: char): char { if IsXmlChar(c) then c else REPLACEMENT }

  /** Forbidden characters replaced, one for one. */
  function Clean(s: string): (r: string)
    ensures |r| == |s|
  {
    if s == "" then "" else [CleanChar(s[0])] + Clean(s[1..])
  }

  // ----- Escaping -----

  function TextChar(c: char): string {
    match c
    case '&' => "&amp;"
    case '<' => "&lt;"
    case '>' => "&gt;"
    case _ => [CleanChar(c)]
  }

  function AttrChar(c: char): string {
    match c
    case '&' => "&amp;"
    case '<' => "&lt;"
    case '>' => "&gt;"
    case '"' => "&quot;"
    case '\'' => "&apos;"
    case '\n' => "&#10;"
    case '\r' => "&#13;"
    case '\t' => "&#9;"
    case _ => [CleanChar(c)]
  }

  function Expand(f: char -> string, s: string): string {
    if s == "" then "" else f(s[0]) + Expand(f, s[1..])
  }

  function EscapedText(s: string): string { Expand(TextChar, s) }

  function EscapedAttr(s: string): string { Expand(AttrChar, s) }

  lemma {:induction false} ExpandAppends(f: char -> string, s: string, c: char)
    ensures Expand(f, s + [c]) == Expand(f, s) + f(c)
  {
    if s == "" {
      assert Expand(f, [c]) == f(c) + Expand(f, "");
    } else {
      ExpandAppends(f, s[1..], c);
      assert (s + [c])[1..] == s[1..] + [c];
    }
  }

  method Text(s: string) returns (out: string)
    ensures out == EscapedText(s)
  {
    hide CleanChar;
    out := "";
    for i := 0 to |s|
      invariant out == EscapedText(s[..i])
    {
      ExpandAppends(TextChar, s[..i], s[i]);
      assert s[..i + 1] == s[..i] + [s[i]];
      match s[i]
      case '&' => out := out + "&amp;";
      case '<' => out := out + "&lt;";
      case '>' => out := out + "&gt;";
      case c => out := out + [CleanChar(c)];
    }
    assert s[..|s|] == s;
  }

  method Attr(s: string) returns (out: string)
    ensures out == EscapedAttr(s)
  {
    hide CleanChar;
    out := "";
    for i := 0 to |s|
      invariant out == EscapedAttr(s[..i])
    {
      ExpandAppends(AttrChar, s[..i], s[i]);
      assert s[..i + 1] == s[..i] + [s[i]];
      match s[i]
      case '&' => out := out + "&amp;";
      case '<' => out := out + "&lt;";
      case '>' => out := out + "&gt;";
      case '"' => out := out + "&quot;";
      case '\'' => out := out + "&apos;";
      case '\n' => out := out + "&#10;";
      case '\r' => out := out + "&#13;";
      case '\t' => out := out + "&#9;";
      case c => out := out + [CleanChar(c)];
    }
    assert s[..|s|] == s;
  }

  // ----- Reading characters -----

  predicate IsBlank(c: char) { c == ' ' || c == '\t' || c == '\n' || c == '\r' }

  function IndexOf(s: string, c: char): (at: nat)
    ensures at <= |s|
  {
    if s == "" || s[0] == c then 0 else 1 + IndexOf(s[1..], c)
  }

  /** Sections 4.1 and 4.6: what stands between `&` and `;`. Hexadecimal references are not read. */
  function Reference(name: string): Option<char> {
    if name == "amp" then Some('&')
    else if name == "lt" then Some('<')
    else if name == "gt" then Some('>')
    else if name == "quot" then Some('"')
    else if name == "apos" then Some('\'')
    else if |name| > 1 && name[0] == '#' && AllDigits(name[1..]) && IsXmlCode(ValueOf(name[1..]))
    then Some(ValueOf(name[1..]) as char)
    else None
  }

  datatype Unit = Unit(c: char, length: nat)

  /** The first character of some content, and how much of the content spells it. */
  function FirstUnit(raw: string, inAttr: bool): (u: Option<Unit>)
    requires raw != ""
    ensures u.Some? ==> 0 < u.value.length <= |raw|
  {
    if raw[0] == '<' then None
    else if raw[0] == '&' then
      var k := IndexOf(raw, ';');
      if k == |raw| || k == 0 then None
      else match Reference(raw[1..k])
        case None => None
        case Some(c) => Some(Unit(c, k + 1))
    else if !IsXmlChar(raw[0]) then None
    else Some(Unit(if inAttr && IsBlank(raw[0]) then ' ' else raw[0], 1))
  }

  /** Text as sections 2.4 and 4.4 read it, or an attribute value as section 3.3.3 does. */
  function Unescape(raw: string, inAttr: bool): Option<string>
    decreases |raw|
  {
    if raw == "" then Some("")
    else match FirstUnit(raw, inAttr)
      case None => None
      case Some(u) =>
        match Unescape(raw[u.length..], inAttr)
        case None => None
        case Some(s) => Some([u.c] + s)
  }

  lemma {:induction false} IndexSkips(before: string, c: char, after: string)
    requires c !in before
    ensures IndexOf(before + [c] + after, c) == |before|
  {
    var s := before + [c] + after;
    if before == "" {
      assert s[0] == c;
    } else {
      assert s[0] == before[0] && s[1..] == before[1..] + [c] + after;
      IndexSkips(before[1..], c, after);
    }
  }

  lemma ReferenceRead(name: string, c: char, rest: string, inAttr: bool)
    requires ';' !in name && Reference(name) == Some(c)
    ensures FirstUnit("&" + name + ";" + rest, inAttr) == Some(Unit(c, |name| + 2))
  {
    hide Reference, IsXmlChar, IsBlank;
    var raw := "&" + name + ";" + rest;
    assert raw == ("&" + name) + [';'] + rest;
    IndexSkips("&" + name, ';', rest);
    assert raw[1..|name| + 1] == name;
  }

  lemma DecimalReferences()
    ensures Reference("#10") == Some('\n') && Reference("#13") == Some('\r') && Reference("#9") == Some('\t')
  {
    assert "#10"[1..] == "10" && "#13"[1..] == "13" && "#9"[1..] == "9";
    assert "10"[..1] == "1" && "13"[..1] == "1" && "1"[..0] == "" && "9"[..0] == "";
    assert ValueOf("1") == 1 && ValueOf("9") == 9 && ValueOf("10") == 10 && ValueOf("13") == 13;
  }

  lemma NamedReferences()
    ensures Reference("amp") == Some('&') && Reference("lt") == Some('<') && Reference("gt") == Some('>')
    ensures Reference("quot") == Some('"') && Reference("apos") == Some('\'')
  {
    assert "lt"[0] == 'l' && "gt"[0] == 'g' && |"amp"| == 3 && |"quot"| == 4 && "apos"[0] == 'a' && "quot"[0] == 'q';
  }

  lemma TextCharRead(c: char, rest: string)
    ensures FirstUnit(TextChar(c) + rest, false) == Some(Unit(CleanChar(c), |TextChar(c)|))
  {
    hide Reference;
    NamedReferences();
    match c
    case '&' => ReferenceRead("amp", '&', rest, false); assert "&amp;" + rest == "&" + "amp" + ";" + rest;
    case '<' => ReferenceRead("lt", '<', rest, false); assert "&lt;" + rest == "&" + "lt" + ";" + rest;
    case '>' => ReferenceRead("gt", '>', rest, false); assert "&gt;" + rest == "&" + "gt" + ";" + rest;
    case _ =>
  }

  lemma AttrCharRead(c: char, rest: string)
    ensures FirstUnit(AttrChar(c) + rest, true) == Some(Unit(CleanChar(c), |AttrChar(c)|))
  {
    hide Reference;
    NamedReferences();
    DecimalReferences();
    match c
    case '&' => ReferenceRead("amp", '&', rest, true); assert "&amp;" + rest == "&" + "amp" + ";" + rest;
    case '<' => ReferenceRead("lt", '<', rest, true); assert "&lt;" + rest == "&" + "lt" + ";" + rest;
    case '>' => ReferenceRead("gt", '>', rest, true); assert "&gt;" + rest == "&" + "gt" + ";" + rest;
    case '"' => ReferenceRead("quot", '"', rest, true); assert "&quot;" + rest == "&" + "quot" + ";" + rest;
    case '\'' => ReferenceRead("apos", '\'', rest, true); assert "&apos;" + rest == "&" + "apos" + ";" + rest;
    case '\n' => ReferenceRead("#10", '\n', rest, true); assert "&#10;" + rest == "&" + "#10" + ";" + rest;
    case '\r' => ReferenceRead("#13", '\r', rest, true); assert "&#13;" + rest == "&" + "#13" + ";" + rest;
    case '\t' => ReferenceRead("#9", '\t', rest, true); assert "&#9;" + rest == "&" + "#9" + ";" + rest;
    case _ =>
  }

  /** Text that was escaped reads as itself, forbidden characters replaced. */
  lemma {:induction false} TextRead(s: string)
    ensures Unescape(EscapedText(s), false) == Some(Clean(s))
  {
    hide TextChar, CleanChar, FirstUnit;
    if s != "" {
      TextRead(s[1..]);
      TextCharRead(s[0], EscapedText(s[1..]));
      assert (TextChar(s[0]) + EscapedText(s[1..]))[|TextChar(s[0])|..] == EscapedText(s[1..]);
    }
  }

  /** So does an attribute value, white space and all. */
  lemma {:induction false} AttrRead(s: string)
    ensures Unescape(EscapedAttr(s), true) == Some(Clean(s))
  {
    hide AttrChar, CleanChar, FirstUnit;
    if s != "" {
      AttrRead(s[1..]);
      AttrCharRead(s[0], EscapedAttr(s[1..]));
      assert (AttrChar(s[0]) + EscapedAttr(s[1..]))[|AttrChar(s[0])|..] == EscapedAttr(s[1..]);
    }
  }

  /** Escaped text never opens a tag, and an escaped value never ends its quotes or breaks its line. */
  lemma {:induction false} EscapedIsInert(s: string)
    ensures '<' !in EscapedText(s)
    ensures '"' !in EscapedAttr(s) && '\r' !in EscapedAttr(s) && '\n' !in EscapedAttr(s)
    ensures (EscapedText(s) == "") == (s == "")
  {
    if s != "" {
      EscapedIsInert(s[1..]);
      assert '<' !in TextChar(s[0]) && TextChar(s[0]) != "";
      assert '"' !in AttrChar(s[0]) && '\r' !in AttrChar(s[0]) && '\n' !in AttrChar(s[0]);
      hide TextChar, AttrChar;
    }
  }

  // ----- Section 2.11: line ends -----

  function Lines(s: string): string
    decreases |s|
  {
    if s == "" then ""
    else if s[0] == '\r' then "\n" + Lines(if |s| > 1 && s[1] == '\n' then s[2..] else s[1..])
    else [s[0]] + Lines(s[1..])
  }

  lemma {:induction false} LinesSplit(a: string, b: string)
    requires b == "" || b[0] != '\n'
    ensures Lines(a + b) == Lines(a) + Lines(b)
    decreases |a|
  {
    if a == "" {
      assert a + b == b;
    } else {
      assert (a + b)[1..] == a[1..] + b;
      if a[0] == '\r' && |a| > 1 && a[1] == '\n' {
        assert (a + b)[2..] == a[2..] + b;
        LinesSplit(a[2..], b);
      } else {
        LinesSplit(a[1..], b);
      }
    }
  }

  lemma {:induction false} LinesLeave(s: string)
    requires '\r' !in s
    ensures Lines(s) == s
  {
    if s != "" {
      LinesLeave(s[1..]);
    }
  }

  lemma {:induction false} LinesOfEscaped(s: string)
    ensures Lines(EscapedText(s)) == EscapedText(Lines(s))
    decreases |s|
  {
    if s != "" {
      var first, rest := TextChar(s[0]), EscapedText(s[1..]);
      if s[0] == '\r' {
        assert first == "\r" && TextChar('\n') == "\n";
        assert EscapedText(s) == "\r" + rest;
        if |s| > 1 && s[1] == '\n' {
          assert rest == "\n" + EscapedText(s[2..]);
          assert EscapedText(s)[2..] == EscapedText(s[2..]);
          LinesOfEscaped(s[2..]);
          ExpandFirst('\n', Lines(s[2..]));
        } else {
          assert rest == "" || rest[0] != '\n' by {
            if |s| > 1 {
              assert rest == TextChar(s[1]) + EscapedText(s[2..]);
            }
          }
          assert EscapedText(s)[1..] == rest;
          LinesOfEscaped(s[1..]);
          ExpandFirst('\n', Lines(s[1..]));
        }
      } else {
        LinesOfEscaped(s[1..]);
        ExpandFirst(s[0], Lines(s[1..]));
        PlainLines(first, rest);
      }
    }
  }

  lemma ExpandFirst(c: char, s: string)
    ensures EscapedText([c] + s) == TextChar(c) + EscapedText(s)
  {
    hide TextChar;
    assert ([c] + s)[1..] == s;
  }

  lemma {:induction false} PlainLines(a: string, b: string)
    requires '\r' !in a
    ensures Lines(a + b) == a + Lines(b)
  {
    if a == "" {
      assert a + b == b;
    } else {
      assert (a + b)[1..] == a[1..] + b;
      PlainLines(a[1..], b);
    }
  }
}
