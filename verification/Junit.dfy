/** The JUnit report of a CI gate: how it is printed, and what an XML reader finds in it (src/junit.rs). */
module Junit {
  import opened Wrappers
  import opened Numerals
  import opened Xml
  import opened XmlTree

  datatype Outcome =
    | Pass
    | Fail(kind: string, message: string, detail: string)
    | Error(message: string, detail: string)
    | Skipped(message: string)

  datatype Case = Case(name: string, outcome: Outcome, output: Option<string>)

  /** A number as it is printed: no character of it is ever escaped. */
  predicate IsPlain(s: string) {
    forall i :: 0 <= i < |s| ==> IsDigit(s[i]) || 'a' <= s[i] <= 'z' || 'A' <= s[i] <= 'Z' || s[i] == '.' || s[i] == '-'
  }

  type Printed = s: string | IsPlain(s) witness ""

  datatype Property = Property(name: string, value: string)

  datatype Suite = Suite(
    name: string,
    classname: string,
    time: Printed,
    properties: seq<Property>,
    cases: seq<Case>)

  // ----- Counting -----

  datatype Counts = Counts(tests: nat, failures: nat, errors: nat, skipped: nat)

  /** How many of some cases satisfy a test. */
  function CountIf(cases: seq<Case>, test: Outcome -> bool): nat {
    if cases == [] then 0
    else CountIf(cases[..|cases| - 1], test) + if test(cases[|cases| - 1].outcome) then 1 else 0
  }

  function Passes(cases: seq<Case>): nat { CountIf(cases, (o: Outcome) => o.Pass?) }
  function Failures(cases: seq<Case>): nat { CountIf(cases, (o: Outcome) => o.Fail?) }
  function Errors(cases: seq<Case>): nat { CountIf(cases, (o: Outcome) => o.Error?) }
  function Skips(cases: seq<Case>): nat { CountIf(cases, (o: Outcome) => o.Skipped?) }

  /** Counts add up: every case is one of the four. */
  lemma {:induction false} CountsAddUp(cases: seq<Case>)
    ensures |cases| == Passes(cases) + Failures(cases) + Errors(cases) + Skips(cases)
  {
    if cases != [] {
      CountsAddUp(cases[..|cases| - 1]);
    }
  }

  method Tally(suite: Suite) returns (tests: nat, failures: nat, errors: nat, skipped: nat)
    ensures tests == |suite.cases| && failures == Failures(suite.cases)
    ensures errors == Errors(suite.cases) && skipped == Skips(suite.cases)
    ensures tests == Passes(suite.cases) + failures + errors + skipped
  {
    var f, e, s := 0, 0, 0;
    for i := 0 to |suite.cases|
      invariant f == Failures(suite.cases[..i]) && e == Errors(suite.cases[..i]) && s == Skips(suite.cases[..i])
    {
      assert suite.cases[..i + 1][..i] == suite.cases[..i];
      match suite.cases[i].outcome
      case Fail(_, _, _) => f := f + 1;
      case Error(_, _) => e := e + 1;
      case Skipped(_) => s := s + 1;
      case Pass =>
    }
    assert suite.cases[..|suite.cases|] == suite.cases;
    CountsAddUp(suite.cases);
    return |suite.cases|, f, e, s;
  }

  // ----- The markup of a report -----

  /** Children each on a line of its own. */
  function Indented(children: seq<Markup>, inner: string, outer: string): seq<Markup> {
    if children == [] then [Chars("\n" + outer)]
    else [Chars("\n" + inner), children[0]] + Indented(children[1..], inner, outer)
  }

  function CountAttrs(suite: Suite): seq<Attribute> {
    [Attribute("tests", Decimal(|suite.cases|)), Attribute("failures", Decimal(Failures(suite.cases))),
     Attribute("errors", Decimal(Errors(suite.cases))), Attribute("skipped", Decimal(Skips(suite.cases))),
     Attribute("time", suite.time)]
  }

  function SuiteAttrs(suite: Suite): seq<Attribute> { [Attribute("name", suite.name)] + CountAttrs(suite) }

  function PropertyMarkup(p: Property): Markup {
    Elem("property", [Attribute("name", p.name), Attribute("value", p.value)], true, [])
  }

  function OutcomeMarkup(o: Outcome): seq<Markup> {
    match o
    case Pass => []
    case Fail(kind, message, detail) =>
      [Elem("failure", [Attribute("message", message), Attribute("type", kind)], false, [Chars(detail)])]
    case Error(message, detail) =>
      [Elem("error", [Attribute("message", message), Attribute("type", "Error")], false, [Chars(detail)])]
    case Skipped(message) => [Elem("skipped", [Attribute("message", message)], true, [])]
  }

  function OutputMarkup(output: Option<string>): seq<Markup> {
    match output
    case None => []
    case Some(s) => [Elem("system-out", [], false, [Chars(s)])]
  }

  function CaseAttrs(classname: string, c: Case): seq<Attribute> {
    [Attribute("classname", classname), Attribute("name", c.name), Attribute("time", "0.000")]
  }

  function CaseMarkup(classname: string, c: Case): Markup {
    var attrs := CaseAttrs(classname, c);
    if c.outcome.Pass? && c.output.None? then Elem("testcase", attrs, true, [])
    else Elem("testcase", attrs, false, Indented(OutcomeMarkup(c.outcome) + OutputMarkup(c.output), "      ", "    "))
  }

  function PropertyMarkups(ps: seq<Property>): seq<Markup> {
    seq(|ps|, i requires 0 <= i < |ps| => PropertyMarkup(ps[i]))
  }

  function CaseMarkups(classname: string, cs: seq<Case>): seq<Markup> {
    seq(|cs|, i requires 0 <= i < |cs| => CaseMarkup(classname, cs[i]))
  }

  function PropertiesMarkup(ps: seq<Property>): seq<Markup> {
    if ps == [] then [] else [Elem("properties", [], false, Indented(PropertyMarkups(ps), "      ", "    "))]
  }

  function SuiteChildren(suite: Suite): seq<Markup> {
    PropertiesMarkup(suite.properties) + CaseMarkups(suite.classname, suite.cases)
  }

  function SuiteMarkup(suite: Suite): Markup {
    Elem("testsuite", SuiteAttrs(suite), false, Indented(SuiteChildren(suite), "    ", "  "))
  }

  function RootMarkup(suite: Suite): Markup {
    Elem("testsuites", SuiteAttrs(suite), false, Indented([SuiteMarkup(suite)], "  ", ""))
  }

  const PROLOG := "<?xml version=\"1.0\" encoding=\"UTF-8\"?>\n"

  function Document(suite: Suite): string { PROLOG + Print(RootMarkup(suite)) + "\n" }

  // ----- Plain text is printed as it is -----

  lemma {:induction false} PlainPrints(s: string)
    requires IsPlain(s)
    ensures EscapedAttr(s) == s
  {
    if s != "" {
      PlainPrints(s[1..]);
      assert AttrChar(s[0]) == [s[0]];
    }
  }

  lemma {:induction false} BlanksPrint(s: string)
    requires forall i :: 0 <= i < |s| ==> s[i] == ' ' || s[i] == '\n'
    ensures EscapedText(s) == s
  {
    if s != "" {
      BlanksPrint(s[1..]);
      assert TextChar(s[0]) == [s[0]];
    }
  }

  lemma DecimalPrints(n: nat)
    ensures EscapedAttr(Decimal(n)) == Decimal(n) && IsPlain(Decimal(n))
  {
    hide Decimal;
    DecimalReads(n);
    PlainPrints(Decimal(n));
  }

  /** Lines with one child each. */
  function Block(indent: string, children: seq<Markup>): string {
    if children == [] then "" else indent + Print(children[0]) + "\n" + Block(indent, children[1..])
  }

  predicate AllSpaces(s: string) { forall i :: 0 <= i < |s| ==> s[i] == ' ' }

  lemma OnePrints(m: Markup)
    ensures PrintAll([m]) == Print(m)
  {
    hide Print;
    assert [m][1..] == [];
  }

  lemma LineStarts(indent: string)
    requires AllSpaces(indent)
    ensures Print(Chars("\n" + indent)) == "\n" + indent
  {
    hide EscapedText;
    BlanksPrint("\n" + indent);
  }

  lemma {:induction false} BlockPrints(children: seq<Markup>, inner: string, outer: string)
    requires AllSpaces(inner) && AllSpaces(outer)
    ensures PrintAll(Indented(children, inner, outer)) == "\n" + Block(inner, children) + outer
  {
    hide Print, PrintAll, AllSpaces;
    LineStarts(outer);
    LineStarts(inner);
    if children == [] {
      OnePrints(Chars("\n" + outer));
    } else {
      BlockPrints(children[1..], inner, outer);
      TwoPrint(Chars("\n" + inner), children[0], Indented(children[1..], inner, outer));
    }
  }

  lemma TwoPrint(a: Markup, b: Markup, more: seq<Markup>)
    ensures PrintAll([a, b] + more) == Print(a) + Print(b) + PrintAll(more)
  {
    hide Print;
    var all := [a, b] + more;
    assert all[1..] == [b] + more && all[1..][1..] == more;
  }

  lemma {:induction false} BlockAppends(indent: string, children: seq<Markup>, child: Markup)
    ensures Block(indent, children + [child]) == Block(indent, children) + indent + Print(child) + "\n"
  {
    hide Print;
    if children == [] {
      assert Block(indent, [child]) == indent + Print(child) + "\n" + Block(indent, []);
    } else {
      BlockAppends(indent, children[1..], child);
      assert (children + [child])[1..] == children[1..] + [child];
    }
  }

  // ----- Printing the report -----

  lemma AttrsPrint(a: Attribute, more: seq<Attribute>)
    ensures PrintAttrs([]) == ""
    ensures PrintAttrs([a] + more) == Quoted(a.name, EscapedAttr(a.value)) + PrintAttrs(more)
  {
    hide EscapedAttr, Quoted;
    assert ([a] + more)[1..] == more;
  }

  lemma OneAttr(a: Attribute)
    ensures PrintAttrs([a]) == Quoted(a.name, EscapedAttr(a.value))
  {
    hide EscapedAttr, PrintAttrs, Quoted;
    AttrsPrint(a, []);
    assert [a] + [] == [a];
  }

  lemma TwoAttrs(a: Attribute, b: Attribute)
    ensures PrintAttrs([a, b]) == Quoted(a.name, EscapedAttr(a.value)) + Quoted(b.name, EscapedAttr(b.value))
  {
    hide EscapedAttr, PrintAttrs, Quoted;
    OneAttr(b);
    AttrsPrint(a, [b]);
    assert [a] + [b] == [a, b];
  }

  method PropertyLine(p: Property) returns (x: string)
    ensures x == "      " + Print(PropertyMarkup(p)) + "\n"
  {
    hide EscapedAttr, PrintAttrs, Quoted;
    var name := Attr(p.name);
    var value := Attr(p.value);
    x := "      <property" + Quoted("name", name) + Quoted("value", value) + "/>\n";
    TwoAttrs(Attribute("name", p.name), Attribute("value", p.value));
  }

  /** The line of an element that holds one text. */
  lemma TextElemPrints(name: string, attrs: seq<Attribute>, s: string)
    ensures Print(Elem(name, attrs, false, [Chars(s)])) == OpenTag(name, attrs, false) + EscapedText(s) + CloseTag(name)
  {
    hide OpenTag, CloseTag, EscapedText;
    OnePrints(Chars(s));
  }

  method OutcomeLines(o: Outcome) returns (x: string)
    ensures x == Block("      ", OutcomeMarkup(o))
  {
    hide EscapedAttr, EscapedText, PrintAttrs, CloseTag, OpenTag, Block, Print;
    match o
    case Pass =>
      x := "";
      EmptyBlock("      ");
    case Fail(kind, message, detail) =>
      x := FailureLine(kind, message, detail);
      OneBlock("      ", OutcomeMarkup(o)[0]);
    case Error(message, detail) =>
      x := ErrorLine(message, detail);
      OneBlock("      ", OutcomeMarkup(o)[0]);
    case Skipped(message) =>
      x := SkippedLine(message);
      OneBlock("      ", OutcomeMarkup(o)[0]);
  }

  lemma EmptyBlock(indent: string)
    ensures Block(indent, []) == ""
  {
  }

  lemma OneBlock(indent: string, m: Markup)
    ensures Block(indent, [m]) == indent + Print(m) + "\n"
  {
    hide Print;
    assert [m][1..] == [];
  }

  method FailureLine(kind: string, message: string, detail: string) returns (x: string)
    ensures x == "      " + Print(OutcomeMarkup(Fail(kind, message, detail))[0]) + "\n"
  {
    hide EscapedAttr, EscapedText, PrintAttrs, Print, Quoted;
    var m := Attr(message);
    var t := Attr(kind);
    var d := Text(detail);
    x := "      <failure" + Quoted("message", m) + Quoted("type", t) + ">" + d + "</failure>\n";
    TwoAttrs(Attribute("message", message), Attribute("type", kind));
    TextElemPrints("failure", [Attribute("message", message), Attribute("type", kind)], detail);
  }

  method ErrorLine(message: string, detail: string) returns (x: string)
    ensures x == "      " + Print(OutcomeMarkup(Error(message, detail))[0]) + "\n"
  {
    hide EscapedAttr, EscapedText, PrintAttrs, Print, Quoted;
    var m := Attr(message);
    var d := Text(detail);
    x := "      <error" + Quoted("message", m) + Quoted("type", "Error") + ">" + d + "</error>\n";
    PlainPrints("Error");
    TwoAttrs(Attribute("message", message), Attribute("type", "Error"));
    TextElemPrints("error", [Attribute("message", message), Attribute("type", "Error")], detail);
  }

  method SkippedLine(message: string) returns (x: string)
    ensures x == "      " + Print(OutcomeMarkup(Skipped(message))[0]) + "\n"
  {
    hide EscapedAttr, PrintAttrs, Quoted;
    var m := Attr(message);
    x := "      <skipped" + Quoted("message", m) + "/>\n";
    OneAttr(Attribute("message", message));
  }

  method OutputLine(s: string) returns (x: string)
    ensures x == "      " + Print(OutputMarkup(Some(s))[0]) + "\n"
  {
    hide EscapedText, PrintAttrs, Print;
    var t := Text(s);
    x := "      <system-out>" + t + "</system-out>\n";
    AttrsPrint(Attribute("", ""), []);
    TextElemPrints("system-out", [], s);
  }

  /** An element on lines of its own. */
  lemma ElementPrints(name: string, attrs: seq<Attribute>, children: seq<Markup>, inner: string, outer: string)
    requires AllSpaces(inner) && AllSpaces(outer)
    ensures Print(Elem(name, attrs, false, Indented(children, inner, outer)))
         == "<" + name + PrintAttrs(attrs) + ">\n" + Block(inner, children) + outer + "</" + name + ">"
  {
    hide PrintAttrs, PrintAll, Block, Indented;
    BlockPrints(children, inner, outer);
  }

  /** The same with its first and last lines put together. */
  lemma ElementLines(name: string, attrs: seq<Attribute>, children: seq<Markup>, inner: string, outer: string,
                     first: string, last: string)
    requires AllSpaces(inner) && AllSpaces(outer)
    requires first == outer + "<" + name && last == outer + "</" + name + ">\n"
    ensures outer + Print(Elem(name, attrs, false, Indented(children, inner, outer))) + "\n"
         == first + PrintAttrs(attrs) + ">\n" + Block(inner, children) + last
  {
    hide PrintAttrs, Print, Block, Indented;
    ElementPrints(name, attrs, children, inner, outer);
    Glue(outer, "<" + name, PrintAttrs(attrs), Block(inner, children), "</" + name + ">");
  }

  lemma Glue(outer: string, tag: string, attrs: string, block: string, end: string)
    ensures outer + (tag + attrs + ">\n" + block + outer + end) + "\n"
         == (outer + tag) + attrs + ">\n" + block + (outer + end + "\n")
  {
  }

  /** A case, as the loop of `render` writes it. */
  method CaseLines(classname: string, c: Case) returns (x: string)
    ensures x == "    " + Print(CaseMarkup(classname, c)) + "\n"
  {
    hide EscapedAttr, PrintAttrs, PrintAll, Print, Block, OutcomeMarkup, OutputMarkup, Indented, Quoted, CaseMarkup, CaseAttrs;
    var cls := Attr(classname);
    var name := Attr(c.name);
    x := "    <testcase" + Quoted("classname", cls) + Quoted("name", name) + Quoted("time", "0.000");
    CaseTagPrints(classname, c);
    if c.outcome.Pass? && c.output.None? {
      x := x + "/>\n";
      ShortCasePrints(classname, c);
      return;
    }
    x := x + ">\n";
    var inner := OutcomeLines(c.outcome);
    x := x + inner;
    if c.output.None? {
      SilentCasePrints(classname, c);
    } else {
      var output := OutputLine(c.output.value);
      x := x + output;
      LoudCasePrints(classname, c);
    }
    x := x + "    </testcase>\n";
  }

  lemma CaseTagPrints(classname: string, c: Case)
    ensures "    <testcase" + PrintAttrs(CaseAttrs(classname, c))
         == "    <testcase" + Quoted("classname", EscapedAttr(classname)) + Quoted("name", EscapedAttr(c.name))
            + Quoted("time", "0.000")
  {
    hide EscapedAttr, PrintAttrs, Quoted;
    var a, b := Attribute("classname", classname), [Attribute("name", c.name), Attribute("time", "0.000")];
    PlainPrints("0.000");
    TwoAttrs(b[0], b[1]);
    AttrsPrint(a, b);
    assert CaseAttrs(classname, c) == [a] + b;
  }

  lemma ShortCasePrints(classname: string, c: Case)
    requires c.outcome.Pass? && c.output.None?
    ensures "    " + Print(CaseMarkup(classname, c)) + "\n" == "    <testcase" + PrintAttrs(CaseAttrs(classname, c)) + "/>\n"
  {
    hide PrintAttrs, CaseAttrs;
  }

  lemma SilentCasePrints(classname: string, c: Case)
    requires !c.outcome.Pass? && c.output.None?
    ensures "    " + Print(CaseMarkup(classname, c)) + "\n"
         == "    <testcase" + PrintAttrs(CaseAttrs(classname, c)) + ">\n" + Block("      ", OutcomeMarkup(c.outcome))
            + "    </testcase>\n"
  {
    hide PrintAttrs, PrintAll, Block, OutcomeMarkup, Indented, CaseAttrs, Print;
    assert OutcomeMarkup(c.outcome) + OutputMarkup(c.output) == OutcomeMarkup(c.outcome);
    ElementLines("testcase", CaseAttrs(classname, c), OutcomeMarkup(c.outcome), "      ", "    ",
                 "    <testcase", "    </testcase>\n");
  }

  lemma LoudCasePrints(classname: string, c: Case)
    requires c.output.Some?
    ensures "    " + Print(CaseMarkup(classname, c)) + "\n"
         == "    <testcase" + PrintAttrs(CaseAttrs(classname, c)) + ">\n" + Block("      ", OutcomeMarkup(c.outcome))
            + ("      " + Print(OutputMarkup(c.output)[0]) + "\n") + "    </testcase>\n"
  {
    hide PrintAttrs, PrintAll, Block, OutcomeMarkup, Indented, CaseAttrs, Print;
    var children := OutcomeMarkup(c.outcome) + OutputMarkup(c.output);
    assert children == OutcomeMarkup(c.outcome) + [OutputMarkup(c.output)[0]];
    BlockAppends("      ", OutcomeMarkup(c.outcome), OutputMarkup(c.output)[0]);
    ElementLines("testcase", CaseAttrs(classname, c), children, "      ", "    ", "    <testcase", "    </testcase>\n");
  }

  lemma PropertiesPrint(ps: seq<Property>)
    requires ps != []
    ensures Block("    ", PropertiesMarkup(ps))
         == "    <properties>\n" + Block("      ", PropertyMarkups(ps)) + "    </properties>\n"
  {
    hide PrintAttrs, Print, Block, Indented, PropertyMarkups;
    OneBlock("    ", PropertiesMarkup(ps)[0]);
    AttrsPrint(Attribute("", ""), []);
    ElementLines("properties", [], PropertyMarkups(ps), "      ", "    ", "    <properties", "    </properties>\n");
  }

  /** The numbers of a suite, as they stand in both outer tags. */
  function CountText(suite: Suite): string {
    Quoted("tests", Decimal(|suite.cases|)) + Quoted("failures", Decimal(Failures(suite.cases)))
    + Quoted("errors", Decimal(Errors(suite.cases))) + Quoted("skipped", Decimal(Skips(suite.cases)))
    + Quoted("time", suite.time)
  }

  function SuiteTag(suite: Suite): string { Quoted("name", EscapedAttr(suite.name)) + CountText(suite) }

  lemma SuiteTagPrints(suite: Suite)
    ensures PrintAttrs(SuiteAttrs(suite)) == SuiteTag(suite)
  {
    hide EscapedAttr, PrintAttrs, Quoted, Decimal, Failures, Errors, Skips;
    DecimalPrints(|suite.cases|);
    DecimalPrints(Failures(suite.cases));
    DecimalPrints(Errors(suite.cases));
    DecimalPrints(Skips(suite.cases));
    PlainPrints(suite.time);
    var a := SuiteAttrs(suite);
    TwoAttrs(a[4], a[5]);
    AttrsPrint(a[3], [a[4], a[5]]);
    AttrsPrint(a[2], [a[3]] + [a[4], a[5]]);
    AttrsPrint(a[1], [a[2]] + ([a[3]] + [a[4], a[5]]));
    AttrsPrint(a[0], [a[1]] + ([a[2]] + ([a[3]] + [a[4], a[5]])));
    assert a == [a[0]] + ([a[1]] + ([a[2]] + ([a[3]] + [a[4], a[5]])));
  }

  /** The whole document, line by line. */
  lemma DocumentPrints(suite: Suite)
    ensures Document(suite)
         == PROLOG + "<testsuites" + SuiteTag(suite) + ">\n" + "  <testsuite" + SuiteTag(suite) + ">\n"
            + Block("    ", SuiteChildren(suite)) + "  </testsuite>\n" + "</testsuites>\n"
  {
    hide EscapedAttr, PrintAttrs, Print, SuiteTag, Block, Indented, SuiteChildren, SuiteAttrs;
    SuiteTagPrints(suite);
    var tag := PrintAttrs(SuiteAttrs(suite));
    var inner := SuiteMarkup(suite);
    ElementLines("testsuite", SuiteAttrs(suite), SuiteChildren(suite), "    ", "  ", "  <testsuite", "  </testsuite>\n");
    OneBlock("  ", inner);
    ElementLines("testsuites", SuiteAttrs(suite), [inner], "  ", "", "<testsuites", "</testsuites>\n");
    GlueDocument(PROLOG, Print(RootMarkup(suite)), "<testsuites", tag, Block("  ", [inner]), "</testsuites>\n",
                 "  <testsuite", Block("    ", SuiteChildren(suite)), "  </testsuite>\n");
  }

  lemma GlueDocument(prolog: string, root: string, first: string, tag: string, inner: string, last: string,
                     first': string, block: string, last': string)
    requires "" + root + "\n" == first + tag + ">\n" + inner + last
    requires inner == first' + tag + ">\n" + block + last'
    ensures prolog + root + "\n" == prolog + first + tag + ">\n" + first' + tag + ">\n" + block + last' + last
  {
    assert prolog + root + "\n" == prolog + ("" + root + "\n");
  }

  method PropertyLines(ps: seq<Property>) returns (x: string)
    ensures x == Block("    ", PropertiesMarkup(ps))
  {
    hide Block, Print, PropertyMarkup;
    x := "";
    EmptyBlock("    ");
    if ps != [] {
      x := x + "    <properties>\n";
      ghost var first := x;
      var lines := "";
      EmptyBlock("      ");
      assert PropertyMarkups(ps[..0]) == [];
      for i := 0 to |ps|
        invariant x == first + lines && lines == Block("      ", PropertyMarkups(ps[..i]))
      {
        var line := PropertyLine(ps[i]);
        x := x + line;
        lines := lines + line;
        assert PropertyMarkups(ps[..i + 1]) == PropertyMarkups(ps[..i]) + [PropertyMarkup(ps[i])];
        BlockAppends("      ", PropertyMarkups(ps[..i]), PropertyMarkup(ps[i]));
      }
      x := x + "    </properties>\n";
      assert ps[..|ps|] == ps;
      PropertiesPrint(ps);
    }
  }

  /** The cases, line by line. */
  lemma NextCase(classname: string, cases: seq<Case>, i: nat)
    requires i < |cases|
    ensures Block("    ", CaseMarkups(classname, cases[..i + 1]))
         == Block("    ", CaseMarkups(classname, cases[..i])) + ("    " + Print(CaseMarkup(classname, cases[i])) + "\n")
  {
    hide Block, Print, CaseMarkup;
    assert CaseMarkups(classname, cases[..i + 1]) == CaseMarkups(classname, cases[..i]) + [CaseMarkup(classname, cases[i])];
    BlockAppends("    ", CaseMarkups(classname, cases[..i]), CaseMarkup(classname, cases[i]));
  }

  lemma {:induction false} BlocksJoin(indent: string, a: seq<Markup>, b: seq<Markup>)
    ensures Block(indent, a + b) == Block(indent, a) + Block(indent, b)
  {
    hide Print;
    if a == [] {
      assert a + b == b;
    } else {
      assert (a + b)[1..] == a[1..] + b;
      BlocksJoin(indent, a[1..], b);
    }
  }

  lemma NoCases(classname: string)
    ensures Block("    ", CaseMarkups(classname, [])) == ""
  {
  }

  lemma ChildrenPrint(suite: Suite)
    ensures Block("    ", SuiteChildren(suite))
         == Block("    ", PropertiesMarkup(suite.properties)) + Block("    ", CaseMarkups(suite.classname, suite.cases))
  {
    hide Block, PropertiesMarkup, CaseMarkups;
    BlocksJoin("    ", PropertiesMarkup(suite.properties), CaseMarkups(suite.classname, suite.cases));
  }

  method Render(suite: Suite) returns (x: string)
    ensures x == Document(suite)
  {
    hide *;
    var tests, failures, errors, skipped := Tally(suite);
    var name := Attr(suite.name);
    var tag := Quoted("name", name) + (Quoted("tests", Decimal(tests)) + Quoted("failures", Decimal(failures))
                                       + Quoted("errors", Decimal(errors)) + Quoted("skipped", Decimal(skipped))
                                       + Quoted("time", suite.time));
    TagIs(suite, tag);
    x := PROLOG;
    x := x + "<testsuites" + tag + ">\n";
    x := x + "  <testsuite" + tag + ">\n";
    ghost var head := x;
    var properties := PropertyLines(suite.properties);
    x := x + properties;
    ghost var cases := "";
    NoCases(suite.classname);
    assert suite.cases[..0] == [] && suite.cases[..|suite.cases|] == suite.cases;
    for i := 0 to |suite.cases|
      invariant x == head + properties + cases
      invariant cases == Block("    ", CaseMarkups(suite.classname, suite.cases[..i]))
    {
      var c := CaseLines(suite.classname, suite.cases[i]);
      NextCase(suite.classname, suite.cases, i);
      x := x + c;
      cases := cases + c;
    }
    x := x + "  </testsuite>\n" + "</testsuites>\n";
    ChildrenPrint(suite);
    DocumentPrints(suite);
  }

  lemma TagIs(suite: Suite, tag: string)
    requires tag == Quoted("name", EscapedAttr(suite.name)) + (Quoted("tests", Decimal(|suite.cases|))
                    + Quoted("failures", Decimal(Failures(suite.cases))) + Quoted("errors", Decimal(Errors(suite.cases)))
                    + Quoted("skipped", Decimal(Skips(suite.cases))) + Quoted("time", suite.time))
    ensures tag == SuiteTag(suite)
  {
  }
}
