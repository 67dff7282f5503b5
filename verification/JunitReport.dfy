/** What an XML reader recovers from a JUnit report (src/junit.rs): every name, number, message and text. */
module JunitReport {
  import opened Wrappers
  import opened Numerals
  import opened Xml
  import opened XmlTree
  import opened Junit

  // ----- Reading a document -----

  /** The document behind its XML declaration. */
  function AfterDeclaration(s: string): Option<string> {
    var k := IndexOf(s, '>');
    if "<?xml " <= s && 0 < k < |s| && s[k - 1] == '?' then Some(s[k + 1..]) else None
  }

  predicate IsBlankData(n: Node) { n.Data? && forall i :: 0 <= i < |n.s| ==> IsBlank(n.s[i]) }

  function Elements(nodes: seq<Node>): (es: seq<Node>)
    ensures forall i :: 0 <= i < |es| ==> es[i].Element?
  {
    if nodes == [] then [] else (if nodes[0].Element? then [nodes[0]] else []) + Elements(nodes[1..])
  }

  /** One element, and nothing beside it but white space (section 2.1). */
  function ReadDocument(s: string): Option<Node> {
    match AfterDeclaration(s)
    case None => None
    case Some(rest) =>
      match ReadContent(rest)
      case None => None
      case Some(nodes) =>
        if |Elements(nodes)| == 1 && forall i :: 0 <= i < |nodes| ==> nodes[i].Element? || IsBlankData(nodes[i])
        then Some(Elements(nodes)[0]) else None
  }

  // ----- Reading a report -----

  datatype CaseRead = CaseRead(classname: string, c: Case)

  datatype Report = Report(name: string, time: string, counts: Counts, properties: seq<Property>, cases: seq<CaseRead>)

  function AttrNamed(attrs: seq<Attribute>, name: string): Option<string> {
    if attrs == [] then None
    else if attrs[0].name == name then Some(attrs[0].value)
    else AttrNamed(attrs[1..], name)
  }

  function NumberNamed(attrs: seq<Attribute>, name: string): Option<nat> {
    match AttrNamed(attrs, name)
    case None => None
    case Some(s) => if s != "" && AllDigits(s) then Some(ValueOf(s)) else None
  }

  function TextIn(nodes: seq<Node>): string {
    if nodes == [] then "" else (if nodes[0].Data? then nodes[0].s else "") + TextIn(nodes[1..])
  }

  /** The verdict among the children of a case; a case without one passed. */
  function ReadOutcome(children: seq<Node>): Option<Outcome> {
    if children == [] then Some(Pass)
    else match children[0]
      case Data(_) => ReadOutcome(children[1..])
      case Element(name, attrs, inner) =>
        if name == "failure" then
          match (AttrNamed(attrs, "type"), AttrNamed(attrs, "message"))
          case (Some(kind), Some(message)) => Some(Fail(kind, message, TextIn(inner)))
          case _ => None
        else if name == "error" then
          match AttrNamed(attrs, "message")
          case Some(message) => Some(Error(message, TextIn(inner)))
          case None => None
        else if name == "skipped" then
          match AttrNamed(attrs, "message")
          case Some(message) => Some(Skipped(message))
          case None => None
        else ReadOutcome(children[1..])
  }

  function ReadOutput(children: seq<Node>): Option<string> {
    if children == [] then None
    else if children[0].Element? && children[0].name == "system-out" then Some(TextIn(children[0].children))
    else ReadOutput(children[1..])
  }

  function ReadCase(n: Node): Option<CaseRead> {
    if !n.Element? || n.name != "testcase" then None
    else
      match (AttrNamed(n.attrs, "classname"), AttrNamed(n.attrs, "name"), ReadOutcome(n.children))
      case (Some(classname), Some(name), Some(o)) => Some(CaseRead(classname, Case(name, o, ReadOutput(n.children))))
      case _ => None
  }

  function ReadProperty(n: Node): Option<Property> {
    if !n.Element? || n.name != "property" then None
    else
      match (AttrNamed(n.attrs, "name"), AttrNamed(n.attrs, "value"))
      case (Some(name), Some(value)) => Some(Property(name, value))
      case _ => None
  }

  /** All of them, or nothing when one does not read. */
  function ReadEach<T>(read: Node -> Option<T>, nodes: seq<Node>): Option<seq<T>> {
    if nodes == [] then Some([])
    else
      match (read(nodes[0]), ReadEach(read, nodes[1..]))
      case (Some(x), Some(xs)) => Some([x] + xs)
      case _ => None
  }

  function ReadReport(root: Node): Option<Report> {
    if !root.Element? || root.name != "testsuites" || |Elements(root.children)| != 1 then None
    else
      var suite := Elements(root.children)[0];
      var children := Elements(suite.children);
      var listed := children != [] && children[0].name == "properties";
      if suite.name != "testsuite" then None
      else
        match (AttrNamed(suite.attrs, "name"), AttrNamed(suite.attrs, "time"),
               NumberNamed(suite.attrs, "tests"), NumberNamed(suite.attrs, "failures"),
               NumberNamed(suite.attrs, "errors"), NumberNamed(suite.attrs, "skipped"),
               ReadEach(ReadProperty, if listed then Elements(children[0].children) else []),
               ReadEach(ReadCase, if listed then children[1..] else children))
        case (Some(name), Some(time), Some(tests), Some(failures), Some(errors), Some(skipped), Some(ps), Some(cs)) =>
          Some(Report(name, time, Counts(tests, failures, errors, skipped), ps, cs))
        case _ => None
  }

  // ----- What it should find -----

  function CleanText(s: string): string { Clean(Lines(s)) }

  function CleanOutcome(o: Outcome): Outcome {
    match o
    case Pass => Pass
    case Fail(kind, message, detail) => Fail(Clean(kind), Clean(message), CleanText(detail))
    case Error(message, detail) => Error(Clean(message), CleanText(detail))
    case Skipped(message) => Skipped(Clean(message))
  }

  function CleanCase(classname: string, c: Case): CaseRead {
    CaseRead(Clean(classname),
             Case(Clean(c.name), CleanOutcome(c.outcome),
                  if c.output.Some? then Some(CleanText(c.output.value)) else None))
  }

  function CleanCases(classname: string, cs: seq<Case>): seq<CaseRead> {
    if cs == [] then [] else [CleanCase(classname, cs[0])] + CleanCases(classname, cs[1..])
  }

  function CleanProperties(ps: seq<Property>): seq<Property> {
    if ps == [] then [] else [Property(Clean(ps[0].name), Clean(ps[0].value))] + CleanProperties(ps[1..])
  }

  function CleanReport(suite: Suite): Report {
    Report(Clean(suite.name), suite.time,
           Counts(|suite.cases|, Failures(suite.cases), Errors(suite.cases), Skips(suite.cases)),
           CleanProperties(suite.properties), CleanCases(suite.classname, suite.cases))
  }

  // ----- The markup is well formed -----

  predicate AllElems(ms: seq<Markup>) {
    forall i :: 0 <= i < |ms| ==> ms[i].Elem? && WellFormed(ms[i])
  }

  lemma {:induction false} IndentedIsWellFormed(children: seq<Markup>, inner: string, outer: string)
    requires AllElems(children)
    ensures AllWellFormed(Indented(children, inner, outer)) && Indented(children, inner, outer)[0].Chars?
  {
    var all := Indented(children, inner, outer);
    if children == [] {
      assert all[1..] == [];
    } else {
      IndentedIsWellFormed(children[1..], inner, outer);
      var more := Indented(children[1..], inner, outer);
      assert all[1..] == [children[0]] + more && all[1..][1..] == more;
      hide WellFormed, Indented;
    }
  }

  lemma ElementNames()
    ensures IsName("property") && IsName("properties") && IsName("failure") && IsName("error") && IsName("skipped")
    ensures IsName("system-out") && IsName("testcase") && IsName("testsuite") && IsName("testsuites")
  {
  }

  lemma AttributeNames()
    ensures IsName("name") && IsName("value") && IsName("message") && IsName("type") && IsName("classname")
    ensures IsName("time") && IsName("tests") && IsName("failures") && IsName("errors")
  {
  }

  lemma TextElemIsWellFormed(name: string, attrs: seq<Attribute>, s: string)
    requires IsName(name) && GoodAttrs(attrs)
    ensures WellFormed(Elem(name, attrs, false, [Chars(s)]))
  {
    hide IsName, GoodAttrs;
    var body := [Chars(s)];
    assert body[1..] == [] && AllWellFormed([]) && WellFormed(Chars(s));
    assert AllWellFormed(body);
  }

  lemma LinesAreWellFormed(name: string, attrs: seq<Attribute>, children: seq<Markup>, inner: string, outer: string)
    requires IsName(name) && GoodAttrs(attrs) && AllElems(children)
    ensures WellFormed(Elem(name, attrs, false, Indented(children, inner, outer)))
  {
    hide IsName, GoodAttrs, AllElems, Indented;
    IndentedIsWellFormed(children, inner, outer);
  }

  lemma OutcomeIsWellFormed(c: Case)
    ensures AllElems(OutcomeMarkup(c.outcome) + OutputMarkup(c.output))
  {
    hide WellFormed, OutcomeMarkup, OutputMarkup;
    VerdictIsWellFormed(c.outcome);
    OutputIsWellFormed(c.output);
    var a, all := OutcomeMarkup(c.outcome), OutcomeMarkup(c.outcome) + OutputMarkup(c.output);
    forall i | 0 <= i < |all|
      ensures all[i].Elem? && WellFormed(all[i])
    {
      assert all[i] == if i < |a| then a[i] else OutputMarkup(c.output)[i - |a|];
    }
  }

  lemma OutputIsWellFormed(output: Option<string>)
    ensures AllElems(OutputMarkup(output))
  {
    hide IsName, GoodAttrs, WellFormed;
    ElementNames();
    NoAttrsAreGood();
    if output.Some? {
      TextElemIsWellFormed("system-out", [], output.value);
    }
  }

  lemma VerdictIsWellFormed(o: Outcome)
    ensures AllElems(OutcomeMarkup(o))
  {
    hide IsName, GoodAttrs, WellFormed;
    ElementNames();
    match o {
      case Pass =>
      case Fail(kind, message, detail) =>
        MessageAttrsAreGood(message, kind);
        TextElemIsWellFormed("failure", [Attribute("message", message), Attribute("type", kind)], detail);
      case Error(message, detail) =>
        MessageAttrsAreGood(message, "Error");
        TextElemIsWellFormed("error", [Attribute("message", message), Attribute("type", "Error")], detail);
      case Skipped(message) =>
        MessageAttrsAreGood(message, "");
        ShortIsWellFormed("skipped", [Attribute("message", message)]);
    }
  }

  lemma MessageAttrsAreGood(message: string, kind: string)
    ensures GoodAttrs([Attribute("message", message)])
    ensures GoodAttrs([Attribute("message", message), Attribute("type", kind)])
  {
    AttributeNames();
    hide IsName;
    assert |"message"| != |"type"|;
  }

  lemma ShortIsWellFormed(name: string, attrs: seq<Attribute>)
    requires IsName(name) && GoodAttrs(attrs)
    ensures WellFormed(Elem(name, attrs, true, []))
  {
    hide IsName, GoodAttrs;
    assert AllWellFormed([]);
  }

  lemma EmptyIsWellFormed()
    ensures AllWellFormed([])
  {
  }

  lemma CaseIsWellFormed(classname: string, c: Case)
    ensures WellFormed(CaseMarkup(classname, c)) && CaseMarkup(classname, c).Elem?
  {
    ElementNames();
    AttributeNames();
    EmptyIsWellFormed();
    hide IsName, AllWellFormed, AllElems, Indented, OutcomeMarkup, OutputMarkup;
    assert "name" != "time" && |"classname"| == 9;
    assert GoodAttrs(CaseAttrs(classname, c));
    OutcomeIsWellFormed(c);
    LinesAreWellFormed("testcase", CaseAttrs(classname, c), OutcomeMarkup(c.outcome) + OutputMarkup(c.output), "      ", "    ");
  }

  lemma PropertyIsWellFormed(p: Property)
    ensures WellFormed(PropertyMarkup(p)) && PropertyMarkup(p).Elem?
  {
    ElementNames();
    AttributeNames();
    EmptyIsWellFormed();
    hide IsName, AllWellFormed;
    assert "name" != "value";
  }

  lemma SuiteAttrsAreGood(suite: Suite)
    ensures GoodAttrs(SuiteAttrs(suite))
  {
    ElementNames();
    AttributeNames();
    hide IsName, Decimal, Failures, Errors, Skips;
    var a := SuiteAttrs(suite);
    assert a[0].name == "name" && a[1].name == "tests" && a[2].name == "failures";
    assert a[3].name == "errors" && a[4].name == "skipped" && a[5].name == "time";
  }

  lemma ChildrenAreWellFormed(suite: Suite)
    ensures AllElems(SuiteChildren(suite))
  {
    ElementNames();
    hide IsName, WellFormed, PropertyMarkup, CaseMarkup, GoodAttrs;
    var ps, cs := suite.properties, suite.cases;
    forall i | 0 <= i < |ps|
      ensures WellFormed(PropertyMarkups(ps)[i]) && PropertyMarkups(ps)[i].Elem?
    {
      PropertyIsWellFormed(ps[i]);
    }
    forall i | 0 <= i < |cs|
      ensures WellFormed(CaseMarkups(suite.classname, cs)[i]) && CaseMarkups(suite.classname, cs)[i].Elem?
    {
      CaseIsWellFormed(suite.classname, cs[i]);
    }
    if ps != [] {
      NoAttrsAreGood();
      LinesAreWellFormed("properties", [], PropertyMarkups(ps), "      ", "    ");
    }
  }

  lemma NoAttrsAreGood()
    ensures GoodAttrs([])
  {
  }

  lemma RootIsWellFormed(suite: Suite)
    ensures AllWellFormed([Chars("\n"), RootMarkup(suite), Chars("\n")])
  {
    ElementNames();
    hide IsName, GoodAttrs, SuiteAttrs, SuiteChildren, Indented;
    SuiteAttrsAreGood(suite);
    ChildrenAreWellFormed(suite);
    LinesAreWellFormed("testsuite", SuiteAttrs(suite), SuiteChildren(suite), "    ", "  ");
    assert AllElems([SuiteMarkup(suite)]);
    LinesAreWellFormed("testsuites", SuiteAttrs(suite), [SuiteMarkup(suite)], "  ", "");
    Surrounded(RootMarkup(suite));
  }

  lemma Surrounded(m: Markup)
    requires WellFormed(m) && m.Elem?
    ensures AllWellFormed([Chars("\n"), m, Chars("\n")])
  {
    var a, b := Chars("\n"), [m, Chars("\n")];
    assert AllWellFormed([]);
    assert [a][1..] == [] && b[1..] == [a] && ([a] + b)[1..] == b;
    assert AllWellFormed([a]) && AllWellFormed(b);
    assert [a, m, a] == [a] + b;
  }

  // ----- Reading it back -----

  lemma {:induction false} AttrReads(attrs: seq<Attribute>, i: nat)
    requires DistinctNames(attrs) && i < |attrs|
    ensures AttrNamed(CleanAttrs(attrs), attrs[i].name) == Some(Clean(attrs[i].value))
  {
    hide Clean;
    if i > 0 {
      AttrReads(attrs[1..], i - 1);
    }
  }

  lemma PlainIsClean(s: string)
    requires IsPlain(s)
    ensures Clean(s) == s
  {
    if s != "" {
      PlainIsClean(s[1..]);
    }
  }

  lemma {:induction false} InfosetsJoin(a: seq<Markup>, b: seq<Markup>)
    ensures Infosets(a + b) == Infosets(a) + Infosets(b)
  {
    hide Infoset;
    if a == [] {
      assert a + b == b;
    } else {
      assert (a + b)[1..] == a[1..] + b;
      InfosetsJoin(a[1..], b);
    }
  }

  lemma {:induction false} ElementsJoin(a: seq<Node>, b: seq<Node>)
    ensures Elements(a + b) == Elements(a) + Elements(b)
  {
    if a == [] {
      assert a + b == b;
    } else {
      assert (a + b)[1..] == a[1..] + b;
      ElementsJoin(a[1..], b);
    }
  }

  /** Line breaks between children are not elements. */
  lemma {:induction false} IndentedReads(children: seq<Markup>, inner: string, outer: string)
    requires AllElems(children)
    ensures Elements(Infosets(Indented(children, inner, outer))) == Infosets(children)
  {
    hide WellFormed, CleanAttrs, Clean, Lines;
    var all := Indented(children, inner, outer);
    if children == [] {
      assert all[1..] == [];
      assert Infosets(all) == Infoset(all[0]) + [];
    } else {
      var more := Indented(children[1..], inner, outer);
      IndentedReads(children[1..], inner, outer);
      TwoRead(Chars("\n" + inner), children[0], more);
      ElementsJoin(Infoset(all[0]) + Infoset(all[1]), Infosets(more));
    }
  }

  lemma TwoRead(a: Markup, b: Markup, more: seq<Markup>)
    ensures Infosets([a, b] + more) == Infoset(a) + Infoset(b) + Infosets(more)
    ensures a.Chars? && b.Elem? ==> Elements(Infoset(a) + Infoset(b)) == Infoset(b)
  {
    hide Infosets, Infoset, Elements;
    assert [a] + [b] == [a, b];
    InfosetsJoin([a, b], more);
    InfosetsJoin([a], [b]);
    OneInfoset(a);
    OneInfoset(b);
    ElementsJoin(Infoset(a), Infoset(b));
    OneReads(a);
    OneReads(b);
  }

  lemma OneReads(m: Markup)
    ensures Elements(Infoset(m)) == if m.Elem? then Infoset(m) else []
  {
    hide CleanAttrs, Clean, Lines, Elements, Infosets;
    OnlyElements(Infoset(m));
  }

  lemma OnlyElements(nodes: seq<Node>)
    requires |nodes| <= 1
    ensures Elements(nodes) == if nodes != [] && nodes[0].Element? then nodes else []
  {
    if nodes != [] {
      assert nodes[1..] == [];
    }
  }

  lemma FirstElement(nodes: seq<Node>)
    requires nodes != []
    ensures nodes[0].Element? ==> Elements(nodes) != [] && Elements(nodes)[0] == nodes[0] && Elements(nodes)[1..] == Elements(nodes[1..])
    ensures !nodes[0].Element? ==> Elements(nodes) == Elements(nodes[1..])
  {
  }

  lemma {:induction false} OutcomeIsOfElements(nodes: seq<Node>)
    ensures ReadOutcome(Elements(nodes)) == ReadOutcome(nodes)
  {
    hide AttrNamed, TextIn, Elements;
    if nodes == [] {
      NoElements();
    } else {
      FirstElement(nodes);
      OutcomeIsOfElements(nodes[1..]);
    }
  }

  lemma {:induction false} OutputIsOfElements(nodes: seq<Node>)
    ensures ReadOutput(Elements(nodes)) == ReadOutput(nodes)
  {
    hide TextIn, Elements;
    if nodes == [] {
      NoElements();
    } else {
      FirstElement(nodes);
      OutputIsOfElements(nodes[1..]);
    }
  }

  lemma NoElements()
    ensures Elements([]) == []
  {
  }

  lemma VerdictsAreElements(nodes: seq<Node>)
    ensures ReadOutcome(Elements(nodes)) == ReadOutcome(nodes) && ReadOutput(Elements(nodes)) == ReadOutput(nodes)
  {
    OutcomeIsOfElements(nodes);
    OutputIsOfElements(nodes);
  }

  lemma TextReads(s: string)
    ensures TextIn(Infosets([Chars(s)])) == CleanText(s)
  {
    var ms := [Chars(s)];
    assert ms[1..] == [];
    if s == "" {
      assert Infosets(ms) == [];
    } else {
      assert Infosets(ms) == [Data(CleanText(s))];
      assert TextIn([Data(CleanText(s))]) == CleanText(s) + TextIn([]);
    }
  }

  lemma OutputReads(output: Option<string>)
    ensures ReadOutput(Infosets(OutputMarkup(output))) == if output.Some? then Some(CleanText(output.value)) else None
    ensures ReadOutcome(Infosets(OutputMarkup(output))) == Some(Pass)
  {
    hide CleanText, TextIn;
    if output.Some? {
      TextReads(output.value);
      OneInfoset(OutputMarkup(output)[0]);
      assert "system-out" != "failure" && "system-out" != "error" && "system-out" != "skipped";
    }
  }

  lemma OneInfoset(m: Markup)
    ensures Infosets([m]) == Infoset(m)
  {
    hide Infoset;
    assert [m][1..] == [];
  }

  /** The verdict of a case, with what is printed behind it. */
  lemma OutcomeReads(o: Outcome, more: seq<Node>)
    requires ReadOutcome(more) == Some(Pass)
    ensures ReadOutcome(Infosets(OutcomeMarkup(o)) + more) == Some(CleanOutcome(o))
    ensures ReadOutput(Infosets(OutcomeMarkup(o)) + more) == ReadOutput(more)
  {
    hide CleanText, TextIn, Clean, AttrNamed, Infosets;
    VerdictNames();
    match o
    case Pass =>
      NoInfosets();
      assert [] + more == more;
    case Fail(kind, message, detail) =>
      var m := OutcomeMarkup(o)[0];
      MessageReads(message, kind);
      TextReads(detail);
      OneInfoset(m);
      assert (Infoset(m) + more)[1..] == more;
    case Error(message, detail) =>
      var m := OutcomeMarkup(o)[0];
      MessageReads(message, "Error");
      TextReads(detail);
      OneInfoset(m);
      assert (Infoset(m) + more)[1..] == more;
    case Skipped(message) =>
      var m := OutcomeMarkup(o)[0];
      MessageReads(message, "");
      OneInfoset(m);
      assert (Infoset(m) + more)[1..] == more;
  }

  lemma VerdictNames()
    ensures "failure" != "error" && "failure" != "skipped" && "error" != "skipped"
    ensures "failure" != "system-out" && "error" != "system-out" && "skipped" != "system-out"
  {
    assert |"failure"| == 7 && |"error"| == 5 && |"system-out"| == 10;
    assert "failure"[0] == 'f' && "skipped"[0] == 's';
  }

  lemma NoInfosets()
    ensures Infosets([]) == []
  {
  }

  lemma MessageReads(message: string, kind: string)
    ensures AttrNamed(CleanAttrs([Attribute("message", message)]), "message") == Some(Clean(message))
    ensures var attrs := CleanAttrs([Attribute("message", message), Attribute("type", kind)]);
            AttrNamed(attrs, "message") == Some(Clean(message)) && AttrNamed(attrs, "type") == Some(Clean(kind))
  {
    hide CleanAttrs, Clean, AttrNamed, IsName;
    MessageAttrsAreGood(message, kind);
    AttrReads([Attribute("message", message)], 0);
    AttrReads([Attribute("message", message), Attribute("type", kind)], 0);
    AttrReads([Attribute("message", message), Attribute("type", kind)], 1);
  }

  lemma CaseReads(classname: string, c: Case)
    ensures |Infoset(CaseMarkup(classname, c))| == 1
    ensures ReadCase(Infoset(CaseMarkup(classname, c))[0]) == Some(CleanCase(classname, c))
  {
    hide Clean, CleanText, Lines, AttrNamed, CleanAttrs, ReadOutcome, ReadOutput, CleanOutcome, Infosets, Indented,
      OutcomeMarkup, OutputMarkup, AllElems, CaseAttrs;
    CaseAttrsRead(classname, c);
    VerdictReads(c);
    NoInfosets();
  }

  lemma CaseAttrsRead(classname: string, c: Case)
    ensures var attrs := CleanAttrs(CaseAttrs(classname, c));
            AttrNamed(attrs, "classname") == Some(Clean(classname)) && AttrNamed(attrs, "name") == Some(Clean(c.name))
  {
    hide Clean, CleanAttrs, AttrNamed;
    assert "name" != "time" && |"classname"| == 9;
    AttrReads(CaseAttrs(classname, c), 0);
    AttrReads(CaseAttrs(classname, c), 1);
  }

  lemma VerdictReads(c: Case)
    ensures var nodes := if c.outcome.Pass? && c.output.None? then [] else
                           Infosets(Indented(OutcomeMarkup(c.outcome) + OutputMarkup(c.output), "      ", "    "));
            && ReadOutcome(nodes) == Some(CleanOutcome(c.outcome))
            && ReadOutput(nodes) == if c.output.Some? then Some(CleanText(c.output.value)) else None
  {
    hide CleanText, ReadOutcome, ReadOutput, Infosets, Indented, OutcomeMarkup, OutputMarkup, AllElems;
    if c.outcome.Pass? && c.output.None? {
      NoVerdict();
    } else {
      var kids := OutcomeMarkup(c.outcome) + OutputMarkup(c.output);
      OutcomeIsWellFormed(c);
      IndentedReads(kids, "      ", "    ");
      VerdictsAreElements(Infosets(Indented(kids, "      ", "    ")));
      InfosetsJoin(OutcomeMarkup(c.outcome), OutputMarkup(c.output));
      OutputReads(c.output);
      OutcomeReads(c.outcome, Infosets(OutputMarkup(c.output)));
    }
  }

  lemma NoVerdict()
    ensures ReadOutcome([]) == Some(Pass) && ReadOutput([]) == None
  {
  }

  lemma PropertyReads(p: Property)
    ensures |Infoset(PropertyMarkup(p))| == 1
    ensures ReadProperty(Infoset(PropertyMarkup(p))[0]) == Some(Property(Clean(p.name), Clean(p.value)))
  {
    hide Clean, AttrNamed, CleanAttrs;
    assert "name" != "value";
    var attrs := PropertyMarkup(p).attrs;
    AttrReads(attrs, 0);
    AttrReads(attrs, 1);
  }

  lemma {:induction false} PropertiesRead(ps: seq<Property>)
    ensures ReadEach(ReadProperty, Infosets(PropertyMarkups(ps))) == Some(CleanProperties(ps))
    ensures |Infosets(PropertyMarkups(ps))| == |ps|
  {
    hide ReadProperty, Infoset, PropertyMarkup, Clean;
    if ps == [] {
      NoInfosets();
      assert PropertyMarkups(ps) == [];
    } else {
      PropertyReads(ps[0]);
      PropertiesRead(ps[1..]);
      assert PropertyMarkups(ps)[1..] == PropertyMarkups(ps[1..]);
      assert Infosets(PropertyMarkups(ps))[1..] == Infosets(PropertyMarkups(ps[1..]));
    }
  }

  lemma {:induction false} CasesRead(classname: string, cs: seq<Case>)
    ensures ReadEach(ReadCase, Infosets(CaseMarkups(classname, cs))) == Some(CleanCases(classname, cs))
    ensures cs != [] ==> var nodes := Infosets(CaseMarkups(classname, cs)); nodes != [] && ReadCase(nodes[0]).Some?
    ensures cs == [] ==> Infosets(CaseMarkups(classname, cs)) == []
  {
    hide ReadCase, Infoset, CaseMarkup, CleanCase;
    if cs == [] {
      NoInfosets();
      assert CaseMarkups(classname, cs) == [];
    } else {
      CaseReads(classname, cs[0]);
      CasesRead(classname, cs[1..]);
      assert CaseMarkups(classname, cs)[1..] == CaseMarkups(classname, cs[1..]);
      assert Infosets(CaseMarkups(classname, cs))[1..] == Infosets(CaseMarkups(classname, cs[1..]));
    }
  }

  lemma CountsRead(suite: Suite)
    ensures var attrs := CleanAttrs(SuiteAttrs(suite));
            && AttrNamed(attrs, "name") == Some(Clean(suite.name)) && AttrNamed(attrs, "time") == Some(suite.time)
            && NumberNamed(attrs, "tests") == Some(|suite.cases|)
            && NumberNamed(attrs, "failures") == Some(Failures(suite.cases))
            && NumberNamed(attrs, "errors") == Some(Errors(suite.cases))
            && NumberNamed(attrs, "skipped") == Some(Skips(suite.cases))
  {
    hide Clean, CleanAttrs, AttrNamed, Decimal, Failures, Errors, Skips, IsName, IsPlain;
    var a := SuiteAttrs(suite);
    SuiteAttrsAreGood(suite);
    AttrReads(a, 0);
    NumberReads(a, 1, |suite.cases|);
    NumberReads(a, 2, Failures(suite.cases));
    NumberReads(a, 3, Errors(suite.cases));
    NumberReads(a, 4, Skips(suite.cases));
    AttrReads(a, 5);
    PlainIsClean(suite.time);
  }

  lemma NumberReads(a: seq<Attribute>, i: nat, n: nat)
    requires DistinctNames(a) && i < |a| && a[i].value == Decimal(n)
    ensures NumberNamed(CleanAttrs(a), a[i].name) == Some(n)
  {
    hide Clean, CleanAttrs, AttrNamed, Decimal, DistinctNames;
    AttrReads(a, i);
    DecimalPrints(n);
    DecimalReads(n);
    PlainIsClean(Decimal(n));
  }

  /** The `properties` element stands first when there are properties, and no case is named like it. */
  lemma ChildrenRead(suite: Suite)
    ensures var children := Infosets(SuiteChildren(suite));
            var listed := children != [] && children[0].Element? && children[0].name == "properties";
            && ReadEach(ReadProperty, if listed then Elements(children[0].children) else []) == Some(CleanProperties(suite.properties))
            && ReadEach(ReadCase, if listed then children[1..] else children) == Some(CleanCases(suite.classname, suite.cases))
  {
    hide ReadEach, Infoset, CleanProperties, CleanCases, CaseMarkups, PropertyMarkups, Clean, ReadCase, ReadProperty, Elements;
    var ps := PropertiesMarkup(suite.properties);
    InfosetsJoin(ps, CaseMarkups(suite.classname, suite.cases));
    CasesRead(suite.classname, suite.cases);
    var cases := Infosets(CaseMarkups(suite.classname, suite.cases));
    if suite.properties == [] {
      NothingRead();
      NoInfosets();
      assert [] + cases == cases;
      FirstCaseIsNotProperties(suite.classname, suite.cases);
    } else {
      PropertiesElementReads(suite.properties);
      OneInfoset(ps[0]);
      assert (Infoset(ps[0]) + cases)[1..] == cases;
    }
  }

  lemma NothingRead()
    ensures ReadEach(ReadProperty, []) == Some([]) && CleanProperties([]) == []
  {
  }

  lemma FirstCaseIsNotProperties(classname: string, cases: seq<Case>)
    ensures var nodes := Infosets(CaseMarkups(classname, cases));
            nodes == [] || (nodes[0].Element? && nodes[0].name != "properties")
  {
    hide Infosets, CaseMarkups;
    CasesRead(classname, cases);
    assert |"properties"| != |"testcase"|;
  }

  lemma PropertiesElementReads(ps: seq<Property>)
    requires ps != []
    ensures var nodes := Infoset(PropertiesMarkup(ps)[0]);
            && |nodes| == 1 && nodes[0].Element? && nodes[0].name == "properties"
            && ReadEach(ReadProperty, Elements(nodes[0].children)) == Some(CleanProperties(ps))
  {
    hide ReadEach, ReadProperty, Infosets, CleanProperties, PropertyMarkups, Elements, Indented, WellFormed;
    PropertiesAreElems(ps);
    IndentedReads(PropertyMarkups(ps), "      ", "    ");
    PropertiesRead(ps);
  }

  lemma PropertiesAreElems(ps: seq<Property>)
    ensures AllElems(PropertyMarkups(ps))
  {
    hide WellFormed, PropertyMarkup;
    forall i | 0 <= i < |ps|
      ensures WellFormed(PropertyMarkups(ps)[i]) && PropertyMarkups(ps)[i].Elem?
    {
      PropertyIsWellFormed(ps[i]);
    }
  }

  lemma RootReads(suite: Suite)
    ensures |Infoset(RootMarkup(suite))| == 1
    ensures ReadReport(Infoset(RootMarkup(suite))[0]) == Some(CleanReport(suite))
  {
    hide Infosets, Elements, Indented, SuiteChildren, SuiteAttrs, CleanAttrs, AttrNamed, NumberNamed, ReadEach, Clean,
      CleanProperties, CleanCases, Failures, Errors, Skips, AllElems, WellFormed;
    CountsRead(suite);
    ChildrenRead(suite);
    ChildrenAreWellFormed(suite);
    IndentedReads(SuiteChildren(suite), "    ", "  ");
    SuiteIsElem(suite);
    IndentedReads([SuiteMarkup(suite)], "  ", "");
    OneInfoset(SuiteMarkup(suite));
    ChildrenStayElements(suite);
  }

  lemma SuiteIsElem(suite: Suite)
    ensures AllElems([SuiteMarkup(suite)])
  {
    hide IsName, GoodAttrs, SuiteAttrs, SuiteChildren, Indented, WellFormed;
    ElementNames();
    SuiteAttrsAreGood(suite);
    ChildrenAreWellFormed(suite);
    LinesAreWellFormed("testsuite", SuiteAttrs(suite), SuiteChildren(suite), "    ", "  ");
  }

  lemma ChildrenStayElements(suite: Suite)
    ensures forall i :: 0 <= i < |Infosets(SuiteChildren(suite))| ==> Infosets(SuiteChildren(suite))[i].Element?
  {
    hide Infosets, Elements, Indented, SuiteChildren;
    ChildrenAreWellFormed(suite);
    IndentedReads(SuiteChildren(suite), "    ", "  ");
  }

  // ----- The round trip -----

  lemma DeclarationIsSkipped(rest: string)
    ensures AfterDeclaration(PROLOG + rest) == Some("\n" + rest)
  {
    var before := PROLOG[..|PROLOG| - 2];
    PrologEnds();
    assert PROLOG == before + ['>'] + "\n";
    DeclarationEnds(before, rest);
  }

  lemma PrologEnds()
    ensures |PROLOG| > 8 && PROLOG[|PROLOG| - 2..] == ">\n" && PROLOG[|PROLOG| - 3] == '?'
    ensures PROLOG[..6] == "<?xml " && '>' !in PROLOG[..|PROLOG| - 2]
  {
    var body := "<?xml version=\"1.0\" encoding=\"UTF-8\"?";
    assert |body| == 37 && PROLOG == body + ">\n";
    assert PROLOG[..|PROLOG| - 2] == body && body[36] == '?' && body[..6] == "<?xml ";
    assert forall i :: 0 <= i < |body| ==> body[i] != '>';
  }

  lemma DeclarationEnds(before: string, rest: string)
    requires '>' !in before && |before| >= 6 && before[..6] == "<?xml " && before[|before| - 1] == '?'
    ensures AfterDeclaration(before + ['>'] + "\n" + rest) == Some("\n" + rest)
  {
    var s := before + ['>'] + "\n" + rest;
    assert s == before + ['>'] + ("\n" + rest);
    IndexSkips(before, '>', "\n" + rest);
    assert s[..6] == before[..6] && s[|before| - 1] == '?' && s[|before| + 1..] == "\n" + rest;
  }

  lemma DocumentReads(suite: Suite)
    ensures ReadDocument(Document(suite)) == Some(Infoset(RootMarkup(suite))[0])
  {
    hide Print, RootMarkup, Infoset, ReadContent, AfterDeclaration, Clean, Lines;
    var root := RootMarkup(suite);
    var all := [Chars("\n"), root, Chars("\n")];
    RootReads(suite);
    RootIsWellFormed(suite);
    ReadUndoesPrint(all);
    DeclarationIsSkipped(Print(root) + "\n");
    assert Document(suite) == PROLOG + (Print(root) + "\n");
    SurroundedPrints(root);
    assert "\n" + (Print(root) + "\n") == "\n" + Print(root) + "\n";
    RootIsElement(suite);
    SurroundedReads(root);
  }

  lemma RootIsElement(suite: Suite)
    ensures RootMarkup(suite).Elem?
  {
  }

  lemma SurroundedPrints(m: Markup)
    ensures PrintAll([Chars("\n"), m, Chars("\n")]) == "\n" + Print(m) + "\n"
  {
    hide Print, PrintAll;
    LineStarts("");
    assert "\n" + "" == "\n";
    OnePrints(Chars("\n"));
    TwoPrint(Chars("\n"), m, [Chars("\n")]);
    assert [Chars("\n"), m] + [Chars("\n")] == [Chars("\n"), m, Chars("\n")];
  }

  lemma SurroundedReads(m: Markup)
    requires m.Elem?
    ensures var nodes := Infosets([Chars("\n"), m, Chars("\n")]);
            && Elements(nodes) == Infoset(m) && |Infoset(m)| == 1
            && forall i :: 0 <= i < |nodes| ==> nodes[i].Element? || IsBlankData(nodes[i])
  {
    hide CleanAttrs, Infosets, Elements;
    var breaks := Chars("\n");
    BreakReads();
    OneInfoset(breaks);
    TwoRead(breaks, m, [breaks]);
    assert [breaks, m] + [breaks] == [breaks, m, breaks];
    ElementsJoin(Infoset(breaks) + Infoset(m), Infoset(breaks));
    OnlyElements(Infoset(breaks));
  }

  lemma BreakReads()
    ensures Infoset(Chars("\n")) == [Data("\n")]
  {
    LinesLeave("\n");
    assert "\n"[0] == '\n' && "\n"[1..] == "" && CleanChar('\n') == '\n';
    assert Clean("\n") == [CleanChar('\n')] + Clean("");
  }

  /**
   * An XML reader finds in a rendered report the suite it was made from: every name and message with
   * its forbidden characters replaced, every text also with its line ends made one, and the counts.
   */
  lemma ReportRoundTrip(suite: Suite)
    ensures ReadDocument(Document(suite)).Some?
    ensures ReadReport(ReadDocument(Document(suite)).value) == Some(CleanReport(suite))
  {
    hide *;
    DocumentReads(suite);
    RootReads(suite);
  }
}
