/** Markup as it is printed, the tree an XML reader makes of it, and the proof that one undoes the other. */
module XmlTree {
  import opened Wrappers
  import opened Xml

  datatype Attribute = Attribute(name: string, value: string)

  /** What is printed; a `short` element is closed by its own tag. */
  datatype Markup = Chars(s: string) | Elem(name: string, attrs: seq<Attribute>, short: bool, body: seq<Markup>)

  /** What a reader sees. */
  datatype Node = Data(s: string) | Element(name: string, attrs: seq<Attribute>, children: seq<Node>)

  predicate IsNameStart(c: char) { 'a' <= c <= 'z' || 'A' <= c <= 'Z' || c == '_' || c == ':' }

  predicate IsNameChar(c: char) { IsNameStart(c) || '0' <= c <= '9' || c == '-' || c == '.' }

  predicate IsName(s: string) {
    s != "" && IsNameStart(s[0]) && forall i :: 0 <= i < |s| ==> IsNameChar(s[i])
  }

  predicate DistinctNames(attrs: seq<Attribute>) {
    forall i, j :: 0 <= i < j < |attrs| ==> attrs[i].name != attrs[j].name
  }

  predicate GoodAttrs(attrs: seq<Attribute>) {
    DistinctNames(attrs) && forall i :: 0 <= i < |attrs| ==> IsName(attrs[i].name)
  }

  /** Names are names, no attribute comes twice, short elements are empty, and no two texts touch. */
  predicate WellFormed(m: Markup) {
    m.Elem? ==> IsName(m.name) && GoodAttrs(m.attrs) && (m.short ==> m.body == []) && AllWellFormed(m.body)
  }

  predicate AllWellFormed(ms: seq<Markup>) {
    ms != [] ==>
      && WellFormed(ms[0]) && AllWellFormed(ms[1..])
      && (ms[0].Chars? && |ms| > 1 ==> ms[1].Elem?)
  }

  // ----- Printing -----

  /** An attribute whose value is escaped already. */
  function Quoted(name: string, value: string): string { " " + name + "=\"" + value + "\"" }

  function PrintAttrs(attrs: seq<Attribute>): string {
    if attrs == [] then "" else Quoted(attrs[0].name, EscapedAttr(attrs[0].value)) + PrintAttrs(attrs[1..])
  }

  function OpenTag(name: string, attrs: seq<Attribute>, short: bool): string {
    "<" + name + PrintAttrs(attrs) + if short then "/>" else ">"
  }

  function CloseTag(name: string): string { "</" + name + ">" }

  function Print(m: Markup): string {
    match m
    case Chars(s) => EscapedText(s)
    case Elem(name, attrs, short, body) =>
      if short then OpenTag(name, attrs, true) else OpenTag(name, attrs, false) + PrintAll(body) + CloseTag(name)
  }

  function PrintAll(ms: seq<Markup>): string {
    if ms == [] then "" else Print(ms[0]) + PrintAll(ms[1..])
  }

  // ----- What it stands for -----

  function CleanAttrs(attrs: seq<Attribute>): seq<Attribute> {
    if attrs == [] then [] else [Attribute(attrs[0].name, Clean(attrs[0].value))] + CleanAttrs(attrs[1..])
  }

  /** Forbidden characters replaced, line ends made one, empty texts gone. */
  function Infoset(m: Markup): seq<Node> {
    match m
    case Chars(s) => if s == "" then [] else [Data(Clean(Lines(s)))]
    case Elem(name, attrs, _, body) => [Element(name, CleanAttrs(attrs), Infosets(body))]
  }

  function Infosets(ms: seq<Markup>): seq<Node> {
    if ms == [] then [] else Infoset(ms[0]) + Infosets(ms[1..])
  }

  // ----- Reading tags -----

  datatype Token = Content(s: string) | Start(name: string, attrs: seq<Attribute>, short: bool) | End(name: string)

  datatype Cut<T> = Cut(item: T, rest: string)

  function NameRun(s: string): (n: nat)
    ensures n <= |s|
  {
    if s == "" || !IsNameChar(s[0]) then 0 else 1 + NameRun(s[1..])
  }

  /** The length of the name a string begins with, 0 when it begins with none. */
  function NameLength(s: string): (n: nat)
    ensures n <= |s|
  {
    if s == "" || !IsNameStart(s[0]) then 0 else NameRun(s)
  }

  function SkipBlanks(s: string): (r: string)
    ensures |r| <= |s|
  {
    if s != "" && IsBlank(s[0]) then SkipBlanks(s[1..]) else s
  }

  /** One attribute: name, `=`, a value in double quotes (single quotes are not read). */
  function ReadAttr(s: string): (a: Option<Cut<Attribute>>)
    ensures a.Some? ==> |a.value.rest| < |s|
  {
    var n := NameLength(s);
    if n == 0 || |s| < n + 2 || s[n] != '=' || s[n + 1] != '"' then None
    else
      var t := s[n + 2..];
      var q := IndexOf(t, '"');
      if q == |t| then None
      else match Unescape(t[..q], true)
        case None => None
        case Some(value) => Some(Cut(Attribute(s[..n], value), t[q + 1..]))
  }

  datatype Tail = Tail(attrs: seq<Attribute>, short: bool)

  /** The rest of a start tag: attributes behind white space, then `>` or `/>`. */
  function ReadTail(s: string): (t: Option<Cut<Tail>>)
    ensures t.Some? ==> |t.value.rest| < |s|
    decreases |s|
  {
    var u := SkipBlanks(s);
    if "/>" <= u then Some(Cut(Tail([], true), u[2..]))
    else if ">" <= u then Some(Cut(Tail([], false), u[1..]))
    else if |u| == |s| then None
    else match ReadAttr(u)
      case None => None
      case Some(Cut(a, rest)) =>
        match ReadTail(rest)
        case None => None
        case Some(Cut(t, rest')) => Some(Cut(Tail([a] + t.attrs, t.short), rest'))
  }

  /** What stands behind `<`. */
  function ReadTag(s: string): (t: Option<Cut<Token>>)
    ensures t.Some? ==> |t.value.rest| < |s|
  {
    if "/" <= s then
      var n := NameLength(s[1..]);
      var u := SkipBlanks(s[n + 1..]);
      if n == 0 || !(">" <= u) then None else Some(Cut(End(s[1..n + 1]), u[1..]))
    else
      var n := NameLength(s);
      if n == 0 then None
      else match ReadTail(s[n..])
        case None => None
        case Some(Cut(t, rest)) =>
          if DistinctNames(t.attrs) then Some(Cut(Start(s[..n], t.attrs, t.short), rest)) else None
  }

  function Prepend(ts: seq<Token>, more: Option<seq<Token>>): Option<seq<Token>> {
    match more
    case None => None
    case Some(us) => Some(ts + us)
  }

  function Lex(s: string): Option<seq<Token>>
    decreases |s|
  {
    if s == "" then Some([])
    else if s[0] == '<' then
      match ReadTag(s[1..])
      case None => None
      case Some(Cut(t, rest)) => Prepend([t], Lex(rest))
    else
      var k := IndexOf(s, '<');
      match Unescape(s[..k], false)
      case None => None
      case Some(t) => Prepend([Content(t)], Lex(s[k..]))
  }

  // ----- Reading the tree -----

  datatype Forest = Forest(nodes: seq<Node>, rest: seq<Token>)

  /** Nodes up to an end tag that closes none of them. */
  function Grow(ts: seq<Token>): (f: Option<Forest>)
    ensures f.Some? ==> |f.value.rest| <= |ts|
    decreases |ts|
  {
    if ts == [] || ts[0].End? then Some(Forest([], ts))
    else match ts[0]
      case Content(s) => Plant(Data(s), Grow(ts[1..]))
      case Start(name, attrs, short) =>
        if short then Plant(Element(name, attrs, []), Grow(ts[1..]))
        else match Grow(ts[1..])
          case None => None
          case Some(inner) =>
            if inner.rest == [] || inner.rest[0] != End(name) then None
            else Plant(Element(name, attrs, inner.nodes), Grow(inner.rest[1..]))
  }

  function Plant(node: Node, more: Option<Forest>): (f: Option<Forest>)
    ensures f.Some? ==> more.Some? && f.value.rest == more.value.rest
  {
    match more
    case None => None
    case Some(f) => Some(Forest([node] + f.nodes, f.rest))
  }

  /** Content that reads as balanced markup; line ends are settled before anything else (section 2.11). */
  function ReadContent(s: string): Option<seq<Node>> {
    match Lex(Lines(s))
    case None => None
    case Some(ts) =>
      match Grow(ts)
      case None => None
      case Some(f) => if f.rest == [] then Some(f.nodes) else None
  }

  // ----- Names and tags read back -----

  lemma {:induction false} NameRuns(name: string, rest: string)
    requires forall i :: 0 <= i < |name| ==> IsNameChar(name[i])
    requires rest != "" ==> !IsNameChar(rest[0])
    ensures NameRun(name + rest) == |name|
  {
    if name == "" {
      assert name + rest == rest;
    } else {
      assert (name + rest)[1..] == name[1..] + rest;
      NameRuns(name[1..], rest);
    }
  }

  lemma NameIsRead(name: string, rest: string)
    requires IsName(name) && (rest != "" ==> !IsNameChar(rest[0]))
    ensures NameLength(name + rest) == |name| > 0 && (name + rest)[..|name|] == name && (name + rest)[|name|..] == rest
  {
    NameRuns(name, rest);
    var s := name + rest;
    assert s[0] == name[0] && s[..|name|] == name && s[|name|..] == rest;
  }

  lemma AttrIsRead(a: Attribute, rest: string)
    requires IsName(a.name)
    ensures ReadAttr(a.name + "=\"" + EscapedAttr(a.value) + "\"" + rest)
         == Some(Cut(Attribute(a.name, Clean(a.value)), rest))
  {
    hide EscapedAttr, Unescape, IsName, NameLength, IndexOf, Clean;
    var value := EscapedAttr(a.value);
    var s := a.name + "=\"" + value + "\"" + rest;
    var t := value + ['"'] + rest;
    assert s == a.name + ("=\"" + t);
    NameIsRead(a.name, "=\"" + t);
    EscapedIsInert(a.value);
    IndexSkips(value, '"', rest);
    AttrRead(a.value);
    assert s[|a.name|..] == "=\"" + t && s[..|a.name|] == a.name;
    assert s[|a.name|] == '=' && s[|a.name| + 1] == '"';
    assert s[|a.name| + 2..] == t;
    assert t[..|value|] == value && t[|value| + 1..] == rest;
  }

  function Closing(short: bool): string { if short then "/>" else ">" }

  lemma TagCloses(short: bool, rest: string)
    ensures ReadTail(Closing(short) + rest) == Some(Cut(Tail([], short), rest))
  {
    var s := Closing(short) + rest;
    assert s[0] == if short then '/' else '>';
    assert s[|Closing(short)|..] == rest;
    if short {
      assert s[..2] == "/>";
    } else {
      assert s[..1] == ">";
    }
  }

  lemma {:induction false} TailIsRead(attrs: seq<Attribute>, short: bool, rest: string)
    requires forall i :: 0 <= i < |attrs| ==> IsName(attrs[i].name)
    ensures ReadTail(PrintAttrs(attrs) + Closing(short) + rest) == Some(Cut(Tail(CleanAttrs(attrs), short), rest))
  {
    hide ReadTail, EscapedAttr, Clean, IsName, PrintAttrs, Closing;
    AttrsPrinted(attrs, short, rest);
    if attrs == [] {
      TagCloses(short, rest);
    } else {
      TailIsRead(attrs[1..], short, rest);
      AttrLeads(attrs[0], PrintAttrs(attrs[1..]) + Closing(short) + rest);
    }
  }

  lemma AttrsPrinted(attrs: seq<Attribute>, short: bool, rest: string)
    ensures PrintAttrs(attrs) + Closing(short) + rest
         == if attrs == [] then Closing(short) + rest
            else Quoted(attrs[0].name, EscapedAttr(attrs[0].value)) + (PrintAttrs(attrs[1..]) + Closing(short) + rest)
  {
    hide EscapedAttr, Closing, Quoted;
  }

  lemma AttrLeads(a: Attribute, more: string)
    requires IsName(a.name)
    ensures ReadTail(Quoted(a.name, EscapedAttr(a.value)) + more)
         == match ReadTail(more)
            case None => None
            case Some(Cut(t, rest)) => Some(Cut(Tail([Attribute(a.name, Clean(a.value))] + t.attrs, t.short), rest))
  {
    hide ReadAttr, EscapedAttr, Clean, IsNameChar;
    var u := a.name + "=\"" + EscapedAttr(a.value) + "\"" + more;
    var s := " " + u;
    assert s == Quoted(a.name, EscapedAttr(a.value)) + more;
    assert s[1..] == u && u[0] == a.name[0];
    assert SkipBlanks(u) == u && SkipBlanks(s) == u && |u| < |s|;
    assert !("/>" <= u) && !(">" <= u);
    AttrIsRead(a, more);
  }

  lemma {:induction false} CleanKeepsNames(attrs: seq<Attribute>)
    ensures |CleanAttrs(attrs)| == |attrs|
    ensures forall i :: 0 <= i < |attrs| ==> CleanAttrs(attrs)[i].name == attrs[i].name
  {
    hide Clean;
    if attrs != [] {
      CleanKeepsNames(attrs[1..]);
    }
  }

  lemma StartIsRead(name: string, attrs: seq<Attribute>, short: bool, rest: string)
    requires IsName(name) && GoodAttrs(attrs)
    ensures ReadTag(OpenTag(name, attrs, short)[1..] + rest) == Some(Cut(Start(name, CleanAttrs(attrs), short), rest))
  {
    hide ReadTail, PrintAttrs, CleanAttrs, NameLength, IsNameChar;
    var t := PrintAttrs(attrs) + Closing(short) + rest;
    var s := OpenTag(name, attrs, short)[1..] + rest;
    assert s == name + t;
    AttrsBegin(attrs, short, rest);
    NameIsRead(name, t);
    assert s[0] == name[0];
    TailIsRead(attrs, short, rest);
    CleanKeepsNames(attrs);
  }

  lemma AttrsBegin(attrs: seq<Attribute>, short: bool, rest: string)
    ensures var t := PrintAttrs(attrs) + Closing(short) + rest; t != "" && !IsNameChar(t[0])
  {
    if attrs != [] {
      assert PrintAttrs(attrs)[0] == ' ';
    }
  }

  lemma EndIsRead(name: string, rest: string)
    requires IsName(name)
    ensures ReadTag(CloseTag(name)[1..] + rest) == Some(Cut(End(name), rest))
  {
    hide NameLength, IsName;
    var s := CloseTag(name)[1..] + rest;
    assert s == "/" + (name + (">" + rest));
    assert s[1..] == name + (">" + rest);
    assert !IsNameChar('>') && (">" + rest)[0] == '>';
    NameIsRead(name, ">" + rest);
    assert s[0] == '/' && s[..1] == "/" && NameLength(s[1..]) == |name|;
    assert s[|name| + 1..] == ">" + rest;
    assert s[1..|name| + 1] == name;
    assert (">" + rest)[1..] == rest && SkipBlanks(">" + rest) == ">" + rest && ">" <= ">" + rest;
  }

  // ----- Line ends and tokens together -----

  lemma {:induction false} AttrsHoldNoReturn(attrs: seq<Attribute>)
    requires forall i :: 0 <= i < |attrs| ==> IsName(attrs[i].name)
    ensures '\r' !in PrintAttrs(attrs)
  {
    if attrs != [] {
      EscapedIsInert(attrs[0].value);
      NamesHoldNoReturn(attrs[0].name);
      AttrsHoldNoReturn(attrs[1..]);
      hide EscapedAttr, IsName;
    }
  }

  lemma NamesHoldNoReturn(name: string)
    requires IsName(name)
    ensures '\r' !in name
  {
  }

  /** Reading with line ends settled first. */
  function LexLines(s: string): Option<seq<Token>> { Lex(Lines(s)) }

  lemma StartIsLexed(name: string, attrs: seq<Attribute>, short: bool, rest: string)
    requires IsName(name) && GoodAttrs(attrs)
    ensures LexLines(OpenTag(name, attrs, short) + rest) == Prepend([Start(name, CleanAttrs(attrs), short)], LexLines(rest))
  {
    hide PrintAttrs, IsName, Lines, ReadTag, CleanAttrs, DistinctNames;
    var tag := OpenTag(name, attrs, short);
    AttrsHoldNoReturn(attrs);
    NamesHoldNoReturn(name);
    PlainLines(tag, rest);
    StartIsRead(name, attrs, short, Lines(rest));
    assert (tag + Lines(rest))[1..] == tag[1..] + Lines(rest);
  }

  lemma EndIsLexed(name: string, rest: string)
    requires IsName(name)
    ensures LexLines(CloseTag(name) + rest) == Prepend([End(name)], LexLines(rest))
  {
    hide IsName, Lines, ReadTag;
    var tag := CloseTag(name);
    NamesHoldNoReturn(name);
    PlainLines(tag, rest);
    EndIsRead(name, Lines(rest));
    assert (tag + Lines(rest))[1..] == tag[1..] + Lines(rest);
  }

  predicate EndsText(rest: string) { rest == "" || rest[0] == '<' }

  lemma TextIsLexed(s: string, rest: string)
    requires s != "" && EndsText(rest)
    ensures LexLines(EscapedText(s) + rest) == Prepend([Content(Clean(Lines(s)))], LexLines(rest))
  {
    hide EscapedText, Unescape, ReadTag, Clean, IndexOf;
    var t, rest' := Lines(s), Lines(rest);
    LinesSplit(EscapedText(s), rest);
    LinesOfEscaped(s);
    EscapedIsInert(t);
    TextRead(t);
    var raw := EscapedText(t) + rest';
    assert raw[0] == EscapedText(t)[0];
    if rest == "" {
      IndexMisses(EscapedText(t), '<');
      assert raw == EscapedText(t);
    } else {
      assert raw == EscapedText(t) + ['<'] + rest'[1..];
      IndexSkips(EscapedText(t), '<', rest'[1..]);
    }
    assert raw[..|EscapedText(t)|] == EscapedText(t) && raw[|EscapedText(t)|..] == rest';
  }

  lemma {:induction false} IndexMisses(s: string, c: char)
    requires c !in s
    ensures IndexOf(s, c) == |s|
  {
    if s != "" {
      IndexMisses(s[1..], c);
    }
  }

  // ----- The round trip -----

  function Tokens(m: Markup): seq<Token> {
    match m
    case Chars(s) => if s == "" then [] else [Content(Clean(Lines(s)))]
    case Elem(name, attrs, short, body) =>
      if short then [Start(name, CleanAttrs(attrs), true)]
      else [Start(name, CleanAttrs(attrs), false)] + AllTokens(body) + [End(name)]
  }

  function AllTokens(ms: seq<Markup>): seq<Token> {
    if ms == [] then [] else Tokens(ms[0]) + AllTokens(ms[1..])
  }

  lemma PrependTwice(a: seq<Token>, b: seq<Token>, more: Option<seq<Token>>)
    ensures Prepend(a, Prepend(b, more)) == Prepend(a + b, more) && Prepend([], more) == more
  {
    if more.Some? {
      assert a + (b + more.value) == a + b + more.value && [] + more.value == more.value;
    }
  }

  lemma {:induction false} MarkupIsLexed(m: Markup, rest: string)
    requires WellFormed(m) && (m.Chars? ==> EndsText(rest))
    ensures LexLines(Print(m) + rest) == Prepend(Tokens(m), LexLines(rest))
    decreases m
  {
    hide OpenTag, CloseTag, LexLines, Prepend, EndsText, GoodAttrs, CleanAttrs, EscapedText, Clean, Lines, AllWellFormed, IsName;
    match m
    case Chars(s) =>
      if s == "" {
        EmptyText(rest);
      } else {
        TextIsLexed(s, rest);
      }
    case Elem(name, attrs, short, body) =>
      if short {
        StartIsLexed(name, attrs, true, rest);
      } else {
        var rest1 := CloseTag(name) + rest;
        var rest2 := PrintAll(body) + rest1;
        assert Print(m) + rest == OpenTag(name, attrs, false) + rest2;
        StartIsLexed(name, attrs, false, rest2);
        ClosingEndsText(name, rest);
        AllAreLexed(body, rest1);
        EndIsLexed(name, rest);
        PrependTwice(AllTokens(body), [End(name)], LexLines(rest));
        var start, inner := [Start(name, CleanAttrs(attrs), false)], AllTokens(body) + [End(name)];
        PrependTwice(start, inner, LexLines(rest));
        assert Tokens(m) == start + inner;
      }
  }

  lemma EmptyText(rest: string)
    ensures EscapedText("") + rest == rest
    ensures Prepend([], LexLines(rest)) == LexLines(rest)
  {
    PrependTwice([], [], LexLines(rest));
  }

  lemma ClosingEndsText(name: string, rest: string)
    ensures EndsText(CloseTag(name) + rest)
  {
  }

  lemma {:induction false} AllAreLexed(ms: seq<Markup>, rest: string)
    requires AllWellFormed(ms) && EndsText(rest)
    ensures LexLines(PrintAll(ms) + rest) == Prepend(AllTokens(ms), LexLines(rest))
    decreases ms
  {
    hide Print, Tokens, LexLines, Prepend, WellFormed;
    if ms == [] {
      PrependTwice([], [], LexLines(rest));
      assert PrintAll(ms) + rest == rest;
    } else {
      var rest1 := PrintAll(ms[1..]) + rest;
      assert PrintAll(ms) + rest == Print(ms[0]) + rest1;
      if ms[0].Chars? {
        NextEndsText(ms[1..], rest);
      }
      MarkupIsLexed(ms[0], rest1);
      AllAreLexed(ms[1..], rest);
      PrependTwice(Tokens(ms[0]), AllTokens(ms[1..]), LexLines(rest));
    }
  }

  /** Behind a text comes a tag or the end. */
  lemma NextEndsText(ms: seq<Markup>, rest: string)
    requires EndsText(rest) && (ms != [] ==> ms[0].Elem?)
    ensures EndsText(PrintAll(ms) + rest)
  {
    hide PrintAttrs;
    if ms != [] {
      assert Print(ms[0])[0] == '<';
    }
  }

  function PlantAll(nodes: seq<Node>, more: Option<Forest>): Option<Forest> {
    match more
    case None => None
    case Some(f) => Some(Forest(nodes + f.nodes, f.rest))
  }

  lemma PlantTwice(a: seq<Node>, b: seq<Node>, more: Option<Forest>)
    ensures PlantAll(a, PlantAll(b, more)) == PlantAll(a + b, more) && PlantAll([], more) == more
    ensures |a| == 1 ==> Plant(a[0], more) == PlantAll(a, more)
  {
    if more.Some? {
      assert a + (b + more.value.nodes) == a + b + more.value.nodes && [] + more.value.nodes == more.value.nodes;
    }
    if |a| == 1 {
      assert a == [a[0]];
    }
  }

  lemma {:induction false} MarkupGrows(m: Markup, ts: seq<Token>)
    requires WellFormed(m)
    ensures Grow(Tokens(m) + ts) == PlantAll(Infoset(m), Grow(ts))
    decreases m
  {
    hide CleanAttrs, Clean, Lines, PlantAll, Plant, GoodAttrs, IsName, AllWellFormed;
    PlantTwice(Infoset(m), [], Grow(ts));
    match m
    case Chars(s) =>
      if s == "" {
        assert Tokens(m) + ts == ts;
      } else {
        assert (Tokens(m) + ts)[1..] == ts;
      }
    case Elem(name, attrs, short, body) =>
      var start := Start(name, CleanAttrs(attrs), short);
      if short {
        assert (Tokens(m) + ts)[1..] == ts && Infosets(body) == [];
      } else {
        var ending := [End(name)] + ts;
        assert Tokens(m) + ts == [start] + (AllTokens(body) + ending);
        AllGrow(body, ending);
        LongGrows(start, AllTokens(body) + ending, Infosets(body), ts);
      }
  }

  lemma LongGrows(start: Token, inner: seq<Token>, children: seq<Node>, ts: seq<Token>)
    requires start.Start? && !start.short
    requires Grow(inner) == PlantAll(children, Grow([End(start.name)] + ts))
    ensures Grow([start] + inner) == Plant(Element(start.name, start.attrs, children), Grow(ts))
  {
    hide Plant;
    var ending := [End(start.name)] + ts;
    assert Grow(ending) == Some(Forest([], ending));
    assert children + [] == children;
    assert ([start] + inner)[1..] == inner && ending[1..] == ts;
  }

  lemma {:induction false} AllGrow(ms: seq<Markup>, ts: seq<Token>)
    requires AllWellFormed(ms)
    ensures Grow(AllTokens(ms) + ts) == PlantAll(Infosets(ms), Grow(ts))
    decreases ms
  {
    hide Grow, PlantAll, Tokens, Infoset, WellFormed;
    if ms == [] {
      assert AllTokens(ms) + ts == ts;
      PlantTwice([], [], Grow(ts));
    } else {
      assert AllTokens(ms) + ts == Tokens(ms[0]) + (AllTokens(ms[1..]) + ts);
      MarkupGrows(ms[0], AllTokens(ms[1..]) + ts);
      AllGrow(ms[1..], ts);
      PlantTwice(Infoset(ms[0]), Infosets(ms[1..]), Grow(ts));
    }
  }

  /** Reading what was printed gives back the tree, up to forbidden characters and the ends of lines. */
  lemma ReadUndoesPrint(ms: seq<Markup>)
    requires AllWellFormed(ms)
    ensures ReadContent(PrintAll(ms)) == Some(Infosets(ms))
  {
    hide AllWellFormed, PrintAll, AllTokens, Infosets;
    var ts := AllTokens(ms);
    AllAreLexed(ms, "");
    assert PrintAll(ms) + "" == PrintAll(ms) && ts + [] == ts;
    AllGrow(ms, []);
    assert Infosets(ms) + [] == Infosets(ms);
  }
}
