/**
 * What a judge is asked about a dataset item, and the canonical string that names the question in
 * the cache (src/judge.rs).
 */
module JudgeCanon {
  import opened Wrappers
  import opened Numerals
  import opened Dataset

  datatype Provider = Anthropic | OpenAi {
    function DebugName(): string {
      match this
      case Anthropic => "Anthropic"
      case OpenAi => "OpenAi"
    }
  }

  datatype Rail =
    | GEval | QaCorrectness | AnswerRelevancy | Faithfulness | Hallucination
    | ContextPrecision | ContextRecall | Toxicity | Bias
  {
    function Slug(): string {
      match this
      case GEval => "g_eval"
      case QaCorrectness => "qa_correctness"
      case AnswerRelevancy => "answer_relevancy"
      case Faithfulness => "faithfulness"
      case Hallucination => "hallucination"
      case ContextPrecision => "context_precision"
      case ContextRecall => "context_recall"
      case Toxicity => "toxicity"
      case Bias => "bias"
    }
  }

  datatype JudgeSpec = JudgeSpec(
    name: Option<string>,
    rail: Rail,
    provider: Provider,
    model: string,
    criteria: Option<string>,
    passThreshold: real)
  {
    /** The evaluator's name. */
    function Name(): string { name.UnwrapOr("judge_" + rail.Slug()) }
  }

  // ----- The question -----

  datatype Prompt = Prompt(system: string, user: string)

  /** All the backend is given. */
  datatype Question = Question(provider: Provider, model: string, prompt: Prompt)

  /** The characters Unicode calls white space. */
  predicate IsSpace(c: char) {
    var n := c as int;
    || 0x9 <= n <= 0xD || n == 0x20 || n == 0x85 || n == 0xA0 || n == 0x1680 || 0x2000 <= n <= 0x200A
    || n == 0x2028 || n == 0x2029 || n == 0x202F || n == 0x205F || n == 0x3000
  }

  function TrimStart(s: string): string {
    if s != [] && IsSpace(s[0]) then TrimStart(s[1..]) else s
  }

  function TrimEnd(s: string): string {
    if s != [] && IsSpace(s[|s| - 1]) then TrimEnd(s[..|s| - 1]) else s
  }

  function Trim(s: string): string { TrimEnd(TrimStart(s)) }

  function Join(parts: seq<string>, between: string): string {
    if parts == [] then "" else if |parts| == 1 then parts[0] else parts[0] + between + Join(parts[1..], between)
  }

  /** The grading instructions of each rail; their wording is left open. */
  type Wording = Rail -> string

  /** What is asked, or nothing when a field the rail needs is missing or blank. */
  function BuildPrompt(system: Wording, spec: JudgeSpec, item: DatasetItem): Option<Prompt> {
    var output := Trim(item.output);
    if output == "" then None
    else
      var input, expected := Trim(item.input.UnwrapOr("")), Trim(item.expected.UnwrapOr(""));
      var context := Join(item.context.UnwrapOr([]), "\n---\n");
      var user := match spec.rail
        case GEval =>
          var criteria := Trim(spec.criteria.UnwrapOr(""));
          if criteria == "" then None
          else Some("CRITERIA:\n" + criteria + "\n\nINPUT:\n" + (if input == "" then "(none)" else input)
                    + "\n\nOUTPUT:\n" + output)
        case QaCorrectness =>
          if input == "" || expected == "" then None
          else Some("QUESTION:\n" + input + "\n\nREFERENCE:\n" + expected + "\n\nOUTPUT:\n" + output)
        case AnswerRelevancy =>
          if input == "" then None else Some("QUESTION:\n" + input + "\n\nANSWER:\n" + output)
        case Faithfulness =>
          if context == "" then None else Some("CONTEXT:\n" + context + "\n\nANSWER:\n" + output)
        case Hallucination =>
          if context == "" then None else Some("CONTEXT:\n" + context + "\n\nANSWER:\n" + output)
        case ContextPrecision =>
          if input == "" || context == "" then None else Some("QUESTION:\n" + input + "\n\nCONTEXT:\n" + context)
        case ContextRecall =>
          if expected == "" || context == "" then None
          else Some("REFERENCE:\n" + expected + "\n\nCONTEXT:\n" + context)
        case Toxicity => Some("OUTPUT:\n" + output)
        case Bias => Some("OUTPUT:\n" + output);
      match user
      case None => None
      case Some(text) => Some(Prompt(system(spec.rail), text))
  }

  // ----- What a question shows -----

  datatype Part = Criteria | Input | Expected | Context | Output

  function TextOf(spec: JudgeSpec, item: DatasetItem, part: Part): string {
    match part
    case Criteria => Trim(spec.criteria.UnwrapOr(""))
    case Input => Trim(item.input.UnwrapOr(""))
    case Expected => Trim(item.expected.UnwrapOr(""))
    case Context => Join(item.context.UnwrapOr([]), "\n---\n")
    case Output => Trim(item.output)
  }

  /** What each rail shows, under which heading. */
  function Shown(rail: Rail): seq<(string, Part)> {
    match rail
    case GEval => [("CRITERIA", Criteria), ("INPUT", Input), ("OUTPUT", Output)]
    case QaCorrectness => [("QUESTION", Input), ("REFERENCE", Expected), ("OUTPUT", Output)]
    case AnswerRelevancy => [("QUESTION", Input), ("ANSWER", Output)]
    case Faithfulness => [("CONTEXT", Context), ("ANSWER", Output)]
    case Hallucination => [("CONTEXT", Context), ("ANSWER", Output)]
    case ContextPrecision => [("QUESTION", Input), ("CONTEXT", Context)]
    case ContextRecall => [("REFERENCE", Expected), ("CONTEXT", Context)]
    case Toxicity => [("OUTPUT", Output)]
    case Bias => [("OUTPUT", Output)]
  }

  /** The output is always needed, and so is what is shown, but for the input of a free evaluation. */
  predicate Needs(rail: Rail, part: Part) {
    part == Output || (!(rail.GEval? && part.Input?) && exists i :: 0 <= i < |Shown(rail)| && Shown(rail)[i].1 == part)
  }

  function Section(spec: JudgeSpec, item: DatasetItem, shown: (string, Part)): string {
    var text := TextOf(spec, item, shown.1);
    shown.0 + ":\n" + if text == "" then "(none)" else text
  }

  function Sections(spec: JudgeSpec, item: DatasetItem, shown: seq<(string, Part)>): seq<string> {
    seq(|shown|, i requires 0 <= i < |shown| => Section(spec, item, shown[i]))
  }

  /**
   * A question is asked exactly when all its rail needs is there and not blank, and it shows, under the rail's
   * instructions and one blank line apart, just what the rail is about.
   */
  lemma PromptShows(system: Wording, spec: JudgeSpec, item: DatasetItem)
    ensures BuildPrompt(system, spec, item).Some? <==> forall part :: Needs(spec.rail, part) ==> TextOf(spec, item, part) != ""
    ensures var prompt := BuildPrompt(system, spec, item);
            prompt.Some? ==> prompt.value.system == system(spec.rail)
                             && prompt.value.user == Join(Sections(spec, item, Shown(spec.rail)), "\n\n")
  {
    hide Trim, TextOf, Section, Join;
    PromptNeeds(system, spec, item);
    PromptJoins(system, spec, item);
  }

  lemma NeedsAre(rail: Rail, part: Part)
    ensures Needs(rail, part) <==>
              match part
              case Output => true
              case Criteria => rail.GEval?
              case Input => rail.QaCorrectness? || rail.AnswerRelevancy? || rail.ContextPrecision?
              case Expected => rail.QaCorrectness? || rail.ContextRecall?
              case Context => rail.Faithfulness? || rail.Hallucination? || rail.ContextPrecision? || rail.ContextRecall?
  {
    var shown := Shown(rail);
    assert |shown| >= 1 && (shown[0].1 == part && !(rail.GEval? && part.Input?) ==> Needs(rail, part));
    assert |shown| >= 2 ==> (shown[1].1 == part && !(rail.GEval? && part.Input?) ==> Needs(rail, part));
  }

  lemma PromptNeeds(system: Wording, spec: JudgeSpec, item: DatasetItem)
    ensures BuildPrompt(system, spec, item).Some? <==> forall part :: Needs(spec.rail, part) ==> TextOf(spec, item, part) != ""
  {
    hide Trim, Join, Needs, Shown;
    forall part {
      NeedsAre(spec.rail, part);
    }
    var present := part => Needs(spec.rail, part) ==> TextOf(spec, item, part) != "";
    assert (forall part :: present(part)) <==>
             present(Criteria) && present(Input) && present(Expected) && present(Context) && present(Output);
  }

  lemma JoinOne(a: string, between: string)
    ensures Join([a], between) == a
  {
  }

  lemma JoinTwo(a: string, b: string, between: string)
    ensures Join([a, b], between) == a + between + b
  {
    assert [a, b][1..] == [b];
  }

  lemma JoinThree(a: string, b: string, c: string, between: string)
    ensures Join([a, b, c], between) == a + between + b + between + c
  {
    assert [a, b, c][1..] == [b, c];
    JoinTwo(b, c, between);
    assert a + between + (b + between + c) == a + between + b + between + c;
  }

  lemma OneSection(spec: JudgeSpec, item: DatasetItem, one: (string, Part))
    ensures Join(Sections(spec, item, [one]), "\n\n") == Section(spec, item, one)
  {
    hide Section, Join;
    assert Sections(spec, item, [one]) == [Section(spec, item, one)];
    JoinOne(Section(spec, item, one), "\n\n");
  }

  lemma TwoSections(spec: JudgeSpec, item: DatasetItem, one: (string, Part), two: (string, Part))
    ensures Join(Sections(spec, item, [one, two]), "\n\n") == Section(spec, item, one) + "\n\n" + Section(spec, item, two)
  {
    hide Section, Join;
    assert Sections(spec, item, [one, two]) == [Section(spec, item, one), Section(spec, item, two)];
    JoinTwo(Section(spec, item, one), Section(spec, item, two), "\n\n");
  }

  lemma ThreeSections(spec: JudgeSpec, item: DatasetItem, one: (string, Part), two: (string, Part), three: (string, Part))
    ensures Join(Sections(spec, item, [one, two, three]), "\n\n")
         == Section(spec, item, one) + "\n\n" + Section(spec, item, two) + "\n\n" + Section(spec, item, three)
  {
    hide Section, Join;
    assert Sections(spec, item, [one, two, three]) == [Section(spec, item, one), Section(spec, item, two), Section(spec, item, three)];
    JoinThree(Section(spec, item, one), Section(spec, item, two), Section(spec, item, three), "\n\n");
  }

  lemma Behind(before: string, heading: string, text: string)
    ensures before + "\n\n" + (heading + ":\n" + text) == before + ("\n\n" + heading + ":\n") + text
  {
  }

  lemma HeadingsAre()
    ensures "CRITERIA:\n" == "CRITERIA" + ":\n" && "QUESTION:\n" == "QUESTION" + ":\n" && "CONTEXT:\n" == "CONTEXT" + ":\n"
    ensures "REFERENCE:\n" == "REFERENCE" + ":\n" && "OUTPUT:\n" == "OUTPUT" + ":\n"
    ensures "\n\nINPUT:\n" == "\n\n" + "INPUT" + ":\n" && "\n\nOUTPUT:\n" == "\n\n" + "OUTPUT" + ":\n"
    ensures "\n\nREFERENCE:\n" == "\n\n" + "REFERENCE" + ":\n" && "\n\nANSWER:\n" == "\n\n" + "ANSWER" + ":\n"
    ensures "\n\nCONTEXT:\n" == "\n\n" + "CONTEXT" + ":\n"
  {
  }

  lemma PromptJoins(system: Wording, spec: JudgeSpec, item: DatasetItem)
    ensures var prompt := BuildPrompt(system, spec, item);
            prompt.Some? ==> prompt.value.system == system(spec.rail)
                             && prompt.value.user == Join(Sections(spec, item, Shown(spec.rail)), "\n\n")
  {
    hide Trim, Join, Sections;
    HeadingsAre();
    var shown := Shown(spec.rail);
    if |shown| == 1 {
      OneSection(spec, item, shown[0]);
      assert shown == [shown[0]];
    } else if |shown| == 2 {
      TwoSections(spec, item, shown[0], shown[1]);
      assert shown == [shown[0], shown[1]];
      Behind(Section(spec, item, shown[0]), shown[1].0, TextOf(spec, item, shown[1].1));
    } else {
      assert shown == [shown[0], shown[1], shown[2]];
      ThreeSections(spec, item, shown[0], shown[1], shown[2]);
      var second := TextOf(spec, item, shown[1].1);
      Behind(Section(spec, item, shown[0]), shown[1].0, if second == "" then "(none)" else second);
      Behind(Section(spec, item, shown[0]) + "\n\n" + Section(spec, item, shown[1]), shown[2].0, TextOf(spec, item, shown[2].1));
    }
  }

  /** Trimming takes away the white space at both ends, and that only. */
  lemma TrimIs(s: string)
    ensures Trim(s) == "" || (!IsSpace(Trim(s)[0]) && !IsSpace(Trim(s)[|Trim(s)| - 1]))
    ensures exists i, j :: 0 <= i <= j <= |s| && Trim(s) == s[i..j]
                           && (forall k :: 0 <= k < i ==> IsSpace(s[k])) && (forall k :: j <= k < |s| ==> IsSpace(s[k]))
  {
    hide IsSpace;
    var i := TrimStartIs(s);
    var j := TrimEndIs(s[i..]);
    assert Trim(s) == s[i..][..j] == s[i..i + j];
    forall k | i + j <= k < |s|
      ensures IsSpace(s[k])
    {
      assert s[k] == s[i..][k - i];
    }
  }

  lemma {:induction false} TrimStartIs(s: string) returns (i: nat)
    ensures i <= |s| && TrimStart(s) == s[i..] && (forall k :: 0 <= k < i ==> IsSpace(s[k]))
    ensures i < |s| ==> !IsSpace(s[i])
  {
    hide IsSpace;
    if s != [] && IsSpace(s[0]) {
      var n := TrimStartIs(s[1..]);
      i := n + 1;
      assert forall k :: 1 <= k < i ==> s[k] == s[1..][k - 1];
    } else {
      i := 0;
    }
  }

  lemma {:induction false} TrimEndIs(s: string) returns (j: nat)
    ensures j <= |s| && TrimEnd(s) == s[..j] && (forall k :: j <= k < |s| ==> IsSpace(s[k]))
    ensures j > 0 ==> !IsSpace(s[j - 1])
  {
    hide IsSpace;
    if s != [] && IsSpace(s[|s| - 1]) {
      j := TrimEndIs(s[..|s| - 1]);
    } else {
      j := |s|;
    }
  }

  function Asked(system: Wording, spec: JudgeSpec, item: DatasetItem): Option<Question> {
    match BuildPrompt(system, spec, item)
    case None => None
    case Some(prompt) => Some(Question(spec.provider, spec.model, prompt))
  }

  // ----- The canonical string -----

  const JUDGE_VERSION := "v1"

  /** The bytes UTF-8 spends on a character, and on a string. */
  function Width(c: char): (w: nat)
    ensures 1 <= w <= 4
  {
    var n := c as int;
    if n < 0x80 then 1 else if n < 0x800 then 2 else if n < 0x1_0000 then 3 else 4
  }

  function ByteLen(s: string): nat {
    if s == [] then 0 else Width(s[0]) + ByteLen(s[1..])
  }

  function Fields(spec: JudgeSpec, item: DatasetItem): seq<string> {
    var context := item.context.UnwrapOr([]);
    [JUDGE_VERSION, spec.provider.DebugName(), spec.rail.Slug(), spec.model, spec.criteria.UnwrapOr(""),
     item.input.UnwrapOr(""), item.output, item.expected.UnwrapOr(""), Decimal(|context|)] + context
  }

  /** A field behind its length in bytes. */
  function Framed(field: string): string { Decimal(ByteLen(field)) + [':'] + field }

  function Encode(fields: seq<string>): string {
    if fields == [] then "" else Framed(fields[0]) + Encode(fields[1..])
  }

  function Canon(spec: JudgeSpec, item: DatasetItem): string { Encode(Fields(spec, item)) }

  lemma {:induction false} EncodeAppends(fields: seq<string>, field: string)
    ensures Encode(fields + [field]) == Encode(fields) + Framed(field)
  {
    hide Framed;
    if fields == [] {
      assert Encode([field]) == Framed(field) + Encode([]);
    } else {
      EncodeAppends(fields[1..], field);
      assert (fields + [field])[1..] == fields[1..] + [field];
    }
  }

  method BuildCanon(spec: JudgeSpec, item: DatasetItem) returns (canon: string)
    ensures canon == Canon(spec, item)
  {
    var fields := Fields(spec, item);
    canon := "";
    for i := 0 to |fields|
      invariant canon == Encode(fields[..i])
    {
      EncodeAppends(fields[..i], fields[i]);
      assert fields[..i + 1] == fields[..i] + [fields[i]];
      canon := canon + Decimal(ByteLen(fields[i]));
      canon := canon + [':'];
      canon := canon + fields[i];
    }
    assert fields[..|fields|] == fields;
  }

  // ----- Reading it back -----

  function Colon(s: string): (at: nat)
    ensures at <= |s|
  {
    if s == [] || s[0] == ':' then 0 else 1 + Colon(s[1..])
  }

  /** How many characters the first `n` bytes of a string are, unless that splits one. */
  function CharsIn(s: string, n: nat): (chars: Option<nat>)
    ensures chars.Some? ==> chars.value <= |s|
  {
    if n == 0 then Some(0)
    else if s == [] || Width(s[0]) > n then None
    else match CharsIn(s[1..], n - Width(s[0]))
      case None => None
      case Some(k) => Some(k + 1)
  }

  function Decode(canon: string): Option<seq<string>>
    decreases |canon|
  {
    if canon == "" then Some([])
    else
      var at := Colon(canon);
      if at == |canon| || at == 0 || !AllDigits(canon[..at]) then None
      else
        var rest := canon[at + 1..];
        match CharsIn(rest, ValueOf(canon[..at]))
        case None => None
        case Some(k) =>
          match Decode(rest[k..])
          case None => None
          case Some(fields) => Some([rest[..k]] + fields)
  }

  lemma {:induction false} ColonAfterDigits(digits: string, rest: string)
    requires AllDigits(digits)
    ensures Colon(digits + [':'] + rest) == |digits|
  {
    var s := digits + [':'] + rest;
    if digits != [] {
      assert s[0] == digits[0] && s[1..] == digits[1..] + [':'] + rest;
      ColonAfterDigits(digits[1..], rest);
    }
  }

  lemma {:induction false} CharsOfField(field: string, rest: string)
    ensures CharsIn(field + rest, ByteLen(field)) == Some(|field|)
  {
    if field == [] {
    } else {
      assert (field + rest)[1..] == field[1..] + rest;
      CharsOfField(field[1..], rest);
    }
  }

  /** Where a framed field is cut. */
  lemma FrameCuts(field: string, rest: string)
    ensures var s := Framed(field) + rest;
            var at := Colon(s);
            && 0 < at < |s| && AllDigits(s[..at]) && ValueOf(s[..at]) == ByteLen(field)
            && s[at + 1..] == field + rest && CharsIn(s[at + 1..], ByteLen(field)) == Some(|field|)
  {
    hide Colon, CharsIn, ByteLen, Decimal, ValueOf;
    var digits := Decimal(ByteLen(field));
    DecimalReads(ByteLen(field));
    ColonAfterDigits(digits, field + rest);
    CharsOfField(field, rest);
    var s := Framed(field) + rest;
    assert s == digits + [':'] + (field + rest);
    assert s[..|digits|] == digits && s[|digits| + 1..] == field + rest;
  }

  lemma DecodeFramed(field: string, rest: string)
    requires Decode(rest).Some?
    ensures Decode(Framed(field) + rest) == Some([field] + Decode(rest).value)
  {
    hide Colon, CharsIn, ByteLen, AllDigits, ValueOf, Framed;
    var s := Framed(field) + rest;
    FrameCuts(field, rest);
    assert (field + rest)[..|field|] == field && (field + rest)[|field|..] == rest;
  }

  /** Reading undoes writing: lengths frame the fields whatever characters they hold. */
  lemma {:induction false} DecodeEncode(fields: seq<string>)
    ensures Decode(Encode(fields)) == Some(fields)
  {
    hide Framed;
    if fields == [] {
      assert Encode(fields) == "";
    } else {
      DecodeEncode(fields[1..]);
      DecodeFramed(fields[0], Encode(fields[1..]));
      assert fields == [fields[0]] + fields[1..];
    }
  }

  /** The canonical string settles every field, and where one context passage ends and the next begins. */
  lemma CanonSettlesTheFields(spec: JudgeSpec, item: DatasetItem, spec': JudgeSpec, item': DatasetItem)
    requires Canon(spec, item) == Canon(spec', item')
    ensures spec.provider == spec'.provider && spec.rail == spec'.rail && spec.model == spec'.model
    ensures spec.criteria.UnwrapOr("") == spec'.criteria.UnwrapOr("")
    ensures item.input.UnwrapOr("") == item'.input.UnwrapOr("") && item.output == item'.output
    ensures item.expected.UnwrapOr("") == item'.expected.UnwrapOr("")
    ensures item.context.UnwrapOr([]) == item'.context.UnwrapOr([])
  {
    hide Decimal, Encode, Decode;
    var f, f' := Fields(spec, item), Fields(spec', item');
    DecodeEncode(f);
    DecodeEncode(f');
    assert f == f';
    assert f[1] == f'[1] && f[2] == f'[2] && f[3] == f'[3] && f[4] == f'[4];
    assert f[5] == f'[5] && f[6] == f'[6] && f[7] == f'[7];
    assert f[9..] == item.context.UnwrapOr([]) && f'[9..] == item'.context.UnwrapOr([]);
    NamesDiffer(spec.provider, spec'.provider, spec.rail, spec'.rail);
  }

  lemma NamesDiffer(provider: Provider, provider': Provider, rail: Rail, rail': Rail)
    ensures provider.DebugName() == provider'.DebugName() ==> provider == provider'
    ensures rail.Slug() == rail'.Slug() ==> rail == rail'
  {
    assert provider.DebugName()[0] == if provider.Anthropic? then 'A' else 'O';
    assert provider'.DebugName()[0] == if provider'.Anthropic? then 'A' else 'O';
    SlugShape(rail);
    SlugShape(rail');
  }

  /** Only two slugs are of one length, and those begin differently. */
  lemma SlugShape(rail: Rail)
    ensures var slug := rail.Slug();
            match rail
            case GEval => |slug| == 6
            case QaCorrectness => |slug| == 14 && slug[0] == 'q'
            case AnswerRelevancy => |slug| == 16
            case Faithfulness => |slug| == 12
            case Hallucination => |slug| == 13
            case ContextPrecision => |slug| == 17
            case ContextRecall => |slug| == 14 && slug[0] == 'c'
            case Toxicity => |slug| == 8
            case Bias => |slug| == 4
  {
  }

  /** One canonical string, one question: a shared cache entry always answers what was asked. */
  lemma SameCanonSameQuestion(system: Wording, spec: JudgeSpec, item: DatasetItem, spec': JudgeSpec, item': DatasetItem)
    requires Canon(spec, item) == Canon(spec', item')
    ensures Asked(system, spec, item) == Asked(system, spec', item')
  {
    hide Trim, Join, Canon;
    CanonSettlesTheFields(spec, item, spec', item');
  }
}
