/**
 * The string logic around the language-model call in ClaudeService: the
 * two user-prompt templates and the choice between them, the system
 * prompt with its optional sections, the JSON span cut out of a reply,
 * the defaults and fallbacks of the parsed responses, the numbered-step
 * extractor and the error envelopes.
 *
 * The model call itself, `JSON.parse` and `JSON.stringify` are foreign:
 * they are parameters (`api`, `parse`, `stringify`). `parse` answers
 * `None` where `JSON.parse` throws.
 */
module Claude {
  import opened Wrappers
  import opened JsText
  import opened JsonValues
  import opened DatabaseTypes

  const DefaultModel := "claude-sonnet-4-20250514"

  datatype QueryRequest = QueryRequest(
    query: string,
    databaseIds: seq<int>,
    schema: Option<seq<SchemaInfo>>,
    context: Option<string>)

  /** A response; the fields copied from a parsed reply keep whatever JSON value the reply held. */
  datatype QueryResponse = QueryResponse(
    explanation: Json,
    sql: Option<Json>,
    results: Option<Json>,
    confidence: Json,
    suggestions: Option<Json>,
    pipelineSteps: Option<Json>,
    connectionHelp: Option<Json>,
    followUpQuestions: Option<Json>)

  datatype PipelineStep = PipelineStep(
    id: string,
    name: string,
    description: string,
    sql: Option<string>,
    dependencies: Option<seq<string>>,
    estimatedTime: Option<string>)

  /** What the messages endpoint is asked: model, token budget, system prompt, the one user message, the key. */
  datatype ApiRequest = ApiRequest(model: string, maxTokens: nat, system: Option<string>, prompt: string, apiKey: string)

  /** The first content block of a reply. */
  datatype Content = TextBlock(text: string) | OtherBlock

  /** A response carrying only an explanation, a confidence and suggestions. */
  function Envelope(explanation: string, confidence: real, suggestions: seq<string>): QueryResponse {
    QueryResponse(JStr(explanation), None, None, JNum(confidence), Some(Strings(suggestions)), None, None, None)
  }

  // ----- user prompt -----

  const ConnectionLead := "Connection question: \""
  const DataLead := "Data query: \""
  const TargetsLabel := "Target databases (IDs): "

  /**
   * The closing paragraphs of the connection template: after a blank line,
   * seven numbered pieces of advice on walking the user through a
   * connection, then a note that `connectionHelp` must be plain text. The
   * model keeps this fixed text unspecified.
   */
  const ConnectionInstructions: string

  /**
   * The closing paragraphs of the data template: after a blank line, six
   * numbered pieces of advice on answering a data question. Kept
   * unspecified, like ConnectionInstructions.
   */
  const DataInstructions: string

  /** The connection template is chosen when the lower-cased query mentions connecting or asks "how do i". */
  predicate IsConnectionQuery(query: string) {
    var q := ToLower(query);
    Contains(q, "connect") || Contains(q, "connection") || Contains(q, "how do i")
  }

  /** Every text containing "connection" contains "connect": the middle test of IsConnectionQuery never decides. */
  lemma ConnectionMentionsConnect(s: string)
    ensures Contains(s, "connection") ==> Contains(s, "connect")
  {
    if Contains(s, "connection") {
      var k := IndexOfFrom(s, "connection", 0).value;
      assert s[k..k + 7] == s[k..k + 10][..7];
      ContainsAt(s, "connect", k);
    }
  }

  /** `databaseIds.join(', ')`. */
  function IdList(ids: seq<int>): string {
    Join(seq(|ids|, i requires 0 <= i < |ids| => IntToString(ids[i])), ", ")
  }

  /**
   * buildUserPrompt: the quoted query under the template's lead line, then
   * the list of target database ids, then the template's instructions.
   */
  function BuildUserPrompt(query: string, databaseIds: seq<int>): (r: string)
    ensures |r| > 0 && r[0] == (if IsConnectionQuery(query) then 'C' else 'D')
    ensures var head := (if IsConnectionQuery(query) then ConnectionLead else DataLead) + query + "\"";
      |head| <= |r| && r[..|head|] == head
    ensures Contains(r, TargetsLabel + IdList(databaseIds))
  {
    var conn := IsConnectionQuery(query);
    var head := (if conn then ConnectionLead else DataLead) + query + "\"";
    var gap := if conn then "\n      \n" else "\n    \n";
    var targets := TargetsLabel + IdList(databaseIds);
    var r := head + (gap + (targets + (if conn then ConnectionInstructions else DataInstructions)));
    Layout(head, gap, targets, if conn then ConnectionInstructions else DataInstructions);
    ContainsAt(r, targets, |head| + |gap|);
    r
  }

  /** Where the parts of a prompt `head + gap + middle + tail` sit. */
  lemma Layout(head: string, gap: string, middle: string, tail: string)
    ensures var r := head + (gap + (middle + tail));
      && |head| <= |r| && r[..|head|] == head
      && OccursAt(r, middle, |head| + |gap|)
  {
    var r := head + (gap + (middle + tail));
    assert r[|head| + |gap|..|head| + |gap| + |middle|] == middle;
  }

  // ----- system prompt -----

  /**
   * The fixed part of the system prompt: the assistant's role, guidance
   * for connection questions and per database type, the tone, and the
   * list of JSON fields to answer with. Kept unspecified, like
   * ConnectionInstructions.
   */
  const SystemPromptBase: string

  function SchemaSection(json: string): string {
    "\n\nAvailable database schema:\n" + json
  }

  function ContextSection(context: string): string {
    "\n\nAdditional context: " + context
  }

  /** `schema && schema.length > 0`. */
  predicate HasSchemaList(schema: Option<seq<SchemaInfo>>) {
    schema.Some? && |schema.value| > 0
  }

  /** A truthy optional string: present and not empty. */
  predicate HasText(s: Option<string>) {
    s.Some? && s.value != ""
  }

  /**
   * buildSystemPrompt: the fixed instructions, then the schema section for
   * a non-empty schema list, then the context section for a non-empty
   * context, each in that place and only then.
   */
  function SystemPrompt(schema: Option<seq<SchemaInfo>>, context: Option<string>, stringify: seq<SchemaInfo> -> string): (r: string)
    ensures |SystemPromptBase| <= |r| && r[..|SystemPromptBase|] == SystemPromptBase
    ensures |r| == |SystemPromptBase|
                  + (if HasSchemaList(schema) then |SchemaSection(stringify(schema.value))| else 0)
                  + (if HasText(context) then |ContextSection(context.value)| else 0)
    ensures HasSchemaList(schema) ==> OccursAt(r, SchemaSection(stringify(schema.value)), |SystemPromptBase|)
    ensures HasText(context) ==> r[|r| - |ContextSection(context.value)|..] == ContextSection(context.value)
  {
    var schemaPart := if HasSchemaList(schema) then SchemaSection(stringify(schema.value)) else "";
    var contextPart := if HasText(context) then ContextSection(context.value) else "";
    Sections(SystemPromptBase, schemaPart, contextPart);
    SystemPromptBase + (schemaPart + contextPart)
  }

  /** Where the parts of `base + middle + tail` sit. */
  lemma Sections(base: string, middle: string, tail: string)
    ensures var r := base + (middle + tail);
      && |r| == |base| + |middle| + |tail|
      && r[..|base|] == base
      && OccursAt(r, middle, |base|)
      && r[|r| - |tail|..] == tail
  {
    var r := base + (middle + tail);
    assert r[|base|..|base| + |middle|] == middle;
    assert r[|r| - |tail|..] == tail;
  }

  /** A system prompt without either section is exactly the fixed instructions. */
  lemma PlainSystemPrompt(schema: Option<seq<SchemaInfo>>, context: Option<string>, stringify: seq<SchemaInfo> -> string)
    requires !HasSchemaList(schema) && !HasText(context)
    ensures SystemPrompt(schema, context, stringify) == SystemPromptBase
  {
    var r := SystemPrompt(schema, context, stringify);
    assert r == r[..|SystemPromptBase|];
  }

  /** buildSystemPrompt as written: the fixed instructions, appended to step by step. */
  method BuildSystemPrompt(schema: Option<seq<SchemaInfo>>, context: Option<string>, stringify: seq<SchemaInfo> -> string)
    returns (prompt: string)
    ensures prompt == SystemPrompt(schema, context, stringify)
  {
    prompt := SystemPromptBase;
    ghost var schemaPart := "";
    if schema.Some? && |schema.value| > 0 {
      schemaPart := SchemaSection(stringify(schema.value));
      prompt := prompt + SchemaSection(stringify(schema.value));
    }
    assert prompt == SystemPromptBase + schemaPart;
    ghost var contextPart := "";
    if context.Some? && context.value != "" {
      contextPart := ContextSection(context.value);
      prompt := prompt + ContextSection(context.value);
    }
    assert prompt == SystemPromptBase + schemaPart + contextPart;
    assert SystemPromptBase + schemaPart + contextPart == SystemPromptBase + (schemaPart + contextPart);
  }

  // ----- the JSON span of a reply -----

  /** `s.indexOf(c)` for a single character. */
  function FirstIndexOfChar(s: string, c: char): (r: Option<nat>)
    ensures r.Some? ==> r.value < |s| && s[r.value] == c
    ensures r.Some? ==> forall k :: 0 <= k < r.value ==> s[k] != c
    ensures r.None? ==> forall k :: 0 <= k < |s| ==> s[k] != c
  {
    if s == [] then None
    else if s[0] == c then Some(0)
    else match FirstIndexOfChar(s[1..], c)
      case None => None
      case Some(i) => Some(i + 1)
  }

  /**
   * The match of `/\{[\s\S]*\}/`: from the first `{` to the last `}`, when
   * some `}` follows some `{`.
   */
  function JsonSpan(text: string): (r: Option<string>)
    ensures r.Some? <==> exists i, j :: 0 <= i < j < |text| && text[i] == '{' && text[j] == '}'
    ensures r.Some? ==> exists i, j :: 0 <= i < j < |text| && text[i] == '{' && text[j] == '}' && r.value == text[i..j + 1]
                          && (forall k :: 0 <= k < i ==> text[k] != '{')
                          && (forall k :: j < k < |text| ==> text[k] != '}')
    ensures r.Some? ==> |r.value| >= 2 && r.value[0] == '{' && r.value[|r.value| - 1] == '}'
  {
    match FirstIndexOfChar(text, '{')
    case None => None
    case Some(i) =>
      match LastIndexOfChar(text, '}')
      case None => None
      case Some(j) => if i < j then Some(text[i..j + 1]) else None
  }

  /** `parsed[name]`; reading a member of a non-object yields `undefined`. */
  function Field(j: Json, name: string): Option<Json> {
    if j.JObj? then Member(j.members, name) else None
  }

  /** `parsed[name]` is present and truthy, so `parsed[name] || d` is `parsed[name]`. */
  predicate Given(p: Json, name: string) {
    Field(p, name).Some? && Truthy(Field(p, name).value)
  }

  /**
   * The parsed JSON span of a reply, or `None` when there is no span, the
   * parse throws, or the value is `null` (whose member access throws).
   */
  function ParsedReply(text: string, parse: string -> Option<Json>): Option<Json> {
    match JsonSpan(text)
    case None => None
    case Some(span) =>
      match parse(span)
      case None => None
      case Some(p) => if p.JNull? then None else Some(p)
  }

  const FormatHint := "Response format may not be optimal - please rephrase your query"

  /**
   * parseClaudeResponse. A parsed reply supplies the fields, with the whole
   * text for a falsy explanation, 75 for a falsy confidence and empty lists
   * for missing suggestions and follow-up questions; otherwise the reply
   * text itself is the explanation, at confidence 60, with one suggestion.
   */
  function ParseClaudeResponse(text: string, parse: string -> Option<Json>): (r: QueryResponse)
    ensures Truthy(r.confidence) && r.suggestions.Some?
    ensures text != "" ==> Truthy(r.explanation)
    ensures ParsedReply(text, parse).None? ==> r == Envelope(text, 60.0, [FormatHint])
    ensures ParsedReply(text, parse).Some? ==>
      var p := ParsedReply(text, parse).value;
      && r.explanation == (if Given(p, "explanation") then Field(p, "explanation").value else JStr(text))
      && r.confidence == (if Given(p, "confidence") then Field(p, "confidence").value else JNum(75.0))
      && r.suggestions == Some(if Given(p, "suggestions") then Field(p, "suggestions").value else JArr([]))
      && r.followUpQuestions == Some(if Given(p, "followUpQuestions") then Field(p, "followUpQuestions").value else JArr([]))
      && r.sql == Field(p, "sql") && r.results == Field(p, "results")
      && r.connectionHelp == Field(p, "connectionHelp") && r.pipelineSteps.None?
  {
    match ParsedReply(text, parse)
    case None => Envelope(text, 60.0, [FormatHint])
    case Some(p) =>
      QueryResponse(
        OrElse(Field(p, "explanation"), JStr(text)),
        Field(p, "sql"),
        Field(p, "results"),
        OrElse(Field(p, "confidence"), JNum(75.0)),
        Some(OrElse(Field(p, "suggestions"), JArr([]))),
        None,
        Field(p, "connectionHelp"),
        Some(OrElse(Field(p, "followUpQuestions"), JArr([]))))
  }

  // ----- numbered steps -----

  /** The first index at or after `from` whose character fails `p`, or the end. */
  function DigitRunEnd(s: string, from: nat): (e: nat)
    requires from <= |s|
    ensures from <= e <= |s| && (e < |s| ==> !IsDecimalDigit(s[e]))
    ensures forall k :: from <= k < e ==> IsDecimalDigit(s[k])
    decreases |s| - from
  {
    if from == |s| || !IsDecimalDigit(s[from]) then from else DigitRunEnd(s, from + 1)
  }

  /** The end of the run of `\s` characters starting at `from`. */
  function SpaceRunEnd(s: string, from: nat): (e: nat)
    requires from <= |s|
    ensures from <= e <= |s| && (e < |s| ==> !IsJsSpace(s[e]))
    ensures forall k :: from <= k < e ==> IsJsSpace(s[k])
    decreases |s| - from
  {
    if from == |s| || !IsJsSpace(s[from]) then from else SpaceRunEnd(s, from + 1)
  }

  /** The first `\n` at or after `from`, or the end: where `[^\n]+` stops. */
  function NewlineAt(s: string, from: nat): (e: nat)
    requires from <= |s|
    ensures from <= e <= |s| && (e < |s| ==> s[e] == '\n')
    ensures forall k :: from <= k < e ==> s[k] != '\n'
    decreases |s| - from
  {
    if from == |s| || s[from] == '\n' then from else NewlineAt(s, from + 1)
  }

  /** The last index in `[lo, hi)` whose character is not `\n`. */
  function LastNonNewline(s: string, lo: nat, hi: nat): (r: Option<nat>)
    requires lo <= hi <= |s|
    ensures r.Some? ==> lo <= r.value < hi && s[r.value] != '\n'
    ensures r.Some? ==> forall k :: r.value < k < hi ==> s[k] == '\n'
    ensures r.None? ==> forall k :: lo <= k < hi ==> s[k] == '\n'
    decreases hi - lo
  {
    if lo == hi then None
    else if s[hi - 1] != '\n' then Some(hi - 1)
    else LastNonNewline(s, lo, hi - 1)
  }

  /** A match of the step pattern: where it ends and its second group. */
  datatype StepMatch = StepMatch(end: nat, group: string)

  /**
   * A match of `(\d+\.\s*)([^\n]+)` starting exactly at `p`. The digit run
   * must end in a dot; the greedy `\s*` gives back characters only when the
   * white space reaches the end of the text, and then the second group is
   * the last character of that run that is not `\n`.
   */
  function MatchAt(s: string, p: nat): (r: Option<StepMatch>)
    requires p <= |s|
    ensures r.Some? ==> p < r.value.end <= |s| && |r.value.group| > 0
    ensures r.Some? ==> IsDecimalDigit(s[p])
  {
    if p < |s| && IsDecimalDigit(s[p]) then
      var q := DigitRunEnd(s, p);
      if q < |s| && s[q] == '.' then
        var w := SpaceRunEnd(s, q + 1);
        if w < |s| then
          Some(StepMatch(NewlineAt(s, w), s[w..NewlineAt(s, w)]))
        else
          match LastNonNewline(s, q + 1, w)
          case None => None
          case Some(t) => Some(StepMatch(NewlineAt(s, t), s[t..NewlineAt(s, t)]))
      else None
    else None
  }

  /** `stepPattern.exec(text)` with `lastIndex == from`: the leftmost match at or after `from`. */
  function NextMatch(s: string, from: nat): (r: Option<StepMatch>)
    requires from <= |s|
    ensures r.Some? ==> from < r.value.end <= |s|
    decreases |s| - from
  {
    if from == |s| then None
    else match MatchAt(s, from)
      case Some(m) => Some(m)
      case None => NextMatch(s, from + 1)
  }

  const StepDuration := "5-15 minutes"

  /** The second groups of the matches the global regular expression finds from `from` on, in text order. */
  function Groups(s: string, from: nat): seq<string>
    requires from <= |s|
    decreases |s| - from
  {
    match NextMatch(s, from)
    case None => []
    case Some(m) => [m.group] + Groups(s, m.end)
  }

  /** The `k`-th extracted step, with its already trimmed description. */
  function MakeStep(k: int, description: string): PipelineStep {
    PipelineStep("step-" + IntToString(k), "Step " + IntToString(k), description, None, None, Some(StepDuration))
  }

  /** `groups.map(g => g.trim())`. */
  function TrimAll(groups: seq<string>): (r: seq<string>)
    ensures |r| == |groups|
  {
    if groups == [] then [] else TrimAll(groups[..|groups| - 1]) + [Trim(groups[|groups| - 1])]
  }

  lemma {:induction false} TrimAllAt(groups: seq<string>, i: nat)
    requires i < |groups|
    ensures TrimAll(groups)[i] == Trim(groups[i])
  {
    if i < |groups| - 1 {
      TrimAllAt(groups[..|groups| - 1], i);
    }
  }

  /** The steps made from a list of descriptions, numbered from 1. */
  function Numbered(descriptions: seq<string>): seq<PipelineStep> {
    seq(|descriptions|, i requires 0 <= i < |descriptions| => MakeStep(i + 1, descriptions[i]))
  }

  lemma NumberedSnoc(descriptions: seq<string>, d: string)
    ensures Numbered(descriptions + [d]) == Numbered(descriptions) + [MakeStep(|descriptions| + 1, d)]
  {
    var a := Numbered(descriptions + [d]);
    var b := Numbered(descriptions) + [MakeStep(|descriptions| + 1, d)];
    assert |a| == |b|;
    forall i | 0 <= i < |a|
      ensures a[i] == b[i]
    {
      if i < |descriptions| {
        assert (descriptions + [d])[i] == descriptions[i];
      }
    }
  }

  /** The steps of extractPipelineSteps: one per match, numbered from 1, with trimmed descriptions. */
  function ExtractedSteps(text: string): seq<PipelineStep> {
    Numbered(TrimAll(Groups(text, 0)))
  }

  lemma GroupsStep(text: string, pos: nat)
    requires pos <= |text| && NextMatch(text, pos).Some?
    ensures Groups(text, pos) == [NextMatch(text, pos).value.group] + Groups(text, NextMatch(text, pos).value.end)
  {
  }

  lemma ExtendSteps(seen: seq<string>, g: string)
    ensures Numbered(TrimAll(seen + [g])) == Numbered(TrimAll(seen)) + [MakeStep(|seen| + 1, Trim(g))]
  {
    assert (seen + [g])[..|seen|] == seen;
    assert TrimAll(seen + [g]) == TrimAll(seen) + [Trim(g)];
    NumberedSnoc(TrimAll(seen), Trim(g));
  }

  /** extractPipelineSteps: a step for each match, numbered by a counter. */
  method ExtractPipelineSteps(text: string) returns (steps: seq<PipelineStep>)
    ensures steps == ExtractedSteps(text)
  {
    steps := [];
    var pos := 0;
    var stepIndex := 1;
    ghost var all := Groups(text, 0);
    ghost var seen: seq<string> := [];
    var m := NextMatch(text, pos);
    while m.Some?
      invariant pos <= |text| && m == NextMatch(text, pos)
      invariant seen + Groups(text, pos) == all
      invariant stepIndex == |seen| + 1 && steps == Numbered(TrimAll(seen))
      decreases |text| - pos
    {
      var g := m.value.group;
      var description := Trim(g);
      GroupsStep(text, pos);
      ExtendSteps(seen, g);
      SnocShift(seen, g, Groups(text, m.value.end));
      steps := steps + [MakeStep(stepIndex, description)];
      seen := seen + [g];
      pos := m.value.end;
      stepIndex := stepIndex + 1;
      m := NextMatch(text, pos);
    }
    assert Groups(text, pos) == [];
    assert seen == seen + Groups(text, pos);
  }

  lemma SnocShift<T>(xs: seq<T>, x: T, rest: seq<T>)
    ensures xs + ([x] + rest) == (xs + [x]) + rest
  {
  }

  /**
   * Steps are numbered consecutively from 1 (`step-n`, `Step n`), carry a
   * trimmed description and the fixed duration estimate.
   */
  lemma StepsNumbered(text: string, i: nat)
    requires i < |ExtractedSteps(text)|
    ensures var step := ExtractedSteps(text)[i];
      && step.id == "step-" + IntToString(i + 1)
      && step.name == "Step " + IntToString(i + 1)
      && step.estimatedTime == Some(StepDuration)
      && step.description == Trim(Groups(text, 0)[i])
      && (step.description == [] || (!IsJsSpace(step.description[0])
                                     && !IsJsSpace(step.description[|step.description| - 1])))
  {
    NumberedTrimmedAt(Groups(text, 0), i);
  }

  /** The `i`-th step made from some captured groups: the step `i + 1` with the trimmed group. */
  lemma NumberedTrimmedAt(groups: seq<string>, i: nat)
    requires i < |groups|
    ensures Numbered(TrimAll(groups))[i] == MakeStep(i + 1, Trim(groups[i]))
  {
    TrimAllAt(groups, i);
    NumberedAt(TrimAll(groups), i);
  }

  lemma NumberedAt(descriptions: seq<string>, i: nat)
    requires i < |descriptions|
    ensures Numbered(descriptions)[i] == MakeStep(i + 1, descriptions[i])
  {
  }

  /** Extracted steps have pairwise different ids. */
  lemma StepIdsDistinct(text: string, i: nat, j: nat)
    requires i < j < |ExtractedSteps(text)|
    ensures ExtractedSteps(text)[i].id != ExtractedSteps(text)[j].id
  {
    var steps := ExtractedSteps(text);
    StepsNumbered(text, i);
    StepsNumbered(text, j);
    if steps[i].id == steps[j].id {
      assert IntToString(i + 1) == steps[i].id[5..];
      assert IntToString(j + 1) == steps[j].id[5..];
      IntToStringInjective(i + 1, j + 1);
    }
  }

  const TwoLines := "1. a\n2. b"

  lemma FirstLine()
    ensures NextMatch(TwoLines, 0) == Some(StepMatch(4, "a"))
  {
    assert DigitRunEnd(TwoLines, 0) == 1;
    assert SpaceRunEnd(TwoLines, 2) == 3;
    assert NewlineAt(TwoLines, 3) == 4;
    assert TwoLines[3..4] == "a";
    assert MatchAt(TwoLines, 0) == Some(StepMatch(4, "a"));
  }

  lemma SecondLine()
    ensures NextMatch(TwoLines, 4) == Some(StepMatch(9, "b"))
  {
    assert MatchAt(TwoLines, 4).None?;
    assert DigitRunEnd(TwoLines, 5) == 6;
    assert SpaceRunEnd(TwoLines, 7) == 8;
    assert NewlineAt(TwoLines, 8) == 9;
    assert TwoLines[8..9] == "b";
    assert MatchAt(TwoLines, 5) == Some(StepMatch(9, "b"));
    assert NextMatch(TwoLines, 5) == Some(StepMatch(9, "b"));
  }

  /** Two numbered lines give two steps, the number, dot and space left out of each description. */
  lemma TwoNumberedLines()
    ensures Groups(TwoLines, 0) == ["a", "b"]
  {
    FirstLine();
    SecondLine();
    assert Groups(TwoLines, 9) == [];
  }

  /** A text without a decimal digit yields no steps. */
  lemma {:induction false} NoDigitNoGroups(s: string, from: nat)
    requires from <= |s|
    requires forall i :: 0 <= i < |s| ==> !IsDecimalDigit(s[i])
    ensures Groups(s, from) == []
    decreases |s| - from
  {
    if from < |s| {
      assert MatchAt(s, from).None?;
      NoDigitNoGroups(s, from + 1);
      assert NextMatch(s, from) == NextMatch(s, from + 1);
    }
  }

  function StepJson(step: PipelineStep): Json {
    JObj([("id", JStr(step.id)), ("name", JStr(step.name)), ("description", JStr(step.description)),
          ("estimatedTime", JStr(StepDuration))])
  }

  function StepsJson(steps: seq<PipelineStep>): Json {
    JArr(seq(|steps|, i requires 0 <= i < |steps| => StepJson(steps[i])))
  }

  const EtlHint := "ETL pipeline generated - review steps carefully before execution"

  /**
   * parseETLResponse: a parsed reply supplies explanation, confidence
   * (80 when falsy), suggestions and steps, the steps extracted from the
   * text standing in for missing ones; otherwise the text, confidence 70,
   * the extracted steps and one suggestion.
   */
  function ParseEtlResponse(text: string, parse: string -> Option<Json>): (r: QueryResponse)
    ensures Truthy(r.confidence) && r.suggestions.Some? && r.pipelineSteps.Some?
    ensures ParsedReply(text, parse).None? ==>
      r == Envelope(text, 70.0, [EtlHint]).(pipelineSteps := Some(StepsJson(ExtractedSteps(text))))
    ensures ParsedReply(text, parse).Some? ==>
      var p := ParsedReply(text, parse).value;
      && r.explanation == (if Given(p, "explanation") then Field(p, "explanation").value else JStr(text))
      && r.confidence == (if Given(p, "confidence") then Field(p, "confidence").value else JNum(80.0))
      && r.suggestions == Some(if Given(p, "suggestions") then Field(p, "suggestions").value else JArr([]))
      && r.pipelineSteps == Some(if Given(p, "pipelineSteps") then Field(p, "pipelineSteps").value
                                 else StepsJson(ExtractedSteps(text)))
      && r.sql.None? && r.results.None? && r.connectionHelp.None? && r.followUpQuestions.None?
  {
    var extracted := StepsJson(ExtractedSteps(text));
    match ParsedReply(text, parse)
    case None => Envelope(text, 70.0, [EtlHint]).(pipelineSteps := Some(extracted))
    case Some(p) =>
      QueryResponse(
        OrElse(Field(p, "explanation"), JStr(text)),
        None, None,
        OrElse(Field(p, "confidence"), JNum(80.0)),
        Some(OrElse(Field(p, "suggestions"), JArr([]))),
        Some(OrElse(Field(p, "pipelineSteps"), extracted)),
        None, None)
  }

  // ----- calls to the model -----

  /** getAnthropicClient: the given key, else the environment's, else an error. */
  function AnthropicKey(apiKey: Option<string>, envKey: Option<string>): (r: Result<string>)
    ensures r.Ok? <==> HasText(apiKey) || HasText(envKey)
    ensures r.Ok? ==> r.value == if HasText(apiKey) then apiKey.value else envKey.value
    ensures r.Err? ==> r.message == "No Anthropic API key provided"
  {
    if HasText(apiKey) then Ok(apiKey.value)
    else if HasText(envKey) then Ok(envKey.value)
    else Err("No Anthropic API key provided")
  }

  /**
   * One call to the messages endpoint: the text of the first content block,
   * or the message of the error thrown on the way (no key, a failed call,
   * a block that is not text).
   */
  function CallModel(apiKey: Option<string>, envKey: Option<string>, api: ApiRequest -> Result<Content>,
                     maxTokens: nat, system: Option<string>, prompt: string): (r: Result<string>)
    ensures AnthropicKey(apiKey, envKey).Err? ==> r == Err("No Anthropic API key provided")
    ensures AnthropicKey(apiKey, envKey).Ok? ==>
      var reply := api(ApiRequest(DefaultModel, maxTokens, system, prompt, AnthropicKey(apiKey, envKey).value));
      && (reply.Err? ==> r == Err(reply.message))
      && (reply.Ok? && reply.value.OtherBlock? ==> r == Err("Unexpected response type from Claude"))
      && (reply.Ok? && reply.value.TextBlock? ==> r == Ok(reply.value.text))
  {
    match AnthropicKey(apiKey, envKey)
    case Err(m) => Err(m)
    case Ok(key) =>
      match api(ApiRequest(DefaultModel, maxTokens, system, prompt, key))
      case Err(m) => Err(m)
      case Ok(OtherBlock) => Err("Unexpected response type from Claude")
      case Ok(TextBlock(t)) => Ok(t)
  }

  const NlqSuggestions := ["Please check your query and try again", "Verify database connections are active"]

  /**
   * processNaturalLanguageQuery: the parsed reply to the system and user
   * prompts, or, when the call fails, an envelope at confidence 0 carrying
   * the error message and two fixed suggestions. A falsy confidence marks
   * exactly the failed calls.
   */
  function ProcessNaturalLanguageQuery(request: QueryRequest, apiKey: Option<string>, envKey: Option<string>,
                                       api: ApiRequest -> Result<Content>, parse: string -> Option<Json>,
                                       stringify: seq<SchemaInfo> -> string): (r: QueryResponse)
    ensures var call := CallModel(apiKey, envKey, api, 4000,
                                  Some(SystemPrompt(request.schema, request.context, stringify)),
                                  BuildUserPrompt(request.query, request.databaseIds));
      && (call.Err? ==> r == Envelope("I encountered an error processing your request: " + call.message, 0.0, NlqSuggestions))
      && (call.Ok? ==> r == ParseClaudeResponse(call.value, parse))
      && (!Truthy(r.confidence) <==> call.Err?)
  {
    var system := SystemPrompt(request.schema, request.context, stringify);
    var user := BuildUserPrompt(request.query, request.databaseIds);
    match CallModel(apiKey, envKey, api, 4000, Some(system), user)
    case Err(m) => Envelope("I encountered an error processing your request: " + m, 0.0, NlqSuggestions)
    case Ok(text) => ParseClaudeResponse(text, parse)
  }

  const EtlSystemLead :=
    "You are an expert ETL/ELT pipeline architect. Create comprehensive data pipeline specifications with:\n" +
    "1. Step-by-step transformation logic\n" +
    "2. Data quality checks\n" +
    "3. Error handling strategies\n" +
    "4. Performance optimization\n" +
    "5. Monitoring and alerting\n" +
    "\n" +
    "Available schema information: "

  const EtlUserTail :=
    "\n" +
    "\n" +
    "Please provide:\n" +
    "1. Detailed explanation of the pipeline strategy\n" +
    "2. SQL statements for each transformation step\n" +
    "3. Data validation checks\n" +
    "4. Estimated timeline and dependencies"

  /** The ETL system prompt: any schema list, even an empty one, is rendered; none is "None provided". */
  function EtlSystemPrompt(schema: Option<seq<SchemaInfo>>, stringify: seq<SchemaInfo> -> string): string {
    EtlSystemLead + (if schema.Some? then stringify(schema.value) else "None provided")
  }

  function EtlUserPrompt(source: string, target: string, requirements: string): string {
    "Create an ETL pipeline from " + source + " to " + target + " with these requirements:\n" + requirements + EtlUserTail
  }

  /**
   * generateETLPipeline: the parsed ETL reply, or, when the call fails, an
   * envelope at confidence 0 with the error message and one suggestion.
   */
  function GenerateEtlPipeline(source: string, target: string, requirements: string, schema: Option<seq<SchemaInfo>>,
                               apiKey: Option<string>, envKey: Option<string>, api: ApiRequest -> Result<Content>,
                               parse: string -> Option<Json>, stringify: seq<SchemaInfo> -> string): (r: QueryResponse)
    ensures var call := CallModel(apiKey, envKey, api, 6000, Some(EtlSystemPrompt(schema, stringify)),
                                  EtlUserPrompt(source, target, requirements));
      && (call.Err? ==> r == Envelope("Error generating ETL pipeline: " + call.message, 0.0,
                                      ["Please verify your requirements and try again"]))
      && (call.Ok? ==> r == ParseEtlResponse(call.value, parse))
      && (!Truthy(r.confidence) <==> call.Err?)
  {
    match CallModel(apiKey, envKey, api, 6000, Some(EtlSystemPrompt(schema, stringify)),
                    EtlUserPrompt(source, target, requirements))
    case Err(m) => Envelope("Error generating ETL pipeline: " + m, 0.0, ["Please verify your requirements and try again"])
    case Ok(text) => ParseEtlResponse(text, parse)
  }

  /** The validation prompt; here too any schema list, even an empty one, adds the schema line. */
  function ValidationPrompt(sql: string, schema: Option<seq<SchemaInfo>>, stringify: seq<SchemaInfo> -> string): string {
    "Validate this SQL query for syntax, logic, and best practices:\n\n" + sql + "\n\n"
    + (if schema.Some? then "Schema context: " + stringify(schema.value) else "")
    + "\n\nRespond with JSON containing: isValid (boolean), errors (array), suggestions (array)"
  }

  const ValidationFallback := JObj([("isValid", JBool(true)), ("errors", JArr([])),
                                    ("suggestions", Strings(["Unable to validate query - proceed with caution"]))])

  /**
   * What validateQuery makes of the model's reply: whatever the reply's
   * JSON span parses to, or, when there is no text reply, no span or no
   * parse, a verdict of valid with no errors and one cautionary suggestion.
   */
  function ValidationVerdict(reply: Result<string>, parse: string -> Option<Json>): (r: Json)
    ensures reply.Err? ==> r == ValidationFallback
    ensures reply.Ok? && JsonSpan(reply.value).None? ==> r == ValidationFallback
    ensures reply.Ok? && JsonSpan(reply.value).Some? ==>
      r == parse(JsonSpan(reply.value).value).GetOr(ValidationFallback)
  {
    match reply
    case Err(_) => ValidationFallback
    case Ok(text) =>
      match JsonSpan(text)
      case None => ValidationFallback
      case Some(span) =>
        match parse(span)
        case None => ValidationFallback
        case Some(v) => v
  }

  /** validateQuery: one call without a system prompt, judged by ValidationVerdict. */
  function ValidateQuery(sql: string, schema: Option<seq<SchemaInfo>>, apiKey: Option<string>, envKey: Option<string>,
                         api: ApiRequest -> Result<Content>, parse: string -> Option<Json>,
                         stringify: seq<SchemaInfo> -> string): (r: Json)
    ensures CallModel(apiKey, envKey, api, 2000, None, ValidationPrompt(sql, schema, stringify)).Err? ==> r == ValidationFallback
  {
    ValidationVerdict(CallModel(apiKey, envKey, api, 2000, None, ValidationPrompt(sql, schema, stringify)), parse)
  }

  /**
   * An empty schema list is left out of the chat system prompt but rendered
   * into the ETL system prompt: the two tests differ (`length > 0` against
   * plain truthiness).
   */
  lemma EmptySchemaListTreatedDifferently(context: Option<string>, stringify: seq<SchemaInfo> -> string)
    requires !HasText(context)
    ensures SystemPrompt(Some([]), context, stringify) == SystemPromptBase
    ensures EtlSystemPrompt(Some([]), stringify) == EtlSystemLead + stringify([])
  {
    PlainSystemPrompt(Some([]), context, stringify);
  }
}
