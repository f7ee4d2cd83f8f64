/** Agent definitions: validation and rendering (src/agenthicc/agents/definitions.py). */
module Definitions {

  import opened Wrappers
  import opened Text
  import opened Frontmatter

  datatype Constraints = Constraints(
    denyTools: set<string>, denyCapabilities: set<string>, requireApproval: set<string>, workspacePaths: Option<seq<string>>)

  datatype AgentSpec = AgentSpec(
    name: string, description: string, prompt: string, mode: string, model: string,
    tools: Option<seq<string>>, capabilities: Option<seq<string>>, maxSteps: Option<int>,
    ceiling: string, color: string, hidden: bool, permissions: Option<Constraints>, override: bool,
    effort: string, context: Option<int>, output: Option<string>)

  const MODES := ["primary", "subagent", "all"]
  const CEILINGS := ["Safe", "Plan", "Yolo"]
  const CAPABILITIES := ["read", "search", "git_read", "write", "git_write", "execute", "network", "control"]
  const EFFORTS := ["none", "minimal", "low", "medium", "high", "xhigh"]
  const FIELDS := ["name", "description", "mode", "model", "effort", "context", "output", "tools", "capabilities",
    "max_steps", "ceiling", "color", "hidden", "override", "permissions"]
  const PERMISSION_FIELDS := ["deny_tools", "deny_capabilities", "require_approval", "workspace_paths"]
  const MAX_CONTEXT := 10_000_000

  type Parsed<T> = Result<T, DefinitionError>

  // ---------- patterns ----------

  predicate IsLower(c: char) { 'a' <= c <= 'z' }

  predicate IsLetter(c: char) { IsLower(c) || 'A' <= c <= 'Z' }

  predicate IsName(s: string) {
    && 1 <= |s| <= 64 && (IsLower(s[0]) || IsDigit(s[0]))
    && forall i | 0 <= i < |s| :: IsLower(s[i]) || IsDigit(s[i]) || s[i] == '_' || s[i] == '-'
  }

  predicate IsColor(s: string) {
    1 <= |s| <= 32 && forall i | 0 <= i < |s| :: IsLower(s[i]) || s[i] == '_'
  }

  predicate ToolChar(c: char) {
    IsLetter(c) || IsDigit(c) || c == '_' || c == '.' || c == '*' || c == '-'
  }

  predicate ModelChar(c: char) {
    IsLetter(c) || IsDigit(c) || c == '.' || c == '_' || c == ':' || c == '/' || c == '@' || c == '+' || c == '-'
  }

  predicate IsTool(s: string) {
    1 <= |s| <= 128 && forall i | 0 <= i < |s| :: ToolChar(s[i])
  }

  predicate IsModel(s: string) {
    && 1 <= |s| <= 200 && (IsLetter(s[0]) || IsDigit(s[0]))
    && forall i | 0 <= i < |s| :: ModelChar(s[i])
  }

  /** `str.casefold`, as far as the names compared here can tell: besides the capitals, two other characters fold to
      one ASCII letter. */
  function FoldChar(c: char): char {
    if 'A' <= c <= 'Z' then c - 'A' + 'a' else if c == '\U{17f}' then 's' else if c == '\U{212a}' then 'k' else c
  }

  function CaseFold(s: string): string {
    seq(|s|, i requires 0 <= i < |s| => FoldChar(s[i]))
  }

  /** Decimal digits, as `str(int)` writes them. */
  function Digits(n: nat): string {
    if n < 10 then [('0' as int + n) as char] else Digits(n / 10) + Digits(n % 10)
  }

  function Decimal(n: int): string {
    if n < 0 then "-" + Digits(-n) else Digits(n)
  }

  // ---------- reading ----------

  function Get(values: map<string, FrontValue>, key: string): Option<FrontValue> {
    if key in values then Some(values[key]) else None
  }

  /** `_text` */
  function ReadText(value: Option<FrontValue>, limit: nat): Parsed<string> {
    match value
    case None => Success("")
    case Some(Many(items)) => if items == [] then Success("") else Failure(DefinitionError)
    case Some(One(Str(text))) => if |Strip(text)| <= limit then Success(Strip(text)) else Failure(DefinitionError)
    case Some(One(Int(n))) => if |Decimal(n)| <= limit then Success(Decimal(n)) else Failure(DefinitionError)
    case Some(_) => Failure(DefinitionError)
  }

  function Stripped(items: seq<Scalar>): seq<string>
    requires forall i | 0 <= i < |items| :: items[i].Str?
  {
    seq(|items|, i requires 0 <= i < |items| => Strip(items[i].text))
  }

  /** A list whose entries are all text, stripped. */
  function ReadNames(value: FrontValue): Parsed<seq<string>> {
    if value.Many? && forall i | 0 <= i < |value.items| :: value.items[i].Str? then Success(Stripped(value.items))
    else Failure(DefinitionError)
  }

  /** `_names`, with the check of every entry. */
  function ReadEntries(value: Option<FrontValue>, ok: string -> bool): Parsed<Option<seq<string>>> {
    if value.None? then Success(None)
    else
      var names :- ReadNames(value.value);
      if forall n | n in names :: ok(n) then Success(Some(names)) else Failure(DefinitionError)
  }

  function ReadNumber(value: Option<FrontValue>, limit: int): Parsed<Option<int>> {
    match value
    case None => Success(None)
    case Some(One(Int(n))) => if 1 <= n <= limit then Success(Some(n)) else Failure(DefinitionError)
    case Some(_) => Failure(DefinitionError)
  }

  function ReadFlag(value: Option<FrontValue>): Parsed<bool> {
    match value
    case None => Success(false)
    case Some(One(Bool(b))) => Success(b)
    case Some(_) => Failure(DefinitionError)
  }

  /** `permission_names` */
  function ReadPermission(fields: map<string, FrontValue>, key: string, ok: string -> bool): Parsed<set<string>> {
    var names :- if key in fields then ReadNames(fields[key]) else Success([]);
    if forall n | n in names :: n != "" && ok(n) then Success(set n | n in names) else Failure(DefinitionError)
  }

  predicate IsCapability(s: string) {
    s in CAPABILITIES
  }

  predicate IsPath(s: string) {
    s != "" && '\0' !in s
  }

  function ReadPermissions(value: Option<FrontValue>): Parsed<Option<Constraints>> {
    match value
    case None => Success(None)
    case Some(Nested(fields)) =>
      if exists key | key in fields :: key !in PERMISSION_FIELDS then Failure(DefinitionError)
      else
        var denyTools :- ReadPermission(fields, "deny_tools", IsTool);
        var denyCapabilities :- ReadPermission(fields, "deny_capabilities", IsCapability);
        var requireApproval :- ReadPermission(fields, "require_approval", IsCapability);
        var paths :- ReadEntries(Get(fields, "workspace_paths"), IsPath);
        Success(Some(Constraints(denyTools, denyCapabilities, requireApproval, paths)))
    case Some(_) => Failure(DefinitionError)
  }

  /** `not values.get(key)` */
  predicate Falsy(value: Option<FrontValue>) {
    value.None? || value == Some(One(Str(""))) || value == Some(One(Int(0))) || value == Some(One(Bool(false)))
    || value == Some(Many([])) || value == Some(Nested(map[]))
  }

  function CanonicalCeiling(s: string): string {
    if CaseFold(s) == "safe" then "Safe"
    else if CaseFold(s) == "plan" then "Plan"
    else if CaseFold(s) == "yolo" then "Yolo"
    else ""
  }

  function Checked(ok: bool): Parsed<()> {
    if ok then Success(()) else Failure(DefinitionError)
  }

  datatype Identity = Identity(name: string, description: string, mode: string, model: string, effort: string)

  function ReadIdentity(values: map<string, FrontValue>): Parsed<Identity> {
    var _ :- Checked(!Falsy(Get(values, "name")) && !Falsy(Get(values, "description")));
    var name :- ReadText(Get(values, "name"), 64);
    var _ :- Checked(IsName(name));
    var description :- ReadText(Get(values, "description"), 500);
    var givenMode :- ReadText(Get(values, "mode"), 16);
    var mode := if givenMode == "" then "all" else givenMode;
    var _ :- Checked(mode in MODES);
    var model :- ReadText(Get(values, "model"), 200);
    var _ :- Checked(model == "" || CaseFold(model) == "inherit" || IsModel(model));
    var givenEffort :- ReadText(Get(values, "effort"), 16);
    var effort := CaseFold(givenEffort);
    var _ :- Checked(effort == "" || effort in EFFORTS);
    Success(Identity(name, description, mode, model, effort))
  }

  datatype Reach = Reach(
    context: Option<int>, tools: Option<seq<string>>, capabilities: Option<seq<string>>, maxSteps: Option<int>)

  function ReadReach(values: map<string, FrontValue>): Parsed<Reach> {
    var context :- ReadNumber(Get(values, "context"), MAX_CONTEXT);
    var tools :- ReadEntries(Get(values, "tools"), IsTool);
    var capabilities :- ReadEntries(Get(values, "capabilities"), IsCapability);
    var maxSteps :- ReadNumber(Get(values, "max_steps"), 1000);
    Success(Reach(context, tools, capabilities, maxSteps))
  }

  datatype Look = Look(ceiling: string, color: string, hidden: bool, override: bool, output: Option<string>)

  function ReadLook(values: map<string, FrontValue>): Parsed<Look> {
    var givenCeiling :- ReadText(Get(values, "ceiling"), 16);
    var ceiling := CanonicalCeiling(givenCeiling);
    var _ :- Checked(givenCeiling == "" || ceiling != "");
    var color :- ReadText(Get(values, "color"), 32);
    var _ :- Checked(color == "" || IsColor(color));
    var hidden :- ReadFlag(Get(values, "hidden"));
    var override :- ReadFlag(Get(values, "override"));
    var output :- ReadOutput(Get(values, "output"));
    Success(Look(ceiling, color, hidden, override, output))
  }

  /** The validation of `parse_definition`: every check, in groups. */
  function Assemble(values: map<string, FrontValue>, body: string): Parsed<AgentSpec> {
    var _ :- Checked(forall key | key in values :: key in FIELDS);
    var id :- ReadIdentity(values);
    var reach :- ReadReach(values);
    var look :- ReadLook(values);
    var permissions :- ReadPermissions(Get(values, PERMISSIONS));
    var _ :- Checked(permissions.None? || id.mode != "primary");
    Success(AgentSpec(id.name, id.description, body, id.mode, id.model, reach.tools, reach.capabilities, reach.maxSteps,
      look.ceiling, look.color, look.hidden, permissions, look.override, id.effort, reach.context, look.output))
  }

  /** A JSON Schema object, as the schema reader normalized it; anything else is refused. */
  function ReadOutput(value: Option<FrontValue>): Parsed<Option<string>> {
    match value
    case None => Success(None)
    case Some(Schema(json)) => Success(Some(json))
    case Some(_) => Failure(DefinitionError)
  }

  /** `parse_definition` */
  function Parse(text: string, readSchema: SchemaReader): Parsed<AgentSpec> {
    var parts :- Split(text);
    var st :- ReadFront(parts.front, readSchema);
    Assemble(st.values, parts.body)
  }

  /** `parse_definition`, with the loops of its readers. */
  method ParseDefinition(text: string, readSchema: SchemaReader) returns (r: Parsed<AgentSpec>)
    ensures r == Parse(text, readSchema)
  {
    hide Assemble, ReadFront, Split;
    var parts := Split(text);
    if parts.Failure? { return Failure(parts.error); }
    var st := ParseFront(parts.value.front, readSchema);
    if st.Failure? { return Failure(st.error); }
    return Assemble(st.value.values, parts.value.body);
  }

  /** What every parsed definition satisfies. */
  predicate ValidConstraints(c: Constraints) {
    && (forall t | t in c.denyTools :: IsTool(t))
    && (forall n | n in c.denyCapabilities :: IsCapability(n))
    && (forall n | n in c.requireApproval :: IsCapability(n))
    && (c.workspacePaths.Some? ==> forall p | p in c.workspacePaths.value :: IsPath(p))
  }

  predicate ValidSpec(s: AgentSpec) {
    && IsName(s.name) && |s.description| <= 500
    && s.mode in MODES && (s.model == "" || CaseFold(s.model) == "inherit" || IsModel(s.model)) && |s.model| <= 200
    && (s.effort == "" || s.effort in EFFORTS)
    && (s.context.Some? ==> 1 <= s.context.value <= MAX_CONTEXT)
    && (s.tools.Some? ==> forall t | t in s.tools.value :: IsTool(t))
    && (s.capabilities.Some? ==> forall c | c in s.capabilities.value :: IsCapability(c))
    && (s.maxSteps.Some? ==> 1 <= s.maxSteps.value <= 1000)
    && (s.ceiling == "" || s.ceiling in CEILINGS)
    && (s.color == "" || IsColor(s.color))
    && (s.permissions.Some? ==> s.mode != "primary" && ValidConstraints(s.permissions.value))
  }

  lemma IdentityIsValid(values: map<string, FrontValue>)
    requires ReadIdentity(values).Success?
    ensures var id := ReadIdentity(values).value;
      && IsName(id.name) && |id.description| <= 500
      && id.mode in MODES && (id.model == "" || CaseFold(id.model) == "inherit" || IsModel(id.model)) && |id.model| <= 200
      && (id.effort == "" || id.effort in EFFORTS)
  {
    hide IsName, IsModel, Strip, Decimal, CaseFold, Falsy, Get;
  }

  lemma LookIsValid(values: map<string, FrontValue>)
    requires ReadLook(values).Success?
    ensures var look := ReadLook(values).value;
      (look.ceiling == "" || look.ceiling in CEILINGS) && (look.color == "" || IsColor(look.color))
  {
    hide IsColor, ReadText, CaseFold, Get;
  }

  lemma ReachIsValid(values: map<string, FrontValue>)
    requires ReadReach(values).Success?
    ensures var reach := ReadReach(values).value;
      && (reach.context.Some? ==> 1 <= reach.context.value <= MAX_CONTEXT)
      && (reach.tools.Some? ==> forall t | t in reach.tools.value :: IsTool(t))
      && (reach.capabilities.Some? ==> forall c | c in reach.capabilities.value :: IsCapability(c))
      && (reach.maxSteps.Some? ==> 1 <= reach.maxSteps.value <= 1000)
  {
    hide IsTool, IsCapability, ReadNames, Get;
  }

  lemma PermissionsAreValid(value: Option<FrontValue>)
    requires ReadPermissions(value).Success? && ReadPermissions(value).value.Some?
    ensures ValidConstraints(ReadPermissions(value).value.value)
  {
    hide IsTool, IsCapability, IsPath, ReadNames, Get;
  }

  lemma AssembledIsValid(values: map<string, FrontValue>, body: string)
    requires Assemble(values, body).Success?
    ensures ValidSpec(Assemble(values, body).value)
  {
    hide ReadIdentity, ReadReach, ReadLook, ReadPermissions, IsName, IsTool, IsModel, IsColor, IsCapability, CaseFold, ValidConstraints;
    IdentityIsValid(values);
    ReachIsValid(values);
    LookIsValid(values);
    if ReadPermissions(Get(values, PERMISSIONS)).Success? && ReadPermissions(Get(values, PERMISSIONS)).value.Some? {
      PermissionsAreValid(Get(values, PERMISSIONS));
    }
  }

  /** Everything the parser accepts is a valid definition. */
  lemma ParsedIsValid(text: string, readSchema: SchemaReader)
    requires Parse(text, readSchema).Success?
    ensures ValidSpec(Parse(text, readSchema).value)
  {
    hide Split, ReadFront, Assemble, ValidSpec;
    AssembledIsValid(ReadFront(Split(text).value.front, readSchema).value.values, Split(text).value.body);
  }

  // ---------- rendering ----------

  predicate PlainChar(c: char) {
    IsLetter(c) || IsDigit(c) || c == '_' || c == ' ' || c == ':' || c == '@' || '\'' <= c <= ')' || '+' <= c <= '/'
  }

  /** `plain` in `_quoted` */
  predicate Plain(s: string) {
    && s != "" && Strip(s) == s && (forall i | 0 <= i < |s| :: PlainChar(s[i]))
    && s != "true" && s != "false" && !IsInteger(s) && s[0] != '-' && s[0] != '\''
  }

  function Requote(s: string): string {
    seq(|s|, i requires 0 <= i < |s| => if s[i] == '"' then '\'' else s[i])
  }

  /** `_quoted` */
  function Quoted(s: string): string {
    if Plain(s) then s else "\"" + Requote(s) + "\""
  }

  function Listed(items: seq<string>): string {
    if items == [] then "" else if |items| == 1 then Quoted(items[0]) else Quoted(items[0]) + ", " + Listed(items[1..])
  }

  /** `_list` */
  function ListText(items: seq<string>): string {
    "[" + Listed(items) + "]"
  }

  predicate IsLeast(s: set<string>, x: string) {
    x in s && forall y | y in s && y != x :: Less(x, y)
  }

  lemma LeastExists(s: set<string>) returns (x: string)
    requires s != {}
    ensures IsLeast(s, x)
  {
    hide Less;
    var first :| first in s;
    var rest := s - {first};
    assert forall z | z in s && z != first :: z in rest;
    x := first;
    if rest != {} {
      var y := LeastExists(rest);
      LessTotal(first, y);
      if Less(y, first) {
        x := y;
      } else {
        forall z | z in s && z != first ensures Less(first, z) {
          if z != y { LessTrans(first, y, z); }
        }
      }
    }
  }

  /** `sorted(names)` */
  ghost function Sorted(s: set<string>): (r: seq<string>)
    ensures forall x :: x in r <==> x in s
  {
    if s == {} then []
    else
      assert exists x :: IsLeast(s, x) by { var x := LeastExists(s); }
      var x :| IsLeast(s, x);
      [x] + Sorted(s - {x})
  }

  method SortNames(s: set<string>) returns (r: seq<string>)
    ensures r == Sorted(s)
  {
    hide Sorted, Less;
    r := [];
    var rest := s;
    SortedEmpty();
    while rest != {}
      invariant rest <= s && Sorted(s) == r + Sorted(rest)
      decreases rest
    {
      ghost var least := LeastExists(rest);
      var x :| x in rest && IsLeast(rest, x);
      LeastIsUnique(rest, x);
      assert r + ([x] + Sorted(rest - {x})) == r + [x] + Sorted(rest - {x});
      r, rest := r + [x], rest - {x};
    }
  }

  lemma SortedEmpty()
    ensures Sorted({}) == []
  {
  }

  lemma LeastIsUnique(s: set<string>, x: string)
    requires IsLeast(s, x)
    ensures Sorted(s) == [x] + Sorted(s - {x})
  {
    hide Less;
    forall y | IsLeast(s, y) ensures y == x {
      LessTotal(x, y);
    }
  }

  /** The names of a set are written in their order, each once. */
  lemma {:induction false} SortedAscends(s: set<string>, i: nat, j: nat)
    requires i < j < |Sorted(s)|
    ensures Less(Sorted(s)[i], Sorted(s)[j])
    decreases |s|
  {
    hide Less;
    var x := Sorted(s)[0];
    assert Sorted(s) == [x] + Sorted(s - {x}) && IsLeast(s, x);
    if i == 0 {
      assert Sorted(s)[j] in Sorted(s - {x});
    } else {
      SortedAscends(s - {x}, i - 1, j - 1);
    }
  }

  /** One line that a definition may or may not have. */
  datatype Entry = Entry(key: string, present: bool, text: string)

  function OrElse<T>(o: Option<T>, default: T): T {
    if o.Some? then o.value else default
  }

  /** The lines between the fences, in order, up to the permissions block. */
  function Entries(s: AgentSpec): seq<Entry> {
    [ Entry("name", true, s.name),
      Entry("description", true, Quoted(s.description)),
      Entry("mode", true, s.mode),
      Entry("model", s.model != "", Quoted(s.model)),
      Entry("effort", s.effort != "", s.effort),
      Entry("context", s.context.Some?, Decimal(OrElse(s.context, 1))),
      Entry("output", s.output.Some?, OrElse(s.output, "")),
      Entry("tools", s.tools.Some?, ListText(OrElse(s.tools, []))),
      Entry("capabilities", s.capabilities.Some?, ListText(OrElse(s.capabilities, []))),
      Entry("max_steps", s.maxSteps.Some?, Decimal(OrElse(s.maxSteps, 1))),
      Entry("ceiling", s.ceiling != "", s.ceiling),
      Entry("color", s.color != "", s.color),
      Entry("hidden", s.hidden, "true"),
      Entry("override", s.override, "true") ]
  }

  ghost function NestedEntries(c: Constraints): seq<Entry> {
    [ Entry("deny_tools", c.denyTools != {}, ListText(Sorted(c.denyTools))),
      Entry("deny_capabilities", c.denyCapabilities != {}, ListText(Sorted(c.denyCapabilities))),
      Entry("require_approval", c.requireApproval != {}, ListText(Sorted(c.requireApproval))),
      Entry("workspace_paths", c.workspacePaths.Some?, ListText(OrElse(c.workspacePaths, []))) ]
  }

  /** The lines of the present entries. */
  function EntryLines(indent: string, entries: seq<Entry>): seq<string> {
    if entries == [] then []
    else
      var last := entries[|entries| - 1];
      EntryLines(indent, entries[..|entries| - 1]) + if last.present then [indent + last.key + ": " + last.text] else []
  }

  ghost function FrontLines(s: AgentSpec): seq<string> {
    EntryLines("", Entries(s))
    + if s.permissions.None? then [] else [PERMISSIONS + ":"] + EntryLines("  ", NestedEntries(s.permissions.value))
  }

  /** `render_definition` */
  ghost function Render(s: AgentSpec): string {
    RStripNewlines(Join([FENCE] + FrontLines(s) + [FENCE, ""] + if s.prompt == "" then [] else [s.prompt])) + "\n"
  }

  lemma EntryHead(s: AgentSpec)
    ensures var e := Entries(s);
      && |e| == 14
      && e[0] == Entry("name", true, s.name)
      && e[1] == Entry("description", true, Quoted(s.description))
      && e[2] == Entry("mode", true, s.mode)
      && e[3] == Entry("model", s.model != "", Quoted(s.model))
      && e[4] == Entry("effort", s.effort != "", s.effort)
      && e[5] == Entry("context", s.context.Some?, Decimal(OrElse(s.context, 1)))
      && e[6] == Entry("output", s.output.Some?, OrElse(s.output, ""))
  {
    hide Quoted, ListText, Decimal, OrElse;
  }

  lemma EntryTail(s: AgentSpec)
    ensures var e := Entries(s);
      && |e| == 14
      && e[7] == Entry("tools", s.tools.Some?, ListText(OrElse(s.tools, [])))
      && e[8] == Entry("capabilities", s.capabilities.Some?, ListText(OrElse(s.capabilities, [])))
      && e[9] == Entry("max_steps", s.maxSteps.Some?, Decimal(OrElse(s.maxSteps, 1)))
      && e[10] == Entry("ceiling", s.ceiling != "", s.ceiling)
      && e[11] == Entry("color", s.color != "", s.color)
      && e[12] == Entry("hidden", s.hidden, "true")
      && e[13] == Entry("override", s.override, "true")
  {
    hide Quoted, ListText, Decimal, OrElse;
  }

  lemma EntryList(s: AgentSpec)
    ensures var e := Entries(s);
      && |e| == 14
      && e[0] == Entry("name", true, s.name)
      && e[1] == Entry("description", true, Quoted(s.description))
      && e[2] == Entry("mode", true, s.mode)
      && e[3] == Entry("model", s.model != "", Quoted(s.model))
      && e[4] == Entry("effort", s.effort != "", s.effort)
      && e[5] == Entry("context", s.context.Some?, Decimal(OrElse(s.context, 1)))
      && e[6] == Entry("output", s.output.Some?, OrElse(s.output, ""))
      && e[7] == Entry("tools", s.tools.Some?, ListText(OrElse(s.tools, [])))
      && e[8] == Entry("capabilities", s.capabilities.Some?, ListText(OrElse(s.capabilities, [])))
      && e[9] == Entry("max_steps", s.maxSteps.Some?, Decimal(OrElse(s.maxSteps, 1)))
      && e[10] == Entry("ceiling", s.ceiling != "", s.ceiling)
      && e[11] == Entry("color", s.color != "", s.color)
      && e[12] == Entry("hidden", s.hidden, "true")
      && e[13] == Entry("override", s.override, "true")
  {
    hide *;
    EntryHead(s);
    EntryTail(s);
  }

  lemma EntryStep(indent: string, entries: seq<Entry>, k: nat)
    requires k < |entries|
    ensures EntryLines(indent, entries[..k + 1]) == EntryLines(indent, entries[..k])
      + if entries[k].present then [indent + entries[k].key + ": " + entries[k].text] else []
  {
    assert entries[..k + 1][..k] == entries[..k];
  }

  /** `render_definition`: the lines are appended one by one. */
  method RenderDefinition(s: AgentSpec) returns (text: string)
    ensures text == Render(s)
  {
    hide Quoted, ListText, Decimal, Entries, EntryLines, NestedEntries, Join, RStripNewlines, Sorted;
    var front := RenderFields(s);
    if s.permissions.Some? {
      var nested := RenderConstraints(s.permissions.value);
      front := front + ([PERMISSIONS + ":"] + nested);
    } else {
      assert front + [] == front;
    }
    var lines := [FENCE] + front + [FENCE, ""];
    if s.prompt != "" {
      lines := lines + [s.prompt];
    } else {
      assert lines + [] == lines;
    }
    text := RStripNewlines(Join(lines)) + "\n";
  }

  /** Append a line if the definition has it. */
  method AddLine(lines: seq<string>, indent: string, present: bool, key: string, text: string, ghost e: seq<Entry>, ghost k: nat)
    returns (r: seq<string>)
    requires k < |e| && e[k] == Entry(key, present, text) && lines == EntryLines(indent, e[..k])
    ensures r == EntryLines(indent, e[..k + 1])
  {
    EntryStep(indent, e, k);
    hide EntryLines;
    r := if present then lines + [indent + key + ": " + text] else lines;
  }

  method RenderFields(s: AgentSpec) returns (lines: seq<string>)
    ensures lines == EntryLines("", Entries(s))
  {
    EntryList(s);
    lines := RenderIdentity(s);
    lines := RenderReach(s, lines);
    lines := RenderLook(s, lines);
    assert Entries(s)[..14] == Entries(s) by { hide *; }
  }

  method RenderIdentity(s: AgentSpec) returns (lines: seq<string>)
    ensures |Entries(s)| == 14 && lines == EntryLines("", Entries(s)[..5])
  {
    ghost var e := Entries(s);
    EntryList(s);
    hide Quoted, ListText, Decimal, Entries;
    assert e[..0] == [];
    lines := [];
    assert lines == EntryLines("", e[..0]);
    hide EntryLines;
    lines := AddLine(lines, "", true, "name", s.name, e, 0);
    lines := AddLine(lines, "", true, "description", Quoted(s.description), e, 1);
    lines := AddLine(lines, "", true, "mode", s.mode, e, 2);
    lines := AddLine(lines, "", s.model != "", "model", Quoted(s.model), e, 3);
    lines := AddLine(lines, "", s.effort != "", "effort", s.effort, e, 4);
  }

  method RenderReach(s: AgentSpec, before: seq<string>) returns (lines: seq<string>)
    requires |Entries(s)| == 14 && before == EntryLines("", Entries(s)[..5])
    ensures lines == EntryLines("", Entries(s)[..10])
  {
    ghost var e := Entries(s);
    EntryList(s);
    hide Quoted, ListText, Decimal, Entries, EntryLines;
    lines := before;
    lines := AddLine(lines, "", s.context.Some?, "context", Decimal(OrElse(s.context, 1)), e, 5);
    lines := AddLine(lines, "", s.output.Some?, "output", OrElse(s.output, ""), e, 6);
    lines := AddLine(lines, "", s.tools.Some?, "tools", ListText(OrElse(s.tools, [])), e, 7);
    lines := AddLine(lines, "", s.capabilities.Some?, "capabilities", ListText(OrElse(s.capabilities, [])), e, 8);
    lines := AddLine(lines, "", s.maxSteps.Some?, "max_steps", Decimal(OrElse(s.maxSteps, 1)), e, 9);
  }

  method RenderLook(s: AgentSpec, before: seq<string>) returns (lines: seq<string>)
    requires |Entries(s)| == 14 && before == EntryLines("", Entries(s)[..10])
    ensures lines == EntryLines("", Entries(s)[..14])
  {
    ghost var e := Entries(s);
    EntryList(s);
    hide Quoted, ListText, Decimal, Entries, EntryLines;
    lines := before;
    lines := AddLine(lines, "", s.ceiling != "", "ceiling", s.ceiling, e, 10);
    lines := AddLine(lines, "", s.color != "", "color", s.color, e, 11);
    lines := AddLine(lines, "", s.hidden, "hidden", "true", e, 12);
    lines := AddLine(lines, "", s.override, "override", "true", e, 13);
  }

  method RenderConstraints(c: Constraints) returns (lines: seq<string>)
    ensures lines == EntryLines("  ", NestedEntries(c))
  {
    ghost var e := NestedEntries(c);
    hide Quoted, ListText, Sorted;
    assert e[..0] == [];
    lines := [];
    assert lines == EntryLines("  ", e[..0]);
    hide EntryLines;
    var denyTools := SortNames(c.denyTools);
    lines := AddLine(lines, "  ", c.denyTools != {}, "deny_tools", ListText(denyTools), e, 0);
    var denyCapabilities := SortNames(c.denyCapabilities);
    lines := AddLine(lines, "  ", c.denyCapabilities != {}, "deny_capabilities", ListText(denyCapabilities), e, 1);
    var requireApproval := SortNames(c.requireApproval);
    lines := AddLine(lines, "  ", c.requireApproval != {}, "require_approval", ListText(requireApproval), e, 2);
    lines := AddLine(lines, "  ", c.workspacePaths.Some?, "workspace_paths", ListText(OrElse(c.workspacePaths, [])), e, 3);
    assert e[..4] == e;
  }
}
