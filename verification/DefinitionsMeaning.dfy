/** Which definitions the validation of `parse_definition` makes of the values it was given: a relation between the values
    and the fields, written without its functions, and the theorem that both agree. */
module DefinitionsMeaning {

  import opened Wrappers
  import opened Text
  import opened Frontmatter
  import opened Definitions

  // ---------- alphabets ----------

  const LOWER := "abcdefghijklmnopqrstuvwxyz"
  const UPPER := "ABCDEFGHIJKLMNOPQRSTUVWXYZ"
  const DIGITS := "0123456789"

  lemma LowerAre(c: char)
    ensures c in LOWER <==> 'a' <= c <= 'z'
  {
    assert forall k | 0 <= k < 26 :: LOWER[k] as int == 'a' as int + k;
    if 'a' <= c <= 'z' { assert LOWER[c as int - 'a' as int] == c; }
  }

  lemma UpperAre(c: char)
    ensures c in UPPER <==> 'A' <= c <= 'Z'
  {
    assert forall k | 0 <= k < 26 :: UPPER[k] as int == 'A' as int + k;
    if 'A' <= c <= 'Z' { assert UPPER[c as int - 'A' as int] == c; }
  }

  lemma DigitsAre(c: char)
    ensures c in DIGITS <==> '0' <= c <= '9'
  {
    assert forall k | 0 <= k < 10 :: DIGITS[k] as int == '0' as int + k;
    if '0' <= c <= '9' { assert DIGITS[c as int - '0' as int] == c; }
  }

  lemma AlphabetsAre(c: char)
    ensures c in LOWER <==> 'a' <= c <= 'z'
    ensures c in UPPER <==> 'A' <= c <= 'Z'
    ensures c in DIGITS <==> '0' <= c <= '9'
  {
    hide *;
    LowerAre(c);
    UpperAre(c);
    DigitsAre(c);
  }

  /** A text of at most `limit` characters of `rest` that starts with one of `first`. */
  predicate Spelled(s: string, first: string, rest: string, limit: nat) {
    1 <= |s| <= limit && s[0] in first && forall i | 0 <= i < |s| :: s[i] in rest
  }

  predicate NameText(s: string) { Spelled(s, LOWER + DIGITS, LOWER + DIGITS + "_-", 64) }

  predicate ToolText(s: string) { Spelled(s, LOWER + UPPER + DIGITS + "_.*-", LOWER + UPPER + DIGITS + "_.*-", 128) }

  predicate ModelText(s: string) { Spelled(s, LOWER + UPPER + DIGITS, LOWER + UPPER + DIGITS + "._:/@+-", 200) }

  predicate ColorText(s: string) { Spelled(s, LOWER + "_", LOWER + "_", 32) }

  lemma TextsAre(s: string)
    ensures IsName(s) <==> NameText(s)
    ensures IsTool(s) <==> ToolText(s)
    ensures IsModel(s) <==> ModelText(s)
    ensures IsColor(s) <==> ColorText(s)
  {
    NameIs(s);
    ToolIs(s);
    ModelIs(s);
    ColorIs(s);
  }

  lemma NameIs(s: string)
    ensures IsName(s) <==> NameText(s)
  {
    var low, dig := LOWER, DIGITS;
    forall c: char { AlphabetsAre(c); }
    assert forall c: char :: c in low + dig <==> c in low || c in dig;
    assert forall c: char :: c in low + dig + "_-" <==> c in low || c in dig || c == '_' || c == '-';
  }

  lemma ToolIs(s: string)
    ensures IsTool(s) <==> ToolText(s)
  {
    forall c: char { AlphabetsAre(c); }
    assert forall c: char :: c in LOWER + UPPER + DIGITS + "_.*-" <==> ToolChar(c);
  }

  lemma ModelIs(s: string)
    ensures IsModel(s) <==> ModelText(s)
  {
    forall c: char { AlphabetsAre(c); }
    assert forall c: char :: c in LOWER + UPPER + DIGITS <==> IsLetter(c) || IsDigit(c);
    assert forall c: char :: c in LOWER + UPPER + DIGITS + "._:/@+-" <==> ModelChar(c);
  }

  lemma ColorIs(s: string)
    ensures IsColor(s) <==> ColorText(s)
  {
    forall c: char { AlphabetsAre(c); }
    assert forall c: char :: c in LOWER + "_" <==> c in LOWER || c == '_';
  }

  // ---------- values ----------

  /** The text that a key was given: nothing without the key or with an empty list, a number by its digits. */
  predicate TextAt(values: map<string, FrontValue>, key: string, limit: nat, t: string) {
    && |t| <= limit
    && if key !in values || values[key] == Many([]) then t == ""
       else if values[key].One? && values[key].item.Int? then t == Decimal(values[key].item.number)
       else values[key].One? && values[key].item.Str? && t == Strip(values[key].item.text)
  }

  /** The texts of a list, without the white space around them. */
  predicate ListAt(values: map<string, FrontValue>, key: string, names: seq<string>) {
    && key in values && values[key].Many? && |values[key].items| == |names|
    && forall i | 0 <= i < |names| :: values[key].items[i].Str? && names[i] == Strip(values[key].items[i].text)
  }

  /** A list that may be left out. */
  predicate OptionalList(values: map<string, FrontValue>, key: string, names: Option<seq<string>>) {
    if names.None? then key !in values else ListAt(values, key, names.value)
  }

  predicate NumberAt(values: map<string, FrontValue>, key: string, limit: int, n: Option<int>) {
    if n.None? then key !in values else key in values && values[key] == One(Int(n.value)) && 1 <= n.value <= limit
  }

  predicate FlagAt(values: map<string, FrontValue>, key: string, b: bool) {
    if key in values then values[key] == One(Bool(b)) else !b
  }

  /** `e` is the text with its capitals, the long s and the Kelvin sign made small. */
  predicate Small(t: string, e: string) {
    && |t| == |e|
    && forall i | 0 <= i < |t| :: SmallChar(t[i], e[i])
  }

  predicate SmallChar(c: char, d: char) {
    if 'A' <= c <= 'Z' then d as int == c as int + 32
    else if c == '\U{17f}' then d == 's'
    else if c == '\U{212a}' then d == 'k'
    else d == c
  }

  lemma SmallIsFolded(t: string, e: string)
    ensures Small(t, e) <==> e == CaseFold(t)
  {
    forall c, d ensures SmallChar(c, d) <==> d == FoldChar(c) { }
    hide SmallChar, FoldChar;
    if Small(t, e) { assert forall i | 0 <= i < |t| :: e[i] == CaseFold(t)[i]; }
  }

  lemma TextRead(values: map<string, FrontValue>, key: string, limit: nat, t: string)
    ensures ReadText(Get(values, key), limit) == Success(t) <==> TextAt(values, key, limit, t)
  {
    hide Strip, Decimal;
  }

  lemma NamesRead(values: map<string, FrontValue>, key: string, names: seq<string>)
    requires key in values
    ensures ReadNames(values[key]) == Success(names) <==> ListAt(values, key, names)
  {
    hide Strip;
    if ListAt(values, key, names) { assert Stripped(values[key].items) == names; }
  }

  lemma ListRead(values: map<string, FrontValue>, key: string, ok: string -> bool, names: Option<seq<string>>)
    ensures ReadEntries(Get(values, key), ok) == Success(names) <==>
      OptionalList(values, key, names) && (names.Some? ==> forall n | n in names.value :: ok(n))
  {
    hide ReadNames;
    if key in values {
      if names.Some? { NamesRead(values, key, names.value); }
      if ReadNames(values[key]).Success? { NamesRead(values, key, ReadNames(values[key]).value); }
    }
  }

  lemma NumberRead(values: map<string, FrontValue>, key: string, limit: int, n: Option<int>)
    ensures ReadNumber(Get(values, key), limit) == Success(n) <==> NumberAt(values, key, limit, n)
  {
  }

  lemma FlagRead(values: map<string, FrontValue>, key: string, b: bool)
    ensures ReadFlag(Get(values, key)) == Success(b) <==> FlagAt(values, key, b)
  {
  }

  // ---------- the groups ----------

  /** The name and the description are required: the number 0 is no name, and neither the empty text, the number 0 nor an
      empty list is a description, though white space is. */
  ghost predicate IdentityMeans(values: map<string, FrontValue>, id: Identity) {
    && "name" in values && values["name"] != One(Int(0))
    && "description" in values && values["description"] !in {One(Str("")), One(Int(0)), Many([])}
    && TextAt(values, "name", 64, id.name) && NameText(id.name)
    && TextAt(values, "description", 500, id.description)
    && (TextAt(values, "mode", 16, id.mode) || (TextAt(values, "mode", 16, "") && id.mode == "all"))
    && id.mode in {"primary", "subagent", "all"}
    && TextAt(values, "model", 200, id.model) && (id.model == "" || Small(id.model, "inherit") || ModelText(id.model))
    && (exists given :: TextAt(values, "effort", 16, given) && Small(given, id.effort))
    && id.effort in {"", "none", "minimal", "low", "medium", "high", "xhigh"}
  }

  lemma ModesAre(mode: string)
    ensures mode in MODES <==> mode in {"primary", "subagent", "all"}
    ensures mode in EFFORTS <==> mode in {"none", "minimal", "low", "medium", "high", "xhigh"}
  {
  }

  lemma RequiredAre(values: map<string, FrontValue>, name: string, description: string)
    requires TextAt(values, "name", 64, name) && NameText(name) && TextAt(values, "description", 500, description)
    ensures !Falsy(Get(values, "name")) <==> "name" in values && values["name"] != One(Int(0))
    ensures !Falsy(Get(values, "description")) <==>
      "description" in values && values["description"] !in {One(Str("")), One(Int(0)), Many([])}
  {
    assert Strip("") == "";
    hide Strip, Decimal;
  }

  /** The checks one after the other come to one conjunction. */
  lemma IdentitySteps(values: map<string, FrontValue>, id: Identity)
    ensures var mode, effort := ReadText(Get(values, "mode"), 16), ReadText(Get(values, "effort"), 16);
      ReadIdentity(values) == Success(id) <==>
        && !Falsy(Get(values, "name")) && !Falsy(Get(values, "description"))
        && ReadText(Get(values, "name"), 64) == Success(id.name) && IsName(id.name)
        && ReadText(Get(values, "description"), 500) == Success(id.description)
        && mode.Success? && id.mode == (if mode.value == "" then "all" else mode.value) && id.mode in MODES
        && ReadText(Get(values, "model"), 200) == Success(id.model)
        && (id.model == "" || CaseFold(id.model) == "inherit" || IsModel(id.model))
        && effort.Success? && id.effort == CaseFold(effort.value) && (id.effort == "" || id.effort in EFFORTS)
  {
    hide ReadText, IsName, IsModel, CaseFold, Falsy, Get, MODES, EFFORTS;
  }

  lemma ModeRead(values: map<string, FrontValue>, mode: string)
    ensures var given := ReadText(Get(values, "mode"), 16);
      given.Success? && mode == (if given.value == "" then "all" else given.value) && mode in MODES <==>
        && (TextAt(values, "mode", 16, mode) || (TextAt(values, "mode", 16, "") && mode == "all"))
        && mode in {"primary", "subagent", "all"}
  {
    var given := ReadText(Get(values, "mode"), 16);
    ModesAre(mode);
    assert "" !in MODES && |"all"| == 3;
    hide ReadText, TextAt, Get, MODES;
    TextRead(values, "mode", 16, mode);
    TextRead(values, "mode", 16, "");
    if given.Success? { TextRead(values, "mode", 16, given.value); }
  }

  lemma EffortRead(values: map<string, FrontValue>, effort: string)
    ensures var given := ReadText(Get(values, "effort"), 16);
      given.Success? && effort == CaseFold(given.value) && (effort == "" || effort in EFFORTS) <==>
        && (exists t :: TextAt(values, "effort", 16, t) && Small(t, effort))
        && effort in {"", "none", "minimal", "low", "medium", "high", "xhigh"}
  {
    var given := ReadText(Get(values, "effort"), 16);
    ModesAre(effort);
    hide ReadText, TextAt, Get, EFFORTS, Small, CaseFold;
    if given.Success? {
      TextRead(values, "effort", 16, given.value);
      SmallIsFolded(given.value, effort);
    }
    if t :| TextAt(values, "effort", 16, t) && Small(t, effort) {
      TextRead(values, "effort", 16, t);
      SmallIsFolded(t, effort);
    }
  }

  lemma IdentityRead(values: map<string, FrontValue>, id: Identity)
    ensures ReadIdentity(values) == Success(id) <==> IdentityMeans(values, id)
  {
    hide ReadIdentity, ReadText, TextAt, NameText, ModelText, IsName, IsModel, Small, CaseFold, Falsy, Get, MODES, EFFORTS;
    IdentitySteps(values, id);
    TextRead(values, "name", 64, id.name);
    TextRead(values, "description", 500, id.description);
    TextRead(values, "model", 200, id.model);
    TextsAre(id.name);
    TextsAre(id.model);
    SmallIsFolded(id.model, "inherit");
    ModeRead(values, id.mode);
    EffortRead(values, id.effort);
    if TextAt(values, "name", 64, id.name) && NameText(id.name) && TextAt(values, "description", 500, id.description) {
      RequiredAre(values, id.name, id.description);
    }
  }

  const CAPABILITY_NAMES := {"read", "search", "git_read", "write", "git_write", "execute", "network", "control"}

  lemma CapabilitiesAre(c: string)
    ensures IsCapability(c) <==> c in CAPABILITY_NAMES
  {
  }

  ghost predicate ReachMeans(values: map<string, FrontValue>, reach: Reach) {
    && NumberAt(values, "context", 10_000_000, reach.context)
    && OptionalList(values, "tools", reach.tools)
    && (reach.tools.Some? ==> forall t | t in reach.tools.value :: ToolText(t))
    && OptionalList(values, "capabilities", reach.capabilities)
    && (reach.capabilities.Some? ==> forall c | c in reach.capabilities.value :: c in CAPABILITY_NAMES)
    && NumberAt(values, "max_steps", 1000, reach.maxSteps)
  }

  lemma ReachSteps(values: map<string, FrontValue>, reach: Reach)
    ensures ReadReach(values) == Success(reach) <==>
      && ReadNumber(Get(values, "context"), 10_000_000) == Success(reach.context)
      && ReadEntries(Get(values, "tools"), IsTool) == Success(reach.tools)
      && ReadEntries(Get(values, "capabilities"), IsCapability) == Success(reach.capabilities)
      && ReadNumber(Get(values, "max_steps"), 1000) == Success(reach.maxSteps)
  {
    hide ReadNumber, ReadEntries, Get;
  }

  lemma ReachRead(values: map<string, FrontValue>, reach: Reach)
    ensures ReadReach(values) == Success(reach) <==> ReachMeans(values, reach)
  {
    hide ReadReach, ReadNumber, NumberAt, ReadEntries, OptionalList, Get, IsTool, IsCapability, ToolText, CAPABILITY_NAMES;
    ReachSteps(values, reach);
    NumberRead(values, "context", 10_000_000, reach.context);
    ListRead(values, "tools", IsTool, reach.tools);
    ListRead(values, "capabilities", IsCapability, reach.capabilities);
    NumberRead(values, "max_steps", 1000, reach.maxSteps);
    forall t { TextsAre(t); }
    forall c { CapabilitiesAre(c); }
  }

  ghost predicate LookMeans(values: map<string, FrontValue>, look: Look) {
    && ((look.ceiling == "" && TextAt(values, "ceiling", 16, ""))
        || (look.ceiling in {"Safe", "Plan", "Yolo"} && exists given, small ::
              TextAt(values, "ceiling", 16, given) && Small(given, small) && Small(look.ceiling, small)))
    && TextAt(values, "color", 32, look.color) && (look.color == "" || ColorText(look.color))
    && FlagAt(values, "hidden", look.hidden) && FlagAt(values, "override", look.override)
    && (if look.output.Some? then "output" in values && values["output"] == Schema(look.output.value) else "output" !in values)
  }

  lemma LookSteps(values: map<string, FrontValue>, look: Look)
    ensures var given := ReadText(Get(values, "ceiling"), 16);
      ReadLook(values) == Success(look) <==>
        && given.Success? && look.ceiling == CanonicalCeiling(given.value) && (given.value == "" || look.ceiling != "")
        && ReadText(Get(values, "color"), 32) == Success(look.color) && (look.color == "" || IsColor(look.color))
        && ReadFlag(Get(values, "hidden")) == Success(look.hidden) && ReadFlag(Get(values, "override")) == Success(look.override)
        && ReadOutput(Get(values, "output")) == Success(look.output)
  {
    hide ReadText, ReadFlag, ReadOutput, IsColor, CanonicalCeiling, Get;
  }

  lemma CeilingsAre(given: string, ceiling: string)
    requires ceiling in {"Safe", "Plan", "Yolo"}
    ensures ceiling == CanonicalCeiling(given) <==> CaseFold(ceiling) == CaseFold(given)
    ensures ceiling == CanonicalCeiling(given) ==> given != ""
  {
    FoldedCeilings();
    assert |CaseFold(given)| == |given|;
    hide CaseFold;
    assert "safe" != "plan" && "safe" != "yolo" && "plan" != "yolo" && "Safe" != "Plan" && "Safe" != "Yolo" && "Plan" != "Yolo" by {
      assert "safe"[0] == 's' && "plan"[0] == 'p' && "yolo"[0] == 'y' && "Safe"[0] == 'S' && "Plan"[0] == 'P' && "Yolo"[0] == 'Y';
    }
  }

  lemma FoldedCeilings()
    ensures CaseFold("Safe") == "safe" && CaseFold("Plan") == "plan" && CaseFold("Yolo") == "yolo" && CaseFold("") == ""
  {
  }

  lemma CeilingRead(values: map<string, FrontValue>, ceiling: string)
    ensures var given := ReadText(Get(values, "ceiling"), 16);
      given.Success? && ceiling == CanonicalCeiling(given.value) && (given.value == "" || ceiling != "") <==>
        || (ceiling == "" && TextAt(values, "ceiling", 16, ""))
        || (ceiling in {"Safe", "Plan", "Yolo"} && exists t, small ::
              TextAt(values, "ceiling", 16, t) && Small(t, small) && Small(ceiling, small))
  {
    var given := ReadText(Get(values, "ceiling"), 16);
    assert forall t :: CanonicalCeiling(t) in {"", "Safe", "Plan", "Yolo"};
    assert CanonicalCeiling("") == "" by { FoldedCeilings(); assert |"safe"| == |"plan"| == |"yolo"| == 4; }
    assert |"Safe"| == |"Plan"| == |"Yolo"| == 4;
    hide ReadText, TextAt, Get, Small, CaseFold, CanonicalCeiling;
    TextRead(values, "ceiling", 16, "");
    if given.Success? {
      TextRead(values, "ceiling", 16, given.value);
      if ceiling in {"Safe", "Plan", "Yolo"} {
        CeilingsAre(given.value, ceiling);
        SmallIsFolded(given.value, CaseFold(given.value));
        SmallIsFolded(ceiling, CaseFold(given.value));
      }
    }
    if ceiling in {"Safe", "Plan", "Yolo"} {
      if t, small :| TextAt(values, "ceiling", 16, t) && Small(t, small) && Small(ceiling, small) {
        TextRead(values, "ceiling", 16, t);
        SmallIsFolded(t, small);
        SmallIsFolded(ceiling, small);
        CeilingsAre(t, ceiling);
      }
    }
  }

  lemma LookRead(values: map<string, FrontValue>, look: Look)
    ensures ReadLook(values) == Success(look) <==> LookMeans(values, look)
  {
    assert ReadOutput(Get(values, "output")) == Success(look.output) <==>
      if look.output.Some? then "output" in values && values["output"] == Schema(look.output.value) else "output" !in values;
    hide ReadLook, ReadText, TextAt, ReadFlag, FlagAt, ReadOutput, IsColor, ColorText, CanonicalCeiling, Small, Get;
    LookSteps(values, look);
    CeilingRead(values, look.ceiling);
    TextRead(values, "color", 32, look.color);
    TextsAre(look.color);
    FlagRead(values, "hidden", look.hidden);
    FlagRead(values, "override", look.override);
  }

  // ---------- permissions ----------

  /** A list of names, none of them empty, as a set; no list is no name. */
  predicate SetAt(fields: map<string, FrontValue>, key: string, names: set<string>) {
    if key !in fields then names == {}
    else
      && fields[key].Many? && (forall i | 0 <= i < |fields[key].items| :: fields[key].items[i].Str?)
      && "" !in names
      && names == set i | 0 <= i < |fields[key].items| :: Strip(fields[key].items[i].text)
  }

  ghost predicate PermissionsMean(fields: map<string, FrontValue>, c: Constraints) {
    && (forall key | key in fields :: key in {"deny_tools", "deny_capabilities", "require_approval", "workspace_paths"})
    && SetAt(fields, "deny_tools", c.denyTools) && (forall t | t in c.denyTools :: ToolText(t))
    && SetAt(fields, "deny_capabilities", c.denyCapabilities) && c.denyCapabilities <= CAPABILITY_NAMES
    && SetAt(fields, "require_approval", c.requireApproval) && c.requireApproval <= CAPABILITY_NAMES
    && OptionalList(fields, "workspace_paths", c.workspacePaths)
    && (c.workspacePaths.Some? ==> forall p | p in c.workspacePaths.value :: p != "" && '\0' !in p)
  }

  lemma SetRead(fields: map<string, FrontValue>, key: string, ok: string -> bool, names: set<string>)
    ensures ReadPermission(fields, key, ok) == Success(names) <==> SetAt(fields, key, names) && forall n | n in names :: ok(n)
  {
    hide Strip;
    if key !in fields {
      var none: seq<string> := [];
      assert (set n | n in none) == {};
    } else if ReadNames(fields[key]).Success? {
      var list, items := ReadNames(fields[key]).value, fields[key].items;
      assert forall i | 0 <= i < |items| :: list[i] == Strip(items[i].text);
      assert (set n | n in list) == set i | 0 <= i < |items| :: Strip(items[i].text) by {
        forall i | 0 <= i < |items| ensures Strip(items[i].text) in list { assert list[i] in list; }
      }
      var given := ReadPermission(fields, key, ok);
      assert given.Success? ==> given.value == set n | n in list;
      assert (forall n | n in list :: n != "" && ok(n)) ==> given.Success?;
      assert given.Success? ==> forall n | n in list :: n != "" && ok(n);
    }
  }

  lemma PermissionSteps(fields: map<string, FrontValue>, c: Constraints)
    ensures ReadPermissions(Some(Nested(fields))) == Success(Some(c)) <==>
      && (forall key | key in fields :: key in PERMISSION_FIELDS)
      && ReadPermission(fields, "deny_tools", IsTool) == Success(c.denyTools)
      && ReadPermission(fields, "deny_capabilities", IsCapability) == Success(c.denyCapabilities)
      && ReadPermission(fields, "require_approval", IsCapability) == Success(c.requireApproval)
      && ReadEntries(Get(fields, "workspace_paths"), IsPath) == Success(c.workspacePaths)
  {
    hide ReadPermission, ReadEntries, Get, PERMISSION_FIELDS;
  }

  lemma PermissionsRead(fields: map<string, FrontValue>, c: Constraints)
    ensures ReadPermissions(Some(Nested(fields))) == Success(Some(c)) <==> PermissionsMean(fields, c)
  {
    assert forall key :: key in PERMISSION_FIELDS <==>
      key in {"deny_tools", "deny_capabilities", "require_approval", "workspace_paths"};
    assert forall p :: IsPath(p) <==> p != "" && '\0' !in p;
    hide ReadPermissions, ReadPermission, SetAt, ReadEntries, OptionalList, Get, IsTool, IsCapability, IsPath, ToolText,
      PERMISSION_FIELDS, CAPABILITY_NAMES;
    PermissionSteps(fields, c);
    SetRead(fields, "deny_tools", IsTool, c.denyTools);
    SetRead(fields, "deny_capabilities", IsCapability, c.denyCapabilities);
    SetRead(fields, "require_approval", IsCapability, c.requireApproval);
    ListRead(fields, "workspace_paths", IsPath, c.workspacePaths);
    forall t { TextsAre(t); }
    forall n { CapabilitiesAre(n); }
  }

  // ---------- the whole ----------

  /** The values stand for the definition: no other key is there, each field is what its key says or the default of a key that
      is missing, and only subagents are constrained. */
  ghost predicate Means(values: map<string, FrontValue>, body: string, s: AgentSpec) {
    && (forall key | key in values :: key in {"name", "description", "mode", "model", "effort", "context", "output", "tools",
          "capabilities", "max_steps", "ceiling", "color", "hidden", "override", "permissions"})
    && IdentityMeans(values, Identity(s.name, s.description, s.mode, s.model, s.effort))
    && ReachMeans(values, Reach(s.context, s.tools, s.capabilities, s.maxSteps))
    && LookMeans(values, Look(s.ceiling, s.color, s.hidden, s.override, s.output))
    && s.prompt == body
    && (s.permissions.None? ==> "permissions" !in values)
    && (s.permissions.Some? ==>
          && "permissions" in values && values["permissions"].Nested? && s.mode != "primary"
          && PermissionsMean(values["permissions"].fields, s.permissions.value))
  }

  lemma FieldsAre(key: string)
    ensures key in FIELDS <==> key in {"name", "description", "mode", "model", "effort", "context", "output", "tools",
      "capabilities", "max_steps", "ceiling", "color", "hidden", "override", "permissions"}
  {
  }

  lemma AssembleSteps(values: map<string, FrontValue>, body: string, s: AgentSpec)
    ensures Assemble(values, body) == Success(s) <==>
      && (forall key | key in values :: key in FIELDS)
      && ReadIdentity(values) == Success(Identity(s.name, s.description, s.mode, s.model, s.effort))
      && ReadReach(values) == Success(Reach(s.context, s.tools, s.capabilities, s.maxSteps))
      && ReadLook(values) == Success(Look(s.ceiling, s.color, s.hidden, s.override, s.output))
      && ReadPermissions(Get(values, PERMISSIONS)) == Success(s.permissions)
      && (s.permissions.None? || s.mode != "primary") && s.prompt == body
  {
    hide ReadIdentity, ReadReach, ReadLook, ReadPermissions, Get, FIELDS;
  }

  lemma PermissionsGiven(values: map<string, FrontValue>, permissions: Option<Constraints>)
    ensures ReadPermissions(Get(values, PERMISSIONS)) == Success(permissions) <==>
      || (permissions.None? && "permissions" !in values)
      || (permissions.Some? && "permissions" in values && values["permissions"].Nested?
          && ReadPermissions(Some(values["permissions"])) == Success(permissions))
  {
    hide ReadPermission, ReadEntries, PERMISSION_FIELDS;
  }

  /** The validation accepts the values with a definition exactly when they stand for it. */
  lemma AssemblesExactly(values: map<string, FrontValue>, body: string, s: AgentSpec)
    ensures Assemble(values, body) == Success(s) <==> Means(values, body, s)
  {
    hide Assemble, ReadIdentity, ReadReach, ReadLook, ReadPermissions, Get, FIELDS, IdentityMeans, ReachMeans, LookMeans, PermissionsMean;
    AssembleSteps(values, body, s);
    forall key { FieldsAre(key); }
    IdentityRead(values, Identity(s.name, s.description, s.mode, s.model, s.effort));
    ReachRead(values, Reach(s.context, s.tools, s.capabilities, s.maxSteps));
    LookRead(values, Look(s.ceiling, s.color, s.hidden, s.override, s.output));
    PermissionsGiven(values, s.permissions);
    if s.permissions.Some? && "permissions" in values && values["permissions"].Nested? {
      PermissionsRead(values["permissions"].fields, s.permissions.value);
    }
  }

  /** A text is accepted as a definition exactly when its head and body can be told apart, the lines of the head can be read,
      and the values they give stand for the definition. */
  lemma ParsesExactly(text: string, readSchema: SchemaReader, s: AgentSpec)
    ensures Parse(text, readSchema) == Success(s) <==>
      && Split(text).Success? && ReadFront(Split(text).value.front, readSchema).Success?
      && Means(ReadFront(Split(text).value.front, readSchema).value.values, Split(text).value.body, s)
  {
    hide Split, ReadFront, Assemble, Means;
    if Split(text).Success? && ReadFront(Split(text).value.front, readSchema).Success? {
      AssemblesExactly(ReadFront(Split(text).value.front, readSchema).value.values, Split(text).value.body, s);
    }
  }
}
