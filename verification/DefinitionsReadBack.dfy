/** Definitions whose workspace paths are sealed: when `parse_definition` reads them back from `render_definition`. */
module DefinitionsReadBack {

  import opened Wrappers
  import opened Text
  import opened Frontmatter
  import opened Definitions
  import opened FrontmatterRoundTrip
  import opened DefinitionsRoundTrip
  import opened ListReadBack

  // ---------- what can be written ----------

  /** Texts of the kind the renderer writes without changing them, and no output schema. */
  predicate Printable(s: AgentSpec) {
    && NoDoubleQuote(s.description) && Trimmed(s.description) && SingleLine(s.description)
    && Trimmed(s.prompt) && OnlyNewlines(s.prompt) && s.output.None?
    && (s.permissions.Some? && s.permissions.value.workspacePaths.Some? ==>
          forall p | p in s.permissions.value.workspacePaths.value :: Clean(p) && SingleLine(p))
  }

  /** No path that is rendered bare has a comma outside apostrophes or an apostrophe left open. */
  predicate PathsReadBack(s: AgentSpec) {
    s.permissions.Some? && s.permissions.value.workspacePaths.Some? ==>
      forall p | p in s.permissions.value.workspacePaths.value :: Sealable(p)
  }

  /** A bare name reads back unless it is a boolean or a number with a leading zero. */
  predicate NameReadsBack(name: string) {
    name != "true" && name != "false" && !(AllDigits(name) && name[0] == '0')
  }

  predicate ColorReadsBack(color: string) {
    color != "true" && color != "false"
  }

  // ---------- numbers ----------

  lemma {:induction false} DigitsAreDigits(n: nat)
    ensures AllDigits(Digits(n)) && Natural(Digits(n)) == n && (n > 0 ==> Digits(n)[0] != '0')
  {
    if n < 10 {
      assert Digits(n)[..0] == "";
    } else {
      DigitsAreDigits(n / 10);
      DigitsAreDigits(n % 10);
      var front, last := Digits(n / 10), Digits(n % 10);
      assert |last| == 1 && DigitValue(last[0]) == n % 10 by { assert last[..0] == ""; }
      assert Digits(n) == front + last && Digits(n)[..|front|] == front && Digits(n)[|front|] == last[0];
    }
  }

  lemma {:induction false} DigitsOfNatural(d: string)
    requires AllDigits(d) && d[0] != '0'
    ensures Natural(d) > 0 && Digits(Natural(d)) == d
  {
    var last := d[|d| - 1];
    assert IsDigit(last) && IsDigit(d[0]);
    if |d| == 1 {
      assert d[..0] == "" && Natural(d) == DigitValue(last);
      assert ('0' as int + DigitValue(last)) as char == last;
    } else {
      var front := d[..|d| - 1];
      assert forall i | 0 <= i < |front| :: front[i] == d[i];
      DigitsOfNatural(front);
      var n := Natural(d);
      assert n / 10 == Natural(front) && n % 10 == DigitValue(last);
      assert Digits(n % 10) == [last];
      assert d == front + [last];
    }
  }

  lemma NumberReads(n: int)
    requires n >= 1
    ensures Tidy(Decimal(n)) && ReadValue(Decimal(n)) == Success(One(Int(n))) && SingleLine(Decimal(n))
  {
    var d := Decimal(n);
    DigitsAreDigits(n);
    forall i | 0 <= i < |d| ensures IsDigit(d[i]) && !IsBreak(d[i]) { }
    assert Word(d);
    assert d[0] != 't' && d[0] != 'f';
    hide Digits;
    ReadWord(d);
  }

  // ---------- words ----------

  lemma WordSingleLine(v: string)
    requires Word(v)
    ensures SingleLine(v)
  {
    forall i | 0 <= i < |v| ensures !IsBreak(v[i]) { }
  }

  /** A word of letters that is no boolean reads as itself. */
  lemma LettersRead(v: string)
    requires Word(v) && !IsDigit(v[0]) && v != "true" && v != "false"
    ensures Tidy(v) && SingleLine(v) && ReadValue(v) == Success(One(Str(v)))
    ensures Strip(v) == v
  {
    WordSingleLine(v);
    ReadWord(v);
    StripTrimmed(v);
    assert v[0] != '-';
    assert !IsInteger(v);
  }

  lemma ModeReads(mode: string)
    requires mode in MODES
    ensures Tidy(mode) && SingleLine(mode) && ReadValue(mode) == Success(One(Str(mode))) && Strip(mode) == mode
    ensures 0 < |mode| <= 16
  {
    assert mode == "primary" || mode == "subagent" || mode == "all";
    assert mode[0] != 't' && mode[0] != 'f';
    LettersRead(mode);
  }

  lemma {:induction false} FoldLower(v: string)
    requires forall i | 0 <= i < |v| :: IsLower(v[i])
    ensures CaseFold(v) == v
  {
    assert forall i | 0 <= i < |v| :: CaseFold(v)[i] == FoldChar(v[i]) == v[i];
  }

  predicate LowerWord(v: string) {
    0 < |v| <= 16 && (forall i | 0 <= i < |v| :: IsLower(v[i])) && v[0] != 't' && v[0] != 'f'
  }

  lemma LowerReads(v: string)
    requires LowerWord(v)
    ensures Tidy(v) && SingleLine(v) && ReadValue(v) == Success(One(Str(v))) && Strip(v) == v && CaseFold(v) == v
  {
    assert Word(v) && !IsDigit(v[0]);
    LettersRead(v);
    FoldLower(v);
  }

  lemma EffortIsLower(effort: string)
    requires effort in EFFORTS
    ensures LowerWord(effort)
  {
    assert effort == "none" || effort == "minimal" || effort == "low" || effort == "medium" || effort == "high" || effort == "xhigh";
  }

  lemma EffortReads(effort: string)
    requires effort in EFFORTS
    ensures Tidy(effort) && SingleLine(effort) && ReadValue(effort) == Success(One(Str(effort))) && Strip(effort) == effort
    ensures CaseFold(effort) == effort && 0 < |effort| <= 16
  {
    EffortIsLower(effort);
    hide *;
    LowerReads(effort);
    LowerLength(effort);
  }

  lemma LowerLength(v: string)
    requires LowerWord(v)
    ensures 0 < |v| <= 16
  {
  }

  lemma CeilingFolds()
    ensures CanonicalCeiling("Safe") == "Safe" && CanonicalCeiling("Plan") == "Plan" && CanonicalCeiling("Yolo") == "Yolo"
  {
    assert CaseFold("Safe") == "safe" && CaseFold("Plan") == "plan" && CaseFold("Yolo") == "yolo";
    assert "safe"[0] == 's' && "plan"[0] == 'p' && "yolo"[0] == 'y';
    hide CaseFold;
  }

  lemma CeilingIsWord(ceiling: string)
    requires ceiling in CEILINGS
    ensures Word(ceiling) && !IsDigit(ceiling[0]) && ceiling != "true" && ceiling != "false" && 0 < |ceiling| <= 16
  {
    assert ceiling == "Safe" || ceiling == "Plan" || ceiling == "Yolo";
    assert ceiling[0] != 't' && ceiling[0] != 'f';
  }

  lemma CeilingReads(ceiling: string)
    requires ceiling in CEILINGS
    ensures Tidy(ceiling) && SingleLine(ceiling) && ReadValue(ceiling) == Success(One(Str(ceiling)))
    ensures Strip(ceiling) == ceiling && 0 < |ceiling| <= 16 && CanonicalCeiling(ceiling) == ceiling
  {
    assert ceiling == "Safe" || ceiling == "Plan" || ceiling == "Yolo";
    hide *;
    CeilingFolds();
    CeilingIsWord(ceiling);
    LettersRead(ceiling);
  }

  lemma ColorReads(color: string)
    requires IsColor(color)
    ensures Tidy(color) && SingleLine(color) && Strip(color) == color && ReadValue(color) ==
      Success(One(if ColorReadsBack(color) then Str(color) else Bool(color == "true")))
  {
    assert Word(color);
    WordSingleLine(color);
    ReadWord(color);
    StripTrimmed(color);
    assert !IsDigit(color[0]) && color[0] != '-';
    assert !IsInteger(color);
  }

  lemma NameReads(name: string)
    requires IsName(name)
    ensures Tidy(name) && SingleLine(name) && Strip(name) == name && ReadValue(name) == Success(One(
      if name == "true" || name == "false" then Bool(name == "true")
      else if AllDigits(name) then Int(Natural(name)) else Str(name)))
  {
    assert Word(name);
    WordSingleLine(name);
    ReadWord(name);
    StripTrimmed(name);
    assert name[0] != '-';
  }

  lemma ModelReads(model: string)
    requires model != "" && (CaseFold(model) == "inherit" || IsModel(model))
    ensures NoDoubleQuote(model) && Trimmed(model) && SingleLine(model)
  {
    forall i | 0 <= i < |model| ensures model[i] != '"' && !IsSpace(model[i]) && !IsBreak(model[i]) {
      if IsModel(model) {
        assert ModelChar(model[i]);
      } else {
        InheritChars(model, i);
      }
    }
  }

  lemma InheritChars(model: string, i: nat)
    requires CaseFold(model) == "inherit" && i < |model|
    ensures model[i] != '"' && !IsSpace(model[i]) && !IsBreak(model[i])
  {
    assert CaseFold(model)[i] == FoldChar(model[i]);
    assert forall k | 0 <= k < |"inherit"| :: IsLower("inherit"[k]);
    assert IsLower("inherit"[i]);
  }

  // ---------- lists ----------

  lemma ToolOk(t: string)
    requires IsTool(t)
    ensures ItemOk(t) && SingleLine(t) && t != ""
  {
    forall i | 0 <= i < |t| ensures t[i] != '"' && t[i] != ',' && t[i] != '\'' && !IsSpace(t[i]) && !IsBreak(t[i]) {
      assert ToolChar(t[i]);
    }
    hide Plain;
    NoMarksSealed(t);
  }

  lemma CapabilityIsTool(c: string)
    requires IsCapability(c)
    ensures IsTool(c)
  {
    assert c == "read" || c == "search" || c == "git_read" || c == "write" || c == "git_write" || c == "execute"
      || c == "network" || c == "control";
  }

  lemma {:induction false} ListedSingleLine(items: seq<string>)
    requires forall i | 0 <= i < |items| :: Clean(items[i]) && SingleLine(items[i])
    ensures SingleLine(Listed(items))
  {
    if items != [] {
      QuotedSingleLine(items[0]);
      if |items| > 1 {
        ListedSingleLine(items[1..]);
        hide Quoted, Clean;
        SingleAppend(Quoted(items[0]), ", ");
        SingleAppend(Quoted(items[0]) + ", ", Listed(items[1..]));
      }
    }
  }

  lemma SingleAppend(a: string, b: string)
    requires SingleLine(a) && SingleLine(b)
    ensures SingleLine(a + b)
  {
  }

  lemma QuotedSingleLine(v: string)
    requires NoDoubleQuote(v) && SingleLine(v)
    ensures SingleLine(Quoted(v))
  {
    QuotedForm(v);
    hide Plain;
    if !Plain(v) {
      SingleAppend("\"", v);
      SingleAppend("\"" + v, "\"");
    }
  }

  predicate Items(items: seq<string>) {
    forall i | 0 <= i < |items| :: ItemOk(items[i]) && SingleLine(items[i])
  }

  lemma ListReads(items: seq<string>)
    requires Items(items)
    ensures Tidy(ListText(items)) && SingleLine(ListText(items))
    ensures ReadValue(ListText(items)) == Success(Many(Strs(items))) && ReadNames(Many(Strs(items))) == Success(items)
  {
    ReadListText(items);
    ListTextScan(items);
    ListedSingleLine(items);
    hide Listed, ReadValue, HashFree, Plain;
    SingleAppend("[", Listed(items));
    SingleAppend("[" + Listed(items), "]");
    forall i | 0 <= i < |items| ensures Strip(items[i]) == items[i] { StripTrimmed(items[i]); }
    assert Stripped(Strs(items)) == items;
  }

  lemma ToolsOk(items: seq<string>)
    requires forall t | t in items :: IsTool(t)
    ensures Items(items)
  {
    forall i | 0 <= i < |items| ensures ItemOk(items[i]) && SingleLine(items[i]) { ToolOk(items[i]); }
  }

  lemma CapabilitiesOk(items: seq<string>)
    requires forall c | c in items :: IsCapability(c)
    ensures Items(items)
  {
    hide IsCapability, IsTool;
    forall c | c in items ensures IsTool(c) { CapabilityIsTool(c); }
    ToolsOk(items);
  }

  // ---------- keys ----------

  function KeyCode(key: string): int {
    if |key| < 2 then 0 else |key| * 1000000 + key[0] as int * 1000 + key[1] as int
  }

  function KeyRank(code: int): int {
    if code == 4110097 then 0 else if code == 11100101 then 1 else if code == 4109111 then 2
    else if code == 5109111 then 3 else if code == 6101102 then 4 else if code == 7099111 then 5
    else if code == 6111117 then 6 else if code == 5116111 then 7 else if code == 12099097 then 8
    else if code == 9109097 then 9 else if code == 7099101 then 10 else if code == 5099111 then 11
    else if code == 6104105 then 12 else if code == 8111118 then 13 else if code == 11112101 then 14 else -1
  }

  /** The field names are distinct words. */
  lemma FieldRank(i: nat)
    requires i < |FIELDS|
    ensures KeyRank(KeyCode(FIELDS[i])) == i
  {
    var f := FIELDS;
    assert KeyCode(f[0]) == 4110097 && KeyCode(f[1]) == 11100101 && KeyCode(f[2]) == 4109111;
    assert KeyCode(f[3]) == 5109111 && KeyCode(f[4]) == 6101102 && KeyCode(f[5]) == 7099111;
    assert KeyCode(f[6]) == 6111117 && KeyCode(f[7]) == 5116111 && KeyCode(f[8]) == 12099097;
    assert KeyCode(f[9]) == 9109097 && KeyCode(f[10]) == 7099101 && KeyCode(f[11]) == 5099111;
    assert KeyCode(f[12]) == 6104105 && KeyCode(f[13]) == 8111118 && KeyCode(f[14]) == 11112101;
    hide KeyCode;
  }

  lemma FieldsAreKeys(i: nat)
    requires i < |FIELDS|
    ensures KeyWord(FIELDS[i])
  {
    FirstKeys();
    MiddleKeys();
    SecondKeys();
    hide KeyWord;
  }

  lemma FirstKeys()
    ensures KeyWord(FIELDS[0]) && KeyWord(FIELDS[1]) && KeyWord(FIELDS[2]) && KeyWord(FIELDS[3])
  {
  }

  lemma MiddleKeys()
    ensures KeyWord(FIELDS[4]) && KeyWord(FIELDS[5]) && KeyWord(FIELDS[6]) && KeyWord(FIELDS[7])
  {
  }

  lemma SecondKeys()
    ensures KeyWord(FIELDS[8]) && KeyWord(FIELDS[9]) && KeyWord(FIELDS[10]) && KeyWord(FIELDS[11])
    ensures KeyWord(FIELDS[12]) && KeyWord(FIELDS[13]) && KeyWord(FIELDS[14])
  {
  }

  lemma EntryKeys(s: AgentSpec, i: nat)
    requires i < 14
    ensures |Entries(s)| == 14 && |FIELDS| == 15 && Entries(s)[i].key == FIELDS[i]
  {
    hide Quoted, ListText, Decimal, OrElse;
  }

  predicate TextOk(e: Entry) {
    e.present ==> Tidy(e.text) && SingleLine(e.text) && ReadValue(e.text).Success?
  }

  lemma EntryTexts(s: AgentSpec, i: nat)
    requires ValidSpec(s) && Printable(s) && i < 14
    ensures |Entries(s)| == 14 && TextOk(Entries(s)[i]) && (Entries(s)[i].present ==> i != 6)
  {
    hide IsName, IsColor, IsModel, IsTool, Tidy, SingleLine, ReadValue, Quoted, ListText, Decimal, CaseFold, ValidConstraints;
    hide NoDoubleQuote, Trimmed, OnlyNewlines;
    var e := Entries(s)[i];
    if i == 0 { NameReads(s.name); }
    else if i == 1 { ReadQuoted(s.description); QuotedSingleLine(s.description); }
    else if i == 2 { ModeReads(s.mode); }
    else if i == 3 && e.present { ModelReads(s.model); ReadQuoted(s.model); QuotedSingleLine(s.model); }
    else if i == 4 && e.present { EffortReads(s.effort); }
    else if i == 5 && e.present { NumberReads(s.context.value); }
    else if i == 7 && e.present { ToolsOk(s.tools.value); ListReads(s.tools.value); }
    else if i == 8 && e.present { CapabilitiesOk(s.capabilities.value); ListReads(s.capabilities.value); }
    else if i == 9 && e.present { NumberReads(s.maxSteps.value); }
    else if i == 10 && e.present { CeilingReads(s.ceiling); }
    else if i == 11 && e.present { ColorReads(s.color); }
    else if i >= 12 { TrueReads(); }
  }

  lemma TrueReads()
    ensures Tidy("true") && SingleLine("true") && ReadValue("true") == Success(One(Bool(true)))
  {
    assert Word("true");
    WordSingleLine("true");
    ReadWord("true");
  }

  lemma EntriesAreOk(s: AgentSpec)
    requires ValidSpec(s) && Printable(s)
    ensures EntriesOk(Entries(s))
  {
    var entries := Entries(s);
    forall i | 0 <= i < 14 ensures EntryOk(entries[i]) && KeyRank(KeyCode(entries[i].key)) == i {
      EntryKeys(s, i);
      EntryTexts(s, i);
      FieldsAreKeys(i);
      FieldRank(i);
      FieldRank(6);
      hide KeyRank, KeyCode, KeyWord, Tidy, ReadValue, SingleLine, ValidSpec, Printable, Entries;
      OutputIsField();
    }
    hide KeyRank, KeyCode, EntryOk, Entries, ValidSpec, Printable;
    EntryKeys(s, 0);
  }

  lemma OutputIsField()
    ensures FIELDS[6] == OUTPUT && FIELDS[14] == PERMISSIONS
  {
  }

  // ---------- the permissions block ----------

  lemma NestedKeys(i: nat)
    requires i < |PERMISSION_FIELDS|
    ensures KeyWord(PERMISSION_FIELDS[i]) && PERMISSION_FIELDS[i] != OUTPUT
  {
    var f := PERMISSION_FIELDS;
    assert KeyWord(f[0]) && KeyWord(f[1]) && KeyWord(f[2]) && KeyWord(f[3]);
    assert |f[0]| == 10 && |f[1]| == 17 && |f[2]| == 16 && |f[3]| == 15 && |OUTPUT| == 6;
    hide KeyWord;
  }

  lemma NestedTexts(c: Constraints, i: nat)
    requires ValidConstraints(c) && (c.workspacePaths.Some? ==> Items(c.workspacePaths.value)) && i < 4
    ensures |NestedEntries(c)| == 4 && TextOk(NestedEntries(c)[i]) && NestedEntries(c)[i].key != OUTPUT
    ensures KeyWord(NestedEntries(c)[i].key) && NestedEntries(c)[i].key == PERMISSION_FIELDS[i]
  {
    var e := NestedEntries(c)[i];
    NestedKeys(i);
    hide IsTool, IsCapability, IsPath, Tidy, SingleLine, ReadValue, ListText, Sorted, KeyWord, ReadNames, Items;
    if i == 0 { ToolsOk(Sorted(c.denyTools)); ListReads(Sorted(c.denyTools)); }
    else if i == 1 { CapabilitiesOk(Sorted(c.denyCapabilities)); ListReads(Sorted(c.denyCapabilities)); }
    else if i == 2 { CapabilitiesOk(Sorted(c.requireApproval)); ListReads(Sorted(c.requireApproval)); }
    else if e.present { ListReads(c.workspacePaths.value); }
  }

  lemma NestedAreOk(c: Constraints)
    requires ValidConstraints(c) && (c.workspacePaths.Some? ==> Items(c.workspacePaths.value))
    ensures EntriesOk(NestedEntries(c)) && |NestedEntries(c)| == 4
  {
    var entries := NestedEntries(c);
    forall i | 0 <= i < 4 ensures EntryOk(entries[i]) { NestedTexts(c, i); }
    assert |entries[0].key| == 10 && |entries[1].key| == 17 && |entries[2].key| == 16 && |entries[3].key| == 15;
    hide EntryOk, NestedEntries;
  }

  /** A set of names comes back from its sorted list, or from no line at all when it is empty. */
  lemma NameSetBack(fields: map<string, FrontValue>, key: string, names: set<string>, ok: string -> bool)
    requires Items(Sorted(names)) && forall n | n in names :: n != "" && ok(n)
    requires Get(fields, key) == if names != {} then Some(Many(Strs(Sorted(names)))) else None
    ensures ReadPermission(fields, key, ok) == Success(names)
  {
    var items := Sorted(names);
    hide Items, Strs, ReadNames, ReadValue, Tidy, SingleLine, ListText, Sorted;
    ListReads(items);
    if names != {} {
      PermissionOf(fields, key, items, ok);
      SameSet(names, items);
    } else {
      NoPermission(fields, key, ok);
    }
  }

  lemma PermissionOf(fields: map<string, FrontValue>, key: string, items: seq<string>, ok: string -> bool)
    requires key in fields && ReadNames(fields[key]) == Success(items) && forall n | n in items :: n != "" && ok(n)
    ensures ReadPermission(fields, key, ok) == Success(set n | n in items)
  {
    hide ReadNames;
  }

  lemma NoPermission(fields: map<string, FrontValue>, key: string, ok: string -> bool)
    requires key !in fields
    ensures ReadPermission(fields, key, ok) == Success({})
  {
    var none: seq<string> := [];
    assert (set n | n in none) == {};
  }

  lemma SameSet(names: set<string>, items: seq<string>)
    requires forall x :: x in items <==> x in names
    ensures (set n | n in items) == names
  {
  }

  lemma NestedValue(c: Constraints, i: nat, items: seq<string>)
    requires ValidConstraints(c) && (c.workspacePaths.Some? ==> Items(c.workspacePaths.value)) && i < 4
    requires Items(items) && NestedEntries(c)[i].text == ListText(items)
    ensures EntriesOk(NestedEntries(c))
    ensures Get(ValuesOf(NestedEntries(c)), PERMISSION_FIELDS[i]) ==
      if NestedEntries(c)[i].present then Some(Many(Strs(items))) else None
  {
    NestedAreOk(c);
    NestedTexts(c, i);
    ListReads(items);
    hide ValidConstraints, EntriesOk, NestedEntries, Tidy, ReadValue, SingleLine, ListText, Strs, ReadNames, Items;
    ValueAt(NestedEntries(c), i);
  }

  lemma SetItems(c: Constraints)
    requires ValidConstraints(c)
    ensures Items(Sorted(c.denyTools)) && Items(Sorted(c.denyCapabilities)) && Items(Sorted(c.requireApproval))
    ensures "" !in c.denyTools && "" !in c.denyCapabilities && "" !in c.requireApproval
  {
    hide IsTool, IsCapability, Sorted, Items;
    ToolsOk(Sorted(c.denyTools));
    CapabilitiesOk(Sorted(c.denyCapabilities));
    CapabilitiesOk(Sorted(c.requireApproval));
    EmptyIsNothing();
  }

  lemma EmptyIsNothing()
    ensures !IsTool("") && !IsCapability("")
  {
    if IsCapability("") { CapabilityIsTool(""); }
  }

  lemma {:induction false} ValuesKeys(entries: seq<Entry>, key: string)
    requires EntriesOk(entries) && key in ValuesOf(entries)
    ensures exists i :: 0 <= i < |entries| && entries[i].key == key
  {
    if forall i | 0 <= i < |entries| :: entries[i].key != key { OtherKeys(entries, key); }
  }

  lemma NestedKeyKnown(c: Constraints, key: string)
    requires ValidConstraints(c) && (c.workspacePaths.Some? ==> Items(c.workspacePaths.value))
    requires EntriesOk(NestedEntries(c)) && |NestedEntries(c)| == 4 && key in ValuesOf(NestedEntries(c))
    ensures key in PERMISSION_FIELDS
  {
    hide ValuesOf, ValidConstraints, EntriesOk, NestedEntries, Items, TextOk, KeyWord;
    ValuesKeys(NestedEntries(c), key);
    var i :| 0 <= i < 4 && NestedEntries(c)[i].key == key;
    NestedTexts(c, i);
  }

  lemma PermissionsBack(c: Constraints)
    requires ValidConstraints(c) && (c.workspacePaths.Some? ==> Items(c.workspacePaths.value))
    ensures EntriesOk(NestedEntries(c))
    ensures ReadPermissions(Some(Nested(ValuesOf(NestedEntries(c))))) == Success(Some(c))
  {
    NestedAreOk(c);
    SetItems(c);
    var fields := ValuesOf(NestedEntries(c));
    var paths := OrElse(c.workspacePaths, []);
    NestedValue(c, 0, Sorted(c.denyTools));
    NestedValue(c, 1, Sorted(c.denyCapabilities));
    NestedValue(c, 2, Sorted(c.requireApproval));
    NestedValue(c, 3, paths);
    forall key | key in fields ensures key in PERMISSION_FIELDS { NestedKeyKnown(c, key); }
    hide NestedEntries, ValuesOf, EntriesOk, Sorted, Items, IsTool, IsCapability, IsPath, ReadValue, ListText, Strs, ReadNames, ReadPermission;
    NameSetBack(fields, "deny_tools", c.denyTools, IsTool);
    NameSetBack(fields, "deny_capabilities", c.denyCapabilities, IsCapability);
    NameSetBack(fields, "require_approval", c.requireApproval, IsCapability);
    ListReads(paths);
    assert ReadEntries(Get(fields, "workspace_paths"), IsPath) == Success(c.workspacePaths);
    hide ReadEntries, Get;
    PermissionsFrom(fields, c);
  }

  lemma PermissionsFrom(fields: map<string, FrontValue>, c: Constraints)
    requires forall key | key in fields :: key in PERMISSION_FIELDS
    requires ReadPermission(fields, "deny_tools", IsTool) == Success(c.denyTools)
    requires ReadPermission(fields, "deny_capabilities", IsCapability) == Success(c.denyCapabilities)
    requires ReadPermission(fields, "require_approval", IsCapability) == Success(c.requireApproval)
    requires ReadEntries(Get(fields, "workspace_paths"), IsPath) == Success(c.workspacePaths)
    ensures ReadPermissions(Some(Nested(fields))) == Success(Some(c))
  {
    hide ReadPermission, ReadEntries, Get, IsTool, IsCapability, IsPath;
  }

  // ---------- the top-level fields ----------

  /** The values that the rendered lines stand for. */
  ghost function Values(s: AgentSpec): map<string, FrontValue>
    requires EntriesOk(Entries(s)) && (s.permissions.Some? ==> EntriesOk(NestedEntries(s.permissions.value)))
  {
    var top := ValuesOf(Entries(s));
    if s.permissions.None? then top else top[PERMISSIONS := Nested(ValuesOf(NestedEntries(s.permissions.value)))]
  }

  ghost predicate Ready(s: AgentSpec) {
    && ValidSpec(s) && Printable(s) && PathsReadBack(s)
    && EntriesOk(Entries(s)) && (s.permissions.Some? ==> EntriesOk(NestedEntries(s.permissions.value)))
  }

  lemma PathItems(s: AgentSpec)
    requires Printable(s) && PathsReadBack(s) && s.permissions.Some? && s.permissions.value.workspacePaths.Some?
    ensures Items(s.permissions.value.workspacePaths.value)
  {
    hide ItemOk, SingleLine, Clean, Sealable, OnlyNewlines, Trimmed, NoDoubleQuote;
    var paths := s.permissions.value.workspacePaths.value;
    forall i | 0 <= i < |paths| ensures ItemOk(paths[i]) && SingleLine(paths[i]) {
      assert paths[i] in paths;
      SealableIsOk(paths[i]);
    }
  }

  lemma IsReady(s: AgentSpec)
    requires ValidSpec(s) && Printable(s) && PathsReadBack(s)
    ensures Ready(s)
  {
    EntriesAreOk(s);
    if s.permissions.Some? {
      var c := s.permissions.value;
      if c.workspacePaths.Some? { PathItems(s); }
      NestedAreOk(c);
    }
  }

  lemma FieldValue(s: AgentSpec, i: nat)
    requires Ready(s) && i < 14
    ensures |Entries(s)| == 14
    ensures Get(Values(s), FIELDS[i]) ==
      if Entries(s)[i].present then Some(ReadValue(Entries(s)[i].text).value) else None
  {
    EntryKeys(s, i);
    OutputIsField();
    FieldRank(i);
    FieldRank(14);
    hide ValidSpec, Printable, EntriesOk, ReadValue, KeyRank, KeyCode, Entries, NestedEntries, ValuesOf;
    ValueAt(Entries(s), i);
  }

  lemma NameBack(s: AgentSpec)
    requires Ready(s)
    ensures var v := Get(Values(s), "name");
      if NameReadsBack(s.name) then !Falsy(v) && ReadText(v, 64) == Success(s.name)
      else Falsy(v) || ReadText(v, 64) != Success(s.name)
  {
    hide Entries, EntriesOk, NestedEntries, ValuesOf, Values, ReadValue, Quoted, Strip, Tidy, SingleLine, IsName, IsModel, IsColor, IsTool;
    hide IsCapability, CaseFold, CanonicalCeiling, ListText, Decimal, Natural, AllDigits, Printable, ValidConstraints, Strs, ReadNames, Items;
    EntryList(s);
    FieldValue(s, 0);
    FieldNames();
    NameReads(s.name);
    NumberName(s.name);
  }

  lemma DescriptionBack(s: AgentSpec)
    requires Ready(s)
    ensures var v := Get(Values(s), "description");
      (Falsy(v) <==> s.description == "") && ReadText(v, 500) == Success(s.description)
  {
    hide Entries, EntriesOk, NestedEntries, ValuesOf, Values, ReadValue, Quoted, Strip, Tidy, SingleLine, IsName, IsModel, IsColor, IsTool;
    hide IsCapability, CaseFold, CanonicalCeiling, ListText, Decimal, Natural, AllDigits, ValidConstraints, Strs, ReadNames, Items;
    EntryList(s);
    FieldValue(s, 1);
    FieldNames();
    ReadQuoted(s.description);
    StripTrimmed(s.description);
  }

  lemma ModeBack(s: AgentSpec)
    requires Ready(s)
    ensures ReadText(Get(Values(s), "mode"), 16) == Success(s.mode) && s.mode != ""
  {
    hide Entries, EntriesOk, NestedEntries, ValuesOf, Values, ReadValue, Quoted, Strip, Tidy, SingleLine, IsName, IsModel, IsColor, IsTool;
    hide IsCapability, CaseFold, CanonicalCeiling, ListText, Decimal, Natural, AllDigits, Printable, ValidConstraints, Strs, ReadNames, Items;
    EntryList(s);
    FieldValue(s, 2);
    FieldNames();
    ModeReads(s.mode);
  }

  lemma ModelBack(s: AgentSpec)
    requires Ready(s)
    ensures ReadText(Get(Values(s), "model"), 200) == Success(s.model)
  {
    hide Entries, EntriesOk, NestedEntries, ValuesOf, Values, ReadValue, Quoted, Strip, Tidy, SingleLine, IsName, IsModel, IsColor, IsTool;
    hide IsCapability, CaseFold, CanonicalCeiling, ListText, Decimal, Natural, AllDigits, Printable, ValidConstraints, Strs, ReadNames, Items;
    EntryList(s);
    FieldValue(s, 3);
    FieldNames();
    if s.model != "" {
      ModelReads(s.model);
      ReadQuoted(s.model);
      StripTrimmed(s.model);
    }
  }

  lemma EffortBack(s: AgentSpec)
    requires Ready(s)
    ensures ReadText(Get(Values(s), "effort"), 16) == Success(s.effort) && CaseFold(s.effort) == s.effort
  {
    hide Entries, EntriesOk, NestedEntries, ValuesOf, Values, ReadValue, Quoted, Strip, Tidy, SingleLine, IsName, IsModel, IsColor, IsTool;
    hide IsCapability, CaseFold, CanonicalCeiling, ListText, Decimal, Natural, AllDigits, Printable, ValidConstraints, Strs, ReadNames, Items;
    EntryList(s);
    FieldValue(s, 4);
    FieldNames();
    EmptyFolds();
    if s.effort != "" { EffortReads(s.effort); }
  }

  lemma IdentityBack(s: AgentSpec)
    requires Ready(s)
    ensures s.description != "" && NameReadsBack(s.name) ==>
      ReadIdentity(Values(s)) == Success(Identity(s.name, s.description, s.mode, s.model, s.effort))
    ensures !(s.description != "" && NameReadsBack(s.name)) ==>
      ReadIdentity(Values(s)).Failure? || ReadIdentity(Values(s)).value.name != s.name
  {
    NameBack(s);
    DescriptionBack(s);
    ModeBack(s);
    ModelBack(s);
    EffortBack(s);
    hide Values, Get, ReadText, Falsy, IsName, IsModel, IsColor, CaseFold, NameReadsBack, Printable, EntriesOk, ValidConstraints;
  }

  lemma NumberBack(value: Option<FrontValue>, n: Option<int>, limit: int)
    requires n.Some? ==> 1 <= n.value <= limit
    requires n.Some? ==> ReadValue(Decimal(n.value)) == Success(One(Int(n.value)))
    requires value == if n.Some? then Some(ReadValue(Decimal(n.value)).value) else None
    ensures ReadNumber(value, limit) == Success(n)
  {
    hide Decimal, ReadValue;
  }

  lemma ReachBack(s: AgentSpec)
    requires Ready(s)
    ensures ReadReach(Values(s)) == Success(Reach(s.context, s.tools, s.capabilities, s.maxSteps))
  {
    FieldNames();
    ContextBack(s);
    StepsBack(s);
    ToolsBack(s);
    CapabilitiesBack(s);
    hide Values, Get, ReadNumber, ReadEntries, Ready;
  }

  lemma ContextBack(s: AgentSpec)
    requires Ready(s)
    ensures ReadNumber(Get(Values(s), "context"), MAX_CONTEXT) == Success(s.context)
  {
    hide Entries, EntriesOk, NestedEntries, ValuesOf, Values, ReadValue, Quoted, Strip, Tidy, SingleLine, IsName, IsModel, IsColor, IsTool;
    hide IsCapability, CaseFold, CanonicalCeiling, ListText, Decimal, Natural, AllDigits, Printable, ValidConstraints, Strs, ReadNames, Items;
    EntryList(s);
    FieldValue(s, 5);
    FieldNames();
    if s.context.Some? { NumberReads(s.context.value); }
    NumberBack(Get(Values(s), "context"), s.context, MAX_CONTEXT);
  }

  lemma StepsBack(s: AgentSpec)
    requires Ready(s)
    ensures ReadNumber(Get(Values(s), "max_steps"), 1000) == Success(s.maxSteps)
  {
    hide Entries, EntriesOk, NestedEntries, ValuesOf, Values, ReadValue, Quoted, Strip, Tidy, SingleLine, IsName, IsModel, IsColor, IsTool;
    hide IsCapability, CaseFold, CanonicalCeiling, ListText, Decimal, Natural, AllDigits, Printable, ValidConstraints, Strs, ReadNames, Items;
    EntryList(s);
    FieldValue(s, 9);
    FieldNames();
    if s.maxSteps.Some? { NumberReads(s.maxSteps.value); }
    NumberBack(Get(Values(s), "max_steps"), s.maxSteps, 1000);
  }

  lemma ToolsBack(s: AgentSpec)
    requires Ready(s)
    ensures ReadEntries(Get(Values(s), "tools"), IsTool) == Success(s.tools)
  {
    hide Entries, EntriesOk, NestedEntries, ValuesOf, Values, ReadValue, Quoted, Strip, Tidy, SingleLine, IsName, IsModel, IsColor, IsTool;
    hide IsCapability, CaseFold, CanonicalCeiling, ListText, Decimal, Natural, AllDigits, Printable, ValidConstraints, Strs, ReadNames, Items;
    EntryList(s);
    FieldValue(s, 7);
    FieldNames();
    if s.tools.Some? {
      ToolsOk(s.tools.value);
      ListReads(s.tools.value);
    }
  }

  lemma CapabilitiesBack(s: AgentSpec)
    requires Ready(s)
    ensures ReadEntries(Get(Values(s), "capabilities"), IsCapability) == Success(s.capabilities)
  {
    hide Entries, EntriesOk, NestedEntries, ValuesOf, Values, ReadValue, Quoted, Strip, Tidy, SingleLine, IsName, IsModel, IsColor, IsTool;
    hide IsCapability, CaseFold, CanonicalCeiling, ListText, Decimal, Natural, AllDigits, Printable, ValidConstraints, Strs, ReadNames, Items;
    EntryList(s);
    FieldValue(s, 8);
    FieldNames();
    if s.capabilities.Some? {
      CapabilitiesOk(s.capabilities.value);
      ListReads(s.capabilities.value);
    }
  }

  lemma CeilingBack(s: AgentSpec)
    requires Ready(s)
    ensures ReadText(Get(Values(s), "ceiling"), 16) == Success(s.ceiling)
    ensures s.ceiling != "" ==> CanonicalCeiling(s.ceiling) == s.ceiling
  {
    hide Entries, EntriesOk, NestedEntries, ValuesOf, Values, ReadValue, Quoted, Strip, Tidy, SingleLine, IsName, IsModel, IsColor, IsTool;
    hide IsCapability, CaseFold, CanonicalCeiling, ListText, Decimal, Natural, AllDigits, Printable, ValidConstraints, Strs, ReadNames, Items;
    EntryList(s);
    FieldValue(s, 10);
    FieldNames();
    if s.ceiling != "" { CeilingReads(s.ceiling); }
  }

  lemma ColorBack(s: AgentSpec)
    requires Ready(s)
    ensures if ColorReadsBack(s.color) then ReadText(Get(Values(s), "color"), 32) == Success(s.color)
            else ReadText(Get(Values(s), "color"), 32).Failure?
    ensures s.color == "" ==> ColorReadsBack(s.color)
  {
    hide Entries, EntriesOk, NestedEntries, ValuesOf, Values, ReadValue, Quoted, Strip, Tidy, SingleLine, IsName, IsModel, IsColor, IsTool;
    hide IsCapability, CaseFold, CanonicalCeiling, ListText, Decimal, Natural, AllDigits, Printable, ValidConstraints, Strs, ReadNames, Items;
    EntryList(s);
    FieldValue(s, 11);
    FieldNames();
    if s.color != "" {
      ColorReads(s.color);
      ColorLength(s.color);
    }
  }

  lemma ColorLength(color: string)
    requires IsColor(color)
    ensures 1 <= |color| <= 32
  {
  }

  lemma FlagsBack(s: AgentSpec)
    requires Ready(s)
    ensures ReadFlag(Get(Values(s), "hidden")) == Success(s.hidden)
    ensures ReadFlag(Get(Values(s), "override")) == Success(s.override)
    ensures ReadOutput(Get(Values(s), "output")) == Success(None)
  {
    hide Entries, EntriesOk, NestedEntries, ValuesOf, Values, ReadValue, Quoted, Strip, Tidy, SingleLine, IsName, IsModel, IsColor, IsTool;
    hide IsCapability, CaseFold, CanonicalCeiling, ListText, Decimal, Natural, AllDigits, ValidConstraints, Strs, ReadNames, Items;
    EntryList(s);
    FieldValue(s, 12);
    FieldValue(s, 13);
    FieldValue(s, 6);
    FieldNames();
    TrueReads();
  }

  lemma LookBack(s: AgentSpec)
    requires Ready(s)
    ensures if ColorReadsBack(s.color) then
        ReadLook(Values(s)) == Success(Look(s.ceiling, s.color, s.hidden, s.override, s.output))
      else ReadLook(Values(s)).Failure?
  {
    CeilingBack(s);
    ColorBack(s);
    FlagsBack(s);
    hide Values, Get, ReadText, ReadFlag, ReadOutput, CanonicalCeiling, IsName, IsModel, IsColor, CaseFold, EntriesOk;
    hide ColorReadsBack, ValidConstraints;
  }

  lemma EmptyFolds()
    ensures CaseFold("") == ""
  {
  }

  lemma FieldNames()
    ensures FIELDS[0] == "name" && FIELDS[1] == "description" && FIELDS[2] == "mode" && FIELDS[3] == "model"
    ensures FIELDS[4] == "effort" && FIELDS[5] == "context" && FIELDS[6] == "output" && FIELDS[7] == "tools"
    ensures FIELDS[8] == "capabilities" && FIELDS[9] == "max_steps" && FIELDS[10] == "ceiling" && FIELDS[11] == "color"
    ensures FIELDS[12] == "hidden" && FIELDS[13] == "override" && FIELDS[14] == PERMISSIONS
  {
  }

  /** A name of digits: the number it reads as prints as the name exactly when the name has no leading zero. */
  lemma NumberName(name: string)
    requires IsName(name)
    ensures AllDigits(name) && name[0] != '0' ==> Natural(name) > 0 && Decimal(Natural(name)) == name
    ensures AllDigits(name) && name[0] == '0' ==> Natural(name) == 0 || Decimal(Natural(name)) != name
    ensures |name| <= 64
  {
    if AllDigits(name) {
      DigitsAreDigits(Natural(name));
      if name[0] != '0' { DigitsOfNatural(name); }
    }
  }

  // ---------- the law ----------

  lemma KeysKnown(s: AgentSpec, key: string)
    requires Ready(s) && key in Values(s)
    ensures key in FIELDS
  {
    FieldNames();
    if key != PERMISSIONS {
      hide ValidSpec, Printable, EntriesOk, NestedEntries, ValuesOf, Entries;
      ValuesKeys(Entries(s), key);
      EntryKeys(s, 0);
      var i :| 0 <= i < 14 && Entries(s)[i].key == key;
      EntryKeys(s, i);
    } else {
      assert FIELDS[14] == key;
    }
  }

  lemma PermissionsGot(s: AgentSpec)
    requires Ready(s)
    ensures ReadPermissions(Get(Values(s), PERMISSIONS)) == Success(s.permissions)
  {
    if s.permissions.Some? {
      var c := s.permissions.value;
      if c.workspacePaths.Some? { PathItems(s); }
      PermissionsBack(c);
      hide ValidSpec, Printable, EntriesOk, NestedEntries, ValuesOf, Entries, ReadPermissions;
    } else {
      hide ValidSpec, Printable, EntriesOk, ValuesOf, Entries, KeyRank, KeyCode;
      if PERMISSIONS in ValuesOf(Entries(s)) { PermissionsIsNoEntry(s); }
    }
  }

  lemma PermissionsIsNoEntry(s: AgentSpec)
    requires EntriesOk(Entries(s))
    ensures PERMISSIONS !in ValuesOf(Entries(s))
  {
    hide EntriesOk, ValuesOf, Entries, KeyRank, KeyCode;
    EntryKeys(s, 0);
    forall i | 0 <= i < 14 ensures Entries(s)[i].key != PERMISSIONS {
      EntryKeys(s, i);
      FieldRank(i);
      FieldRank(14);
      FieldNames();
    }
    OtherKeys(Entries(s), PERMISSIONS);
  }

  /** Validation gives the definition back exactly when its description is not empty and its name and colour read
      as text. */
  lemma AssembleBack(s: AgentSpec)
    requires Ready(s)
    ensures Assemble(Values(s), s.prompt) == Success(s) <==>
      s.description != "" && NameReadsBack(s.name) && ColorReadsBack(s.color)
  {
    IdentityBack(s);
    ReachBack(s);
    LookBack(s);
    PermissionsGot(s);
    forall key | key in Values(s) ensures key in FIELDS { KeysKnown(s, key); }
    hide Values, ReadIdentity, ReadReach, ReadLook, ReadPermissions, Get, NameReadsBack, ColorReadsBack, Printable, EntriesOk;
    hide IsName, IsColor, IsModel, CaseFold, ValidConstraints;
  }

  lemma FrontReads(s: AgentSpec, readSchema: SchemaReader)
    requires Ready(s)
    ensures ReadFront(FrontLines(s), readSchema) == Success(FrontState(Values(s), Closed, 0, s.permissions.Some?))
  {
    hide Entries, NestedEntries, ValidSpec, Printable, EntriesOk, ValuesOf, ReadFront, EntryLines;
    TopLinesRead(Entries(s), readSchema);
    var top := EntryLines("", Entries(s));
    if s.permissions.Some? {
      PermissionsIsNoEntry(s);
      NestedLinesRead(top, ValuesOf(Entries(s)), NestedEntries(s.permissions.value), readSchema);
      assert top + [PERMISSIONS + ":"] + EntryLines("  ", NestedEntries(s.permissions.value)) ==
        top + ([PERMISSIONS + ":"] + EntryLines("  ", NestedEntries(s.permissions.value)));
    } else {
      assert top + [] == top;
    }
  }

  lemma LineIsFrontLine(indent: string, key: string, tail: string)
    requires KeyWord(key) && (indent == "" || indent == "  ") && tail != "" && !IsSpace(tail[|tail| - 1]) && SingleLine(tail)
    ensures FrontLine(indent + key + tail)
  {
    LineShape(indent, key, tail);
    forall i | 0 <= i < |key| ensures !IsBreak(key[i]) { KeyCharIsPlain(key[i]); }
    assert (key + tail)[0] == key[0] && FENCE[0] == '-';
    hide Strip, KeyWord, IsSpace;
    assert KeyStart(key[0]) by { KeyStarts(key); }
    SpacesSingle();
    SingleAppend(indent, key);
    SingleAppend(indent + key, tail);
  }

  lemma KeyStarts(key: string)
    requires KeyWord(key)
    ensures key != "" && KeyStart(key[0])
  {
  }

  lemma SpacesSingle()
    ensures SingleLine("") && SingleLine("  ") && SingleLine(": ") && SingleLine(":")
  {
  }

  lemma EntryIsFrontLine(indent: string, e: Entry)
    requires KeyWord(e.key) && TextOk(e) && e.present && (indent == "" || indent == "  ")
    ensures FrontLine(indent + e.key + ": " + e.text)
  {
    var tail := ": " + e.text;
    hide HashFree, IsSpace, SingleLine, ReadValue, KeyWord, FrontLine;
    SpacesSingle();
    SingleAppend(": ", e.text);
    assert tail[|tail| - 1] == e.text[|e.text| - 1];
    LineIsFrontLine(indent, e.key, tail);
    assert indent + e.key + tail == indent + e.key + ": " + e.text;
  }

  lemma {:induction false} EntryLinesAreFront(indent: string, entries: seq<Entry>, i: nat)
    requires (indent == "" || indent == "  ") && i < |EntryLines(indent, entries)|
    requires forall k | 0 <= k < |entries| :: KeyWord(entries[k].key) && TextOk(entries[k])
    ensures FrontLine(EntryLines(indent, entries)[i])
  {
    hide KeyWord, TextOk, FrontLine;
    if entries != [] {
      var rest, last := entries[..|entries| - 1], entries[|entries| - 1];
      if i < |EntryLines(indent, rest)| {
        EntryLinesAreFront(indent, rest, i);
      } else {
        EntryIsFrontLine(indent, last);
      }
    }
  }

  lemma FrontLinesAreFront(s: AgentSpec, i: nat)
    requires Ready(s) && i < |FrontLines(s)|
    ensures FrontLine(FrontLines(s)[i])
  {
    hide KeyWord, TextOk, FrontLine, Entries, NestedEntries, EntryLines, Printable, ValidSpec, EntriesOk;
    var top := EntryLines("", Entries(s));
    if i < |top| {
      forall k | 0 <= k < |Entries(s)| ensures KeyWord(Entries(s)[k].key) && TextOk(Entries(s)[k]) {
        EntryKeys(s, 0);
        EntryKeys(s, k);
        FieldsAreKeys(k);
        EntryTexts(s, k);
      }
      EntryLinesAreFront("", Entries(s), i);
    } else if i == |top| {
      PermissionsFront();
    } else {
      NestedFront(s.permissions.value, i - |top| - 1) by { NestedPaths(s); }
    }
  }

  lemma NestedPaths(s: AgentSpec)
    requires Ready(s) && s.permissions.Some?
    ensures ValidConstraints(s.permissions.value)
    ensures s.permissions.value.workspacePaths.Some? ==> Items(s.permissions.value.workspacePaths.value)
  {
    if s.permissions.value.workspacePaths.Some? { PathItems(s); }
  }

  lemma PermissionsFront()
    ensures FrontLine(PERMISSIONS + ":")
  {
    FieldNames();
    FieldsAreKeys(14);
    ColonIsNotSpace();
    SpacesSingle();
    hide KeyWord, IsSpace, SingleLine, FrontLine;
    LineIsFrontLine("", PERMISSIONS, ":");
    assert "" + PERMISSIONS + ":" == PERMISSIONS + ":";
  }

  lemma NestedFront(c: Constraints, i: nat)
    requires ValidConstraints(c) && (c.workspacePaths.Some? ==> Items(c.workspacePaths.value))
    requires i < |EntryLines("  ", NestedEntries(c))|
    ensures FrontLine(EntryLines("  ", NestedEntries(c))[i])
  {
    hide KeyWord, TextOk, FrontLine, NestedEntries, EntryLines, ValidConstraints, Items;
    NestedTexts(c, 0);
    forall k | 0 <= k < |NestedEntries(c)| ensures KeyWord(NestedEntries(c)[k].key) && TextOk(NestedEntries(c)[k]) {
      NestedTexts(c, k);
    }
    EntryLinesAreFront("  ", NestedEntries(c), i);
  }

  /** A valid definition of printable texts with sealed paths reads back from its rendering exactly when its description
      is not empty, its name is no boolean and no number with a leading zero, and its colour is no boolean. */
  lemma SealedReadsBack(s: AgentSpec, readSchema: SchemaReader)
    requires Ready(s)
    ensures Parse(Render(s), readSchema) == Success(s) <==>
      s.description != "" && NameReadsBack(s.name) && ColorReadsBack(s.color)
  {
    AssembleBack(s);
    FrontReads(s, readSchema);
    forall i | 0 <= i < |FrontLines(s)| ensures FrontLine(FrontLines(s)[i]) { FrontLinesAreFront(s, i); }
    PromptFacts(s);
    hide *;
    RenderIs(s);
    SplitRendered(Render(s), FrontLines(s), s.prompt);
    ParseIs(Render(s), FrontLines(s), s.prompt, readSchema);
  }

  lemma PromptFacts(s: AgentSpec)
    requires Ready(s)
    ensures Trimmed(s.prompt) && OnlyNewlines(s.prompt)
  {
  }

  lemma ParseIs(text: string, front: seq<string>, body: string, readSchema: SchemaReader)
    requires Split(text) == Success(Parts(front, body)) && ReadFront(front, readSchema).Success?
    ensures Parse(text, readSchema) == Assemble(ReadFront(front, readSchema).value.values, body)
  {
    hide Split, ReadFront, Assemble;
  }
}
