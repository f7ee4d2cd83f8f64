/** The law of the renderer: which definitions `parse_definition` reads back from `render_definition`, whatever their
    workspace paths are; and texts in which a line is dropped without an error. */
module DefinitionsLaw {

  import opened Wrappers
  import opened Text
  import opened Frontmatter
  import opened Definitions
  import opened FrontmatterRoundTrip
  import opened DefinitionsRoundTrip
  import opened ListReadBack
  import opened DefinitionsReadBack

  const PATHS := "workspace_paths"

  ghost predicate HasPaths(s: AgentSpec) {
    s.permissions.Some? && s.permissions.value.workspacePaths.Some?
  }

  /** The definition with other paths, or with none. */
  function WithPaths(s: AgentSpec, paths: Option<seq<string>>): AgentSpec
    requires s.permissions.Some?
  {
    s.(permissions := Some(s.permissions.value.(workspacePaths := paths)))
  }

  function PathsText(s: AgentSpec): string
    requires HasPaths(s)
  {
    ListText(s.permissions.value.workspacePaths.value)
  }

  // ---------- the line of the paths ----------

  lemma WithoutIsReady(s: AgentSpec)
    requires ValidSpec(s) && Printable(s) && s.permissions.Some?
    ensures Ready(WithPaths(s, None))
  {
    hide EntriesOk, IsName, IsModel, IsColor, IsTool, IsCapability, CaseFold, Trimmed, NoDoubleQuote, SingleLine, OnlyNewlines;
    IsReady(WithPaths(s, None));
  }

  /** The paths are the last line of the frontmatter. */
  lemma PathsComeLast(s: AgentSpec)
    requires HasPaths(s)
    ensures FrontLines(s) == FrontLines(WithPaths(s, None)) + ["  " + PATHS + ": " + PathsText(s)]
  {
    var c, bare := s.permissions.value, WithPaths(s, None).permissions.value;
    LastNested(c);
    LastNested(bare);
    assert Entries(WithPaths(s, None)) == Entries(s);
    assert NestedEntries(c)[..3] == NestedEntries(bare)[..3];
    hide Entries, NestedEntries, EntryLines, ListText;
    var top, rest := EntryLines("", Entries(s)), EntryLines("  ", NestedEntries(c)[..3]);
    var line := "  " + PATHS + ": " + PathsText(s);
    assert top + ([PERMISSIONS + ":"] + (rest + [line])) == top + ([PERMISSIONS + ":"] + rest) + [line];
  }

  lemma LastNested(c: Constraints)
    ensures |NestedEntries(c)| == 4
    ensures EntryLines("  ", NestedEntries(c)) == EntryLines("  ", NestedEntries(c)[..3]) +
      if c.workspacePaths.Some? then ["  " + PATHS + ": " + ListText(c.workspacePaths.value)] else []
  {
    hide Sorted, ListText;
  }

  /** The state before that line. */
  lemma StateBefore(s: AgentSpec, readSchema: SchemaReader)
    requires ValidSpec(s) && Printable(s) && s.permissions.Some?
    ensures Ready(WithPaths(s, None))
    ensures var st := FrontState(Values(WithPaths(s, None)), Closed, 0, true);
      && ReadFront(FrontLines(WithPaths(s, None)), readSchema) == Success(st)
      && EntriesOk(NestedEntries(WithPaths(s, None).permissions.value))
      && NestedFields(st) == ValuesOf(NestedEntries(WithPaths(s, None).permissions.value))
      && PATHS !in NestedFields(st)
  {
    WithoutIsReady(s);
    FrontReads(WithPaths(s, None), readSchema);
    var c := WithPaths(s, None).permissions.value;
    NoPathsEntry(c);
    hide Entries, NestedEntries, EntriesOk, ValidSpec, Printable, ReadFront, ValuesOf;
  }

  lemma NoPathsEntry(c: Constraints)
    requires EntriesOk(NestedEntries(c)) && c.workspacePaths.None?
    ensures PATHS !in ValuesOf(NestedEntries(c))
  {
    assert |NestedEntries(c)| == 4 && NestedEntries(c)[3].key == PATHS && !NestedEntries(c)[3].present;
    hide EntriesOk, NestedEntries, ValuesOf;
    ValueAt(NestedEntries(c), 3);
  }

  // ---------- comments in a list ----------

  lemma CommentAfterBracket(text: string)
    requires text != "" && text[0] == '['
    ensures CommentStart(" " + text, true, None) >= 2
  {
    assert (" " + text)[1..] == text;
    hide IsSpace;
    assert CommentStart(" " + text, true, None) == 1 + CommentStart(text, IsSpace(' '), None);
    assert CommentStart(text, IsSpace(' '), None) == 1 + CommentStart(text[1..], IsSpace('['), None);
  }

  /** A list that loses its end to a comment keeps the blank before its bracket, and is refused. */
  lemma CutListFails(cut: string)
    requires |cut| >= 2 && cut[0] == ' ' && cut[1] == '['
    ensures RStrip(cut) != "" && ReadValue(RStrip(cut)).Failure?
  {
    BracketIsNotSpace();
    RStripKeeps(cut, 2);
    var r := RStrip(cut);
    assert r[0] == r[..2][0] == ' ' && r[1] == r[..2][1] == '[';
    assert r == " " + r[1..];
    LeadGone(r[1..], " ");
    RStripKeeps(r[1..], 1);
    StripIs(" ", r[1..]);
    var value := RStrip(r[1..]);
    assert value[0] == value[..1][0] == '[';
    MarkedFails(r);
    hide ReadScalar;
  }

  lemma BracketIsNotSpace()
    ensures !IsSpace('[') && !IsSpace(']') && IsSpace(' ')
  {
  }

  lemma MarkedFails(raw: string)
    requires Strip(raw) != "" && Strip(raw)[0] == '['
    ensures ReadScalar(raw).Failure?
  {
    var value := Strip(raw);
    assert value != "true" && value != "false" by { assert "true"[0] == 't' && "false"[0] == 'f'; }
    assert !IsInteger(value);
    hide Strip, IsInteger;
  }

  /** What follows the key of a list is read as the list stands, or is refused. */
  lemma ListLineValue(items: seq<string>)
    ensures var text := ListText(items);
      && text != "" && text[0] == '[' && !IsSpace(text[|text| - 1]) && StripComment(" " + text) != ""
      && (LineValue(text).Failure? || LineValue(text) == ReadValue(text))
      && (HashFree(text, None) ==> LineValue(text) == ReadValue(text))
  {
    var text := ListText(items);
    BracketIsNotSpace();
    hide Listed, ReadValue, IsSpace;
    assert text[0] == '[' && text[|text| - 1] == ']';
    assert Trimmed(text);
    CommentAfterBracket(text);
    var value := " " + text;
    var n := CommentStart(value, true, None);
    if n < |value| {
      var cut := value[..n];
      assert cut[0] == ' ' && cut[1] == text[0];
      CutListFails(cut);
      if HashFree(text, None) { TidyRest(text); }
    } else {
      StripIndented(text);
    }
  }

  // ---------- what a rendering reads as ----------

  /** The values that the rendered lines stand for when the paths read as `value`. */
  ghost function ValuesWith(s: AgentSpec, value: FrontValue): map<string, FrontValue>
    requires s.permissions.Some? && Ready(WithPaths(s, None))
  {
    var bare := WithPaths(s, None);
    Values(bare)[PERMISSIONS := Nested(ValuesOf(NestedEntries(bare.permissions.value))[PATHS := value])]
  }

  lemma FrontWithPaths(s: AgentSpec, readSchema: SchemaReader)
    requires ValidSpec(s) && Printable(s) && HasPaths(s)
    ensures Ready(WithPaths(s, None))
    ensures match LineValue(PathsText(s))
      case Failure(e) => ReadFront(FrontLines(s), readSchema) == Failure(e)
      case Success(v) =>
        && ReadFront(FrontLines(s), readSchema).Success?
        && ReadFront(FrontLines(s), readSchema).value.values == ValuesWith(s, v)
  {
    StateBefore(s, readSchema);
    PathsComeLast(s);
    ListLineValue(s.permissions.value.workspacePaths.value);
    PathsIsKey();
    var bare := WithPaths(s, None);
    var st := FrontState(Values(bare), Closed, 0, true);
    var text := PathsText(s);
    hide *;
    NestedLineIs(st, PATHS, text, readSchema);
    FrontSnoc(FrontLines(bare), "  " + PATHS + ": " + text, readSchema);
    ValuesWithIs(s, st);
  }

  lemma PathsIsKey()
    ensures KeyWord(PATHS)
  {
  }

  lemma ValuesWithIs(s: AgentSpec, st: FrontState)
    requires s.permissions.Some? && Ready(WithPaths(s, None)) && st.values == Values(WithPaths(s, None))
    requires NestedFields(st) == ValuesOf(NestedEntries(WithPaths(s, None).permissions.value))
    ensures forall v :: ValuesWith(s, v) == st.values[PERMISSIONS := Nested(NestedFields(st)[PATHS := v])]
  {
    hide Ready, Values, NestedEntries, ValuesOf, NestedFields;
  }

  lemma PathsSingleLine(s: AgentSpec)
    requires Printable(s) && HasPaths(s)
    ensures SingleLine(PathsText(s))
  {
    var items := s.permissions.value.workspacePaths.value;
    forall i | 0 <= i < |items| ensures Clean(items[i]) && SingleLine(items[i]) { assert items[i] in items; }
    hide SingleLine, Clean, Listed;
    ListedSingleLine(items);
    BracketsSingle();
    SingleAppend("[", Listed(items));
    SingleAppend("[" + Listed(items), "]");
  }

  lemma BracketsSingle()
    ensures SingleLine("[") && SingleLine("]") && SingleLine(": ")
  {
  }

  lemma PathLineIsFront(s: AgentSpec)
    requires Printable(s) && HasPaths(s)
    ensures FrontLine("  " + PATHS + ": " + PathsText(s))
  {
    var text := PathsText(s);
    PathsSingleLine(s);
    ListLineValue(s.permissions.value.workspacePaths.value);
    PathsIsKey();
    BracketsSingle();
    hide *;
    SingleAppend(": ", text);
    var tail := ": " + text;
    assert tail[|tail| - 1] == text[|text| - 1];
    LineIsFrontLine("  ", PATHS, tail);
    assert "  " + PATHS + tail == "  " + PATHS + ": " + text;
  }

  lemma AllFrontLines(s: AgentSpec)
    requires ValidSpec(s) && Printable(s) && HasPaths(s)
    ensures forall i | 0 <= i < |FrontLines(s)| :: FrontLine(FrontLines(s)[i])
  {
    var bare := WithPaths(s, None);
    WithoutIsReady(s);
    PathsComeLast(s);
    PathLineIsFront(s);
    hide *;
    forall i | 0 <= i < |FrontLines(s)| ensures FrontLine(FrontLines(s)[i]) {
      if i < |FrontLines(bare)| { FrontLinesAreFront(bare, i); }
    }
  }

  /** A rendering is read by its paths alone: they decide between a refusal and the validation of the other fields, which
      read back as they are, with these paths. */
  lemma PathsDecide(s: AgentSpec, readSchema: SchemaReader)
    requires ValidSpec(s) && Printable(s) && HasPaths(s)
    ensures Ready(WithPaths(s, None))
    ensures Parse(Render(s), readSchema) ==
      match LineValue(PathsText(s))
      case Failure(e) => Failure(e)
      case Success(v) => Assemble(ValuesWith(s, v), s.prompt)
  {
    assert Trimmed(s.prompt) && OnlyNewlines(s.prompt);
    hide *;
    FrontWithPaths(s, readSchema);
    AllFrontLines(s);
    RenderIs(s);
    SplitRendered(Render(s), FrontLines(s), s.prompt);
    ParseOf(Render(s), FrontLines(s), s.prompt, readSchema);
  }

  lemma ParseOf(text: string, front: seq<string>, body: string, readSchema: SchemaReader)
    requires Split(text) == Success(Parts(front, body))
    ensures Parse(text, readSchema) ==
      match ReadFront(front, readSchema)
      case Failure(e) => Failure(e)
      case Success(st) => Assemble(st.values, body)
  {
    hide Split, ReadFront, Assemble;
  }

  // ---------- the law ----------

  /** Validation takes the paths from their line. */
  lemma PathsFromAssemble(values: map<string, FrontValue>, fields: map<string, FrontValue>, body: string, s: AgentSpec)
    requires Get(values, PERMISSIONS) == Some(Nested(fields)) && PATHS in fields && HasPaths(s)
    requires Assemble(values, body) == Success(s)
    ensures ReadNames(fields[PATHS]) == Success(s.permissions.value.workspacePaths.value)
  {
    AssembledPermissions(values, body);
    hide ReadPermission, ReadNames, IsTool, IsCapability, IsPath, Assemble;
  }

  lemma AssembledPermissions(values: map<string, FrontValue>, body: string)
    requires Assemble(values, body).Success?
    ensures ReadPermissions(Get(values, PERMISSIONS)) == Success(Assemble(values, body).value.permissions)
  {
    hide ReadPermissions, ReadIdentity, ReadReach, ReadLook;
  }

  lemma ValuesWithGet(s: AgentSpec, v: FrontValue) returns (fields: map<string, FrontValue>)
    requires s.permissions.Some? && Ready(WithPaths(s, None))
    ensures Get(ValuesWith(s, v), PERMISSIONS) == Some(Nested(fields)) && PATHS in fields && fields[PATHS] == v
  {
    hide ValidSpec, Printable, PathsReadBack, EntriesOk, Values, NestedEntries, ValuesOf;
    fields := ValuesOf(NestedEntries(WithPaths(s, None).permissions.value))[PATHS := v];
  }

  /** Only sealed paths come back. */
  lemma UnsealedPathsChange(s: AgentSpec, readSchema: SchemaReader)
    requires ValidSpec(s) && Printable(s) && Parse(Render(s), readSchema) == Success(s)
    ensures PathsReadBack(s)
  {
    if HasPaths(s) {
      CleanPaths(s);
      hide *;
      PathsDecide(s, readSchema);
      var paths := s.permissions.value.workspacePaths.value;
      ListLineValue(paths);
      TextOfPaths(s);
      var v := LineValue(PathsText(s)).value;
      var fields := ValuesWithGet(s, v);
      PathsFromAssemble(ValuesWith(s, v), fields, s.prompt, s);
      GivenBack(v, paths);
      ListReadsBackExactly(paths);
      AllSealable(s);
    }
  }

  lemma CleanPaths(s: AgentSpec)
    requires Printable(s) && HasPaths(s)
    ensures var paths := s.permissions.value.workspacePaths.value; forall i | 0 <= i < |paths| :: Clean(paths[i])
  {
    hide Clean, SingleLine;
    var paths := s.permissions.value.workspacePaths.value;
    forall i | 0 <= i < |paths| ensures Clean(paths[i]) { assert paths[i] in paths; }
  }

  lemma TextOfPaths(s: AgentSpec)
    requires HasPaths(s)
    ensures PathsText(s) == ListText(s.permissions.value.workspacePaths.value)
  {
  }

  lemma GivenBack(v: FrontValue, items: seq<string>)
    requires ReadNames(v) == Success(items)
    ensures GivesBack(Success(v), items)
  {
  }

  lemma AllSealable(s: AgentSpec)
    requires HasPaths(s)
    requires var paths := s.permissions.value.workspacePaths.value; forall i | 0 <= i < |paths| :: Sealable(paths[i])
    ensures PathsReadBack(s)
  {
    hide Sealable;
  }

  /** The round trip: a valid definition of printable texts reads back from its rendering exactly when its description is
      not empty, its name is no boolean and no number with a leading zero, its colour is no boolean, and none of its paths
      that is rendered bare has a comma outside apostrophes or an apostrophe left open. */
  lemma ReadsBackExactly(s: AgentSpec, readSchema: SchemaReader)
    requires ValidSpec(s) && Printable(s)
    ensures Parse(Render(s), readSchema) == Success(s) <==>
      s.description != "" && NameReadsBack(s.name) && ColorReadsBack(s.color) && PathsReadBack(s)
  {
    hide *;
    if PathsReadBack(s) {
      IsReady(s);
      SealedReadsBack(s, readSchema);
    } else if Parse(Render(s), readSchema) == Success(s) {
      UnsealedPathsChange(s, readSchema);
    }
  }

  // ---------- paths that do not come back ----------

  /** Paths that are written like other names are read as those. */
  lemma PathsReadAs(s: AgentSpec, names: seq<string>, readSchema: SchemaReader)
    requires ValidSpec(s) && Printable(s) && HasPaths(s) && ValidSpec(WithPaths(s, Some(names))) && Printable(WithPaths(s, Some(names)))
    requires LineValue(PathsText(s)) == LineValue(ListText(names))
    ensures Parse(Render(s), readSchema) == Parse(Render(WithPaths(s, Some(names))), readSchema)
  {
    var other := WithPaths(s, Some(names));
    assert HasPaths(other) && WithPaths(other, None) == WithPaths(s, None) && other.prompt == s.prompt && PathsText(other) == ListText(names);
    hide *;
    PathsDecide(s, readSchema);
    PathsDecide(other, readSchema);
    SameValuesWith(s, other);
  }

  lemma SameValuesWith(s: AgentSpec, other: AgentSpec)
    requires s.permissions.Some? && other.permissions.Some? && WithPaths(other, None) == WithPaths(s, None) && Ready(WithPaths(s, None))
    ensures forall v :: ValuesWith(other, v) == ValuesWith(s, v)
  {
    hide Ready, Values, NestedEntries, ValuesOf;
  }

  ghost predicate HasOnlyPaths(s: AgentSpec, paths: seq<string>) {
    ValidSpec(s) && Printable(s) && HasPaths(s) && s.permissions.value.workspacePaths.value == paths
  }

  /** A path with a comma comes back as two. */
  lemma CommaSplitsPaths(s: AgentSpec, readSchema: SchemaReader)
    requires HasOnlyPaths(s, ["a,b"]) && s.description != "" && NameReadsBack(s.name) && ColorReadsBack(s.color)
    ensures Parse(Render(s), readSchema) == Success(WithPaths(s, Some(["a", "b"])))
  {
    var split := WithPaths(s, Some(["a", "b"]));
    SplitIsPrintable(s);
    CommaReadsAsTwo();
    PathsFixed(s, ["a,b"]);
    hide *;
    PathsReadAs(s, ["a", "b"], readSchema);
    SplitReadsBack(s);
    ReadsBackExactly(split, readSchema);
  }

  lemma PathsFixed(s: AgentSpec, paths: seq<string>)
    requires HasOnlyPaths(s, paths)
    ensures ValidSpec(s) && Printable(s) && HasPaths(s) && PathsText(s) == ListText(paths)
  {
    hide ValidSpec, Printable, ListText;
  }

  lemma SplitIsPrintable(s: AgentSpec)
    requires HasOnlyPaths(s, ["a,b"])
    ensures s.permissions.Some? && ValidSpec(WithPaths(s, Some(["a", "b"]))) && Printable(WithPaths(s, Some(["a", "b"])))
  {
    hide IsName, IsModel, IsColor, IsTool, IsCapability, CaseFold, OnlyNewlines;
    LettersAreClean();
    hide Clean, SingleLine, Trimmed, NoDoubleQuote;
  }

  lemma LettersAreClean()
    ensures Clean("a") && Clean("b") && SingleLine("a") && SingleLine("b") && Sealable("a") && Sealable("b")
    ensures IsPath("a") && IsPath("b")
  {
    NoMarksSealed("a");
    NoMarksSealed("b");
  }

  lemma SplitReadsBack(s: AgentSpec)
    requires s.permissions.Some?
    ensures var split := WithPaths(s, Some(["a", "b"]));
      && PathsReadBack(split) && split.description == s.description && split.name == s.name && split.color == s.color
  {
    LettersAreClean();
    hide Sealable;
  }

  lemma PlainComma()
    ensures Quoted("a,b") == "a,b" && Quoted("a") == "a" && Quoted("b") == "b"
  {
    StripTrimmed("a,b");
    StripTrimmed("a");
    StripTrimmed("b");
    hide Strip;
    assert |"true"| == 4 && |"false"| == 5;
    assert Plain("a,b");
    assert Plain("a");
    assert Plain("b");
  }

  lemma CommaTexts()
    ensures ListText(["a,b"]) == "[a,b]" && ListText(["a", "b"]) == "[a, b]"
  {
    PlainComma();
    hide Quoted;
    assert ["a", "b"][1..] == ["b"];
  }

  lemma CommaReadsAsTwo()
    ensures LineValue(ListText(["a,b"])) == LineValue(ListText(["a", "b"]))
  {
    hide *;
    CommaTexts();
    CommaValue();
    TwoLetters();
    BareListValue(["a,b"], "[a,b]");
    BareListValue(["a", "b"], "[a, b]");
  }

  lemma TwoLetters()
    ensures ReadValue(ListText(["a", "b"])) == Success(Many([Str("a"), Str("b")]))
  {
    LettersAreClean();
    hide ReadValue, ListText, Clean, Sealable, SingleLine, IsPath;
    ListReadsBackExactly(["a", "b"]);
    assert Strs(["a", "b"]) == [Str("a"), Str("b")];
  }

  lemma BareListValue(items: seq<string>, text: string)
    requires ListText(items) == text && forall i | 0 <= i < |text| :: text[i] != '#'
    ensures LineValue(text) == ReadValue(text)
  {
    hide ListText, LineValue, ReadValue, HashFree;
    NoHash(text, None);
    ListLineValue(items);
  }

  lemma CommaValue()
    ensures ReadValue("[a,b]") == Success(Many([Str("a"), Str("b")]))
  {
    assert "[a,b]"[1..4] == "a,b";
    StripTrimmed("a,b");
    CommaPieces();
    LetterScalars();
    hide ReadScalar, ReadScalars, Strip, SplitItems;
    ReadScalarsEach(["a", "b"], [Str("a"), Str("b")]);
  }

  lemma CommaPieces()
    ensures SplitItems("a,b", "", None) == Some(["a", "b"])
  {
    assert "a,b"[1..] == ",b" && ",b"[1..] == "b" && "b"[1..] == "";
    assert "" + ['b'] == "b" && "" + ['a'] == "a" && ["a"] + ["b"] == ["a", "b"];
    assert SplitItems("b", "", None) == Some(["b"]);
    assert SplitItems(",b", "a", None) == Some(["a"] + ["b"]);
  }

  lemma LetterScalars()
    ensures ReadScalar("a") == Success(Str("a")) && ReadScalar("b") == Success(Str("b")) && Strip("a") == "a" && Strip("b") == "b"
  {
    StripTrimmed("a");
    StripTrimmed("b");
    assert |"true"| == 4 && |"false"| == 5;
  }

  /** A path with an apostrophe makes the saved definition unreadable. */
  lemma ApostropheBreaksDefinition(s: AgentSpec, readSchema: SchemaReader)
    requires HasOnlyPaths(s, ["b's"])
    ensures Parse(Render(s), readSchema).Failure?
  {
    PathsFixed(s, ["b's"]);
    ApostropheFails();
    hide *;
    ListLineValue(["b's"]);
    PathsDecide(s, readSchema);
  }

  lemma ApostropheFails()
    ensures ReadValue(ListText(["b's"])).Failure?
  {
    StripTrimmed("b's");
    assert Plain("b's") by { hide Strip; }
    assert ListText(["b's"]) == "[b's]";
    assert "[b's]"[1..4] == "b's";
    assert "b's"[1..] == "'s" && "'s"[1..] == "s" && "s"[1..] == "";
    hide Strip, Plain, Quoted;
    assert SplitItems("s", "" + ['b'] + ['\''], Some('\'')) == None;
    assert SplitItems("'s", "" + ['b'], None) == None;
  }

  // ---------- a dropped line in a text ----------

  /** Two texts that differ in a dropped line parse alike. */
  lemma DroppedText(front: seq<string>, raw: string, rest: seq<string>, prompt: string, text: string, less: string,
    readSchema: SchemaReader)
    requires Dropped(front, raw) && Trimmed(prompt) && OnlyNewlines(prompt)
    requires RenderedAs(text, front + [raw] + rest, prompt) && RenderedAs(less, front + rest, prompt)
    requires forall line | line in front + [raw] + rest :: FrontLine(line)
    ensures Parse(text, readSchema) == Parse(less, readSchema)
  {
    var all, fewer := front + [raw] + rest, front + rest;
    forall i | 0 <= i < |all| ensures FrontLine(all[i]) { assert all[i] in all; }
    forall i | 0 <= i < |fewer| ensures FrontLine(fewer[i]) {
      assert fewer[i] in all by { assert fewer[i] in front || fewer[i] in rest; }
    }
    hide *;
    SplitRendered(text, all, prompt);
    SplitRendered(less, fewer, prompt);
    ParseOf(text, all, prompt, readSchema);
    ParseOf(less, fewer, prompt, readSchema);
    DroppedLine(front, raw, rest, readSchema);
  }

  /** An agent that may use no tool at all. */
  const TOOLLESS := AgentSpec(
    "a", "b", "", "all", "", Some([]), None, None, "", "", false, None, false, "", None, None)

  lemma ToollessIsReady()
    ensures Ready(TOOLLESS) && TOOLLESS.description != "" && NameReadsBack(TOOLLESS.name) && ColorReadsBack(TOOLLESS.color)
  {
    ToollessIsValid();
    assert Printable(TOOLLESS);
    hide ValidSpec, Printable, EntriesOk;
    IsReady(TOOLLESS);
  }

  lemma ToollessIsValid()
    ensures ValidSpec(TOOLLESS)
  {
    assert IsName("a");
    hide IsName, IsModel, IsColor, IsTool;
  }

  ghost function ToollessTop(): seq<string> {
    EntryLines("", Entries(TOOLLESS)[..3])
  }

  lemma {:induction false} AbsentLines(entries: seq<Entry>, a: nat, b: nat)
    requires a <= b <= |entries| && forall k | a <= k < b :: !entries[k].present
    ensures EntryLines("", entries[..b]) == EntryLines("", entries[..a])
    decreases b - a
  {
    hide EntryLines;
    if a < b {
      AbsentLines(entries, a, b - 1);
      EntryStep("", entries, b - 1);
    }
  }

  lemma ToollessEntries()
    ensures var e := Entries(TOOLLESS);
      && |e| == 14 && e[0] == Entry("name", true, "a") && e[1] == Entry("description", true, "b")
      && e[2] == Entry("mode", true, "all") && e[7] == Entry("tools", true, "[]")
      && (forall k | 3 <= k < 14 && k != 7 :: !e[k].present)
  {
    EntryList(TOOLLESS);
    PlainComma();
    assert ListText([]) == "[]";
    hide Quoted, ListText, Decimal, Entries;
  }

  lemma LineTexts()
    ensures "" + "name" + ": " + "a" == "name: a"
    ensures "" + "description" + ": " + "b" == "description: b"
    ensures "" + "mode" + ": " + "all" == "mode: all"
    ensures "" + "tools" + ": " + "[]" == "tools: []"
  {
  }

  lemma ToollessLines()
    ensures |Entries(TOOLLESS)| == 14 && FrontLines(TOOLLESS) == ToollessTop() + ["tools: []"]
  {
    var e := Entries(TOOLLESS);
    ToollessEntries();
    LineTexts();
    assert FrontLines(TOOLLESS) == EntryLines("", e) + [];
    hide *;
    AbsentLines(e, 3, 7);
    EntryStep("", e, 7);
    AbsentLines(e, 8, 14);
    assert e[..14] == e;
    TopIs();
  }

  lemma ToollessTopText()
    ensures ToollessTop() == ["name: a", "description: b", "mode: all"]
  {
    var e := Entries(TOOLLESS);
    ToollessEntries();
    LineTexts();
    assert e[..0] == [] && EntryLines("", e[..0]) == [];
    hide *;
    EntryStep("", e, 0);
    EntryStep("", e, 1);
    EntryStep("", e, 2);
    TopIs();
  }

  lemma TopIs()
    ensures |Entries(TOOLLESS)| == 14 ==> ToollessTop() == EntryLines("", Entries(TOOLLESS)[..3])
  {
  }

  lemma TopEntries()
    ensures |Entries(TOOLLESS)| == 14 && EntriesOk(Entries(TOOLLESS)[..3])
    ensures forall j | 0 <= j < 3 :: Entries(TOOLLESS)[..3][j].key != "tools"
  {
    ToollessIsReady();
    ToollessEntries();
    assert |"tools"| == 5 && |"name"| == 4 && |"description"| == 11 && |"mode"| == 4;
    hide EntryOk, Entries, ValidSpec, Printable;
  }

  /** The first three lines, and what the tools line would add. */
  lemma ToollessState(readSchema: SchemaReader) returns (values: map<string, FrontValue>)
    ensures ReadFront(ToollessTop(), readSchema) == Success(FrontState(values, Closed, 0, false))
    ensures "tools" !in values && Assemble(values["tools" := Many([])], "") == Success(TOOLLESS)
  {
    TopEntries();
    values := ValuesOf(Entries(TOOLLESS)[..3]);
    hide *;
    TopIs();
    TopLinesRead(Entries(TOOLLESS)[..3], readSchema);
    OtherKeys(Entries(TOOLLESS)[..3], "tools");
    ToollessValues(readSchema, values);
    ToollessAssembles();
  }

  lemma ToollessAssembles()
    ensures Ready(TOOLLESS) && Assemble(Values(TOOLLESS), "") == Success(TOOLLESS)
  {
    ToollessIsReady();
    assert TOOLLESS.prompt == "";
    hide *;
    AssembleBack(TOOLLESS);
  }

  lemma ToollessValues(readSchema: SchemaReader, values: map<string, FrontValue>)
    requires ReadFront(ToollessTop(), readSchema) == Success(FrontState(values, Closed, 0, false)) && "tools" !in values
    ensures Ready(TOOLLESS) && Values(TOOLLESS) == values["tools" := Many([])]
  {
    hide *;
    ToollessIsReady();
    ToollessLines();
    ToolsFacts();
    LineTexts();
    FrontReads(TOOLLESS, readSchema);
    FrontSnoc(ToollessTop(), "tools: []", readSchema);
    TopLineReads(FrontState(values, Closed, 0, false), "tools", "[]", readSchema);
  }

  lemma ToolsFacts()
    ensures KeyWord("tools") && "tools" != OUTPUT && "tools" != PERMISSIONS
    ensures Tidy("[]") && ReadValue("[]") == Success(Many([]))
  {
    assert ListText([]) == "[]" && Strs([]) == [];
    ReadListText([]);
    NoHash("[]", None);
    BracketIsNotSpace();
    assert |"tools"| == 5 && |OUTPUT| == 6 && |PERMISSIONS| == 11;
    hide ReadValue, HashFree, IsSpace, ListText;
  }

  /** A key with nothing behind its colon opens a list. */
  lemma BareKeyReads(st: FrontState, key: string, readSchema: SchemaReader)
    requires KeyWord(key) && key !in st.values && key != OUTPUT && key != PERMISSIONS
    ensures Step(st, key + ":", readSchema) == Success(FrontState(st.values[key := Many([])], TopList(key), 1, false))
    ensures IsKeyLine(key + ":") && Indent(key + ":") == 0 && OpensBlock(key + ":") && KeyIs(key + ":", key)
  {
    ColonIsNotSpace();
    LineShape("", key, ":");
    assert "" + key + ":" == key + ":" && key + ":" + "" == key + ":";
    MatchKeyReads(key, "");
    assert StripComment("") == "";
    hide MatchKey, StripComment, ReadValue, Strip, Indent, IsItemLine, KeyWord;
  }

  lemma IndentedWord()
    ensures IsKeyLine("  x") && Indent("  x") == 2 && FrontLine("  x")
  {
    StripIndented("x");
    assert "  " + "x" == "  x" && |FENCE| == 3;
    hide Strip, LStrip;
  }

  lemma KeyDiffers(raw: string, key: string, other: string)
    requires KeyIs(raw, key) && key != other
    ensures !KeyIs(raw, other)
  {
    hide MatchKey, Strip;
  }

  lemma DroppedAfterKey(top: seq<string>, line: string, raw: string)
    requires IsKeyLine(line) && Indent(line) == 0 && OpensBlock(line) && !KeyIs(line, PERMISSIONS) && !KeyIs(line, OUTPUT)
    requires IsKeyLine(raw) && Indent(raw) > 0
    ensures Dropped(top + [line], raw)
  {
    hide IsKeyLine, Indent, OpensBlock, KeyIs;
    assert (top + [line])[..|top|] == top;
  }

  lemma ToollessFront(i: nat)
    requires i < 5
    ensures |ToollessTop()| == 3 && FrontLine((ToollessTop() + ["tools:"] + ["  x"])[i])
  {
    hide *;
    ToollessIsReady();
    ToollessLines();
    ToollessTopText();
    IndentedWord();
    ToolsLine();
    var lines := ToollessTop() + ["tools:"] + ["  x"];
    if i < 3 {
      FrontLinesAreFront(TOOLLESS, i);
      assert lines[i] == FrontLines(TOOLLESS)[i];
    }
  }

  lemma ToolsLine()
    ensures FrontLine("tools:")
  {
    ToolsFacts();
    ColonIsNotSpace();
    SpacesSingle();
    hide FrontLine, SingleLine, KeyWord, IsSpace;
    LineIsFrontLine("", "tools", ":");
    assert "" + "tools" + ":" == "tools:";
  }

  lemma ToollessDrops(readSchema: SchemaReader)
    ensures var read := ReadFront(ToollessTop() + ["tools:"] + ["  x"], readSchema);
      read.Success? && Assemble(read.value.values, "") == Success(TOOLLESS)
  {
    hide *;
    ToolsFacts();
    IndentedWord();
    var values := ToollessState(readSchema);
    BareKeyReads(FrontState(values, Closed, 0, false), "tools", readSchema);
    assert "tools" + ":" == "tools:";
    FrontSnoc(ToollessTop(), "tools:", readSchema);
    KeyDiffers("tools:", "tools", PERMISSIONS);
    KeyDiffers("tools:", "tools", OUTPUT);
    DroppedAfterKey(ToollessTop(), "tools:", "  x");
    DroppedHasContent(ToollessTop() + ["tools:"], "  x");
    IgnoredExactly(ToollessTop() + ["tools:"], "  x", readSchema);
  }

  /** A whole text with an indented word under `tools:`: it is accepted, and the word is gone. */
  lemma WordUnderToolsIsDropped(text: string, readSchema: SchemaReader)
    requires text == Terminated([FENCE, "name: a", "description: b", "mode: all", "tools:", "  x", FENCE])
    ensures Parse(text, readSchema) == Success(TOOLLESS) && TOOLLESS.tools == Some([])
  {
    assert TOOLLESS.tools == Some([]);
    WitnessText(text);
    hide *;
    ToollessDrops(readSchema);
    SplitRendered(text, ToollessTop() + ["tools:"] + ["  x"], "");
    ParseOf(text, ToollessTop() + ["tools:"] + ["  x"], "", readSchema);
  }

  lemma WitnessText(text: string)
    requires text == Terminated([FENCE, "name: a", "description: b", "mode: all", "tools:", "  x", FENCE])
    ensures var front := ToollessTop() + ["tools:"] + ["  x"];
      && RenderedAs(text, front, "") && Trimmed("") && OnlyNewlines("")
      && forall i | 0 <= i < |front| :: FrontLine(front[i])
  {
    var front := ToollessTop() + ["tools:"] + ["  x"];
    ToollessTopText();
    assert TailOf("") == "" && Trimmed("") && OnlyNewlines("");
    hide Terminated, FrontLine, ToollessTop, TailOf;
    assert [FENCE] + front + [FENCE] == [FENCE, "name: a", "description: b", "mode: all", "tools:", "  x", FENCE];
    assert text + "" == text;
    forall i | 0 <= i < |front| ensures FrontLine(front[i]) { ToollessFront(i); }
  }

  lemma DroppedHasContent(front: seq<string>, raw: string)
    requires Dropped(front, raw)
    ensures HasContent(raw)
  {
  }
}
