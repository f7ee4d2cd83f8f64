/** The frontmatter grammar of agent definitions (src/agenthicc/agents/definitions.py, `_split` to `_parse_front`).

    Every refusal is the one error `DefinitionError`; the line and wording it carries are not modelled. */
module Frontmatter {

  import opened Wrappers
  import opened Text

  datatype DefinitionError = DefinitionError

  datatype Scalar = Str(text: string) | Int(number: int) | Bool(flag: bool)

  datatype FrontValue =
    | One(item: Scalar)
    | Many(items: seq<Scalar>)
    | Nested(fields: map<string, FrontValue>)
    | Schema(json: string)

  // ---------- lines ----------

  /** The characters at which `str.splitlines` breaks a line. */
  predicate IsBreak(c: char) {
    '\n' <= c <= '\r' || '\U{1c}' <= c <= '\U{1e}' || c == '\U{85}' || c == '\U{2028}' || c == '\U{2029}'
  }

  predicate SingleLine(s: string) {
    forall i | 0 <= i < |s| :: !IsBreak(s[i])
  }

  /** The length of the first line. */
  function LineLength(text: string): (n: nat)
    ensures n <= |text| && SingleLine(text[..n]) && (n < |text| ==> IsBreak(text[n]))
  {
    if text == "" || IsBreak(text[0]) then 0
    else
      var n := LineLength(text[1..]) + 1;
      assert forall i | 0 < i < n :: text[..n][i] == text[1..][..n - 1][i - 1];
      n
  }

  function SplitLines(text: string): seq<string> {
    if text == "" then []
    else
      var n := LineLength(text);
      if n == |text| then [text]
      else
        var next := if text[n] == '\r' && n + 1 < |text| && text[n + 1] == '\n' then n + 2 else n + 1;
        [text[..n]] + SplitLines(text[next..])
  }

  /** `"\n".join(lines)` */
  function Join(lines: seq<string>): string {
    if lines == [] then "" else if |lines| == 1 then lines[0] else lines[0] + "\n" + Join(lines[1..])
  }

  function StripNewlines(s: string): string {
    RStripNewlines(LStripNewlines(s))
  }

  function LStripNewlines(s: string): string {
    if s != "" && s[0] == '\n' then LStripNewlines(s[1..]) else s
  }

  /** `s.rstrip("\n")` */
  function RStripNewlines(s: string): string {
    if s != "" && s[|s| - 1] == '\n' then RStripNewlines(s[..|s| - 1]) else s
  }

  const FENCE := "---"

  predicate IsFence(line: string) {
    Strip(line) == FENCE
  }

  /** The index of the first fence from `i` on, or the number of lines. */
  function NextFence(lines: seq<string>, i: nat): (n: nat)
    requires i <= |lines|
    ensures i <= n <= |lines| && (n < |lines| ==> IsFence(lines[n])) && forall k | i <= k < n :: !IsFence(lines[k])
    decreases |lines| - i
  {
    if i == |lines| || IsFence(lines[i]) then i else NextFence(lines, i + 1)
  }

  datatype Parts = Parts(front: seq<string>, body: string)

  /** `_split` */
  function Split(text: string): Result<Parts, DefinitionError> {
    var lines := SplitLines(text);
    if lines == [] || !IsFence(lines[0]) then Failure(DefinitionError)
    else
      var index := NextFence(lines, 1);
      if index == |lines| then Failure(DefinitionError)
      else Success(Parts(lines[1..index], Strip(StripNewlines(Join(lines[index + 1..])))))
  }

  // ---------- comments ----------

  predicate IsQuote(c: char) {
    c == '\'' || c == '"'
  }

  /** Where a comment starts, or the length; `gap`: at the start or after white space. */
  function CommentStart(s: string, gap: bool, quote: Option<char>): (n: nat)
    ensures n <= |s|
  {
    if s == "" then 0
    else if quote.Some? then
      1 + CommentStart(s[1..], IsSpace(s[0]), if s[0] == quote.value then None else quote)
    else if IsQuote(s[0]) then 1 + CommentStart(s[1..], false, Some(s[0]))
    else if s[0] == '#' && gap then 0
    else 1 + CommentStart(s[1..], IsSpace(s[0]), None)
  }

  function StripComment(value: string): string {
    var n := CommentStart(value, true, None);
    if n < |value| then RStrip(value[..n]) else Strip(value)
  }

  /** `_strip_comment`: the scan with its open quote. */
  method WithoutComment(value: string) returns (r: string)
    ensures r == StripComment(value)
  {
    hide RStrip, LStrip, IsSpace;
    var quote: Option<char> := None;
    for index := 0 to |value|
      invariant CommentStart(value, true, None) ==
        index + CommentStart(value[index..], index == 0 || IsSpace(value[index - 1]), quote)
    {
      var c := value[index];
      assert value[index..][1..] == value[index + 1..];
      if quote.Some? {
        if c == quote.value { quote := None; }
      } else if IsQuote(c) {
        quote := Some(c);
        assert !IsSpace(c) by { QuotesAreNotSpace(c); }
      } else if c == '#' && (index == 0 || IsSpace(value[index - 1])) {
        return RStrip(value[..index]);
      }
    }
    return Strip(value);
  }

  lemma QuotesAreNotSpace(c: char)
    requires IsQuote(c)
    ensures !IsSpace(c)
  {
  }

  // ---------- scalars ----------

  predicate IsDigit(c: char) {
    '0' <= c <= '9'
  }

  predicate AllDigits(s: string) {
    s != "" && forall i | 0 <= i < |s| :: IsDigit(s[i])
  }

  /** `-?\d+` */
  predicate IsInteger(s: string) {
    AllDigits(s) || (s != "" && s[0] == '-' && AllDigits(s[1..]))
  }

  function DigitValue(c: char): nat
    requires IsDigit(c)
  {
    c as int - '0' as int
  }

  function Natural(digits: string): nat
    requires forall i | 0 <= i < |digits| :: IsDigit(digits[i])
  {
    if digits == "" then 0 else Natural(digits[..|digits| - 1]) * 10 + DigitValue(digits[|digits| - 1])
  }

  function ToInt(s: string): int
    requires IsInteger(s)
  {
    if s[0] == '-' then 0 - (Natural(s[1..]) as int) else Natural(s) as int
  }

  /** Characters with a meaning in YAML that this subset refuses. */
  predicate IsMarker(c: char) {
    c == '[' || c == '{' || c == '|' || c == '>' || c == '&' || c == '*' || c == '!'
  }

  /** `_scalar` */
  function ReadScalar(raw: string): Result<Scalar, DefinitionError> {
    var value := Strip(raw);
    if |value| >= 2 && value[0] == value[|value| - 1] && IsQuote(value[0]) then Success(Str(value[1..|value| - 1]))
    else if value == "true" || value == "false" then Success(Bool(value == "true"))
    else if IsInteger(value) then Success(Int(ToInt(value)))
    else if value != "" && IsMarker(value[0]) then Failure(DefinitionError)
    else Success(Str(value))
  }

  // ---------- inline lists ----------

  /** Split at the commas outside quotes; `None` for an unclosed quote. */
  function SplitItems(s: string, current: string, quote: Option<char>): Option<seq<string>>
    decreases |s|
  {
    if s == "" then (if quote.Some? then None else Some([current]))
    else if quote.Some? then SplitItems(s[1..], current + [s[0]], if s[0] == quote.value then None else quote)
    else if IsQuote(s[0]) then SplitItems(s[1..], current + [s[0]], Some(s[0]))
    else if s[0] == ',' then
      match SplitItems(s[1..], "", None)
      case None => None
      case Some(rest) => Some([current] + rest)
    else SplitItems(s[1..], current + [s[0]], None)
  }

  /** The scalars of the items that are not blank. */
  function ReadScalars(items: seq<string>): Result<seq<Scalar>, DefinitionError> {
    if items == [] then Success([])
    else
      var before :- ReadScalars(items[..|items| - 1]);
      var last := items[|items| - 1];
      if Strip(last) == "" then Success(before)
      else
        var item :- ReadScalar(last);
        Success(before + [item])
  }

  predicate IsInline(rest: string) {
    |rest| >= 2 && rest[0] == '[' && rest[|rest| - 1] == ']'
  }

  /** The brackets are the first and last characters, so stripping first changes nothing. */
  function InlineText(raw: string): string
    requires IsInline(raw)
  {
    Strip(raw[1..|raw| - 1])
  }

  function ReadList(raw: string): Result<seq<Scalar>, DefinitionError>
    requires IsInline(raw)
  {
    var inner := InlineText(raw);
    if inner == "" then Success([])
    else
      match SplitItems(inner, "", None)
      case None => Failure(DefinitionError)
      case Some(items) => ReadScalars(items)
  }

  /** `_inline_list`: the scan with its current item and open quote. */
  method InlineList(raw: string) returns (r: Result<seq<Scalar>, DefinitionError>)
    requires IsInline(raw)
    ensures r == ReadList(raw)
  {
    hide LStrip, RStrip, IsSpace, ReadScalar;
    var inner := InlineText(raw);
    if inner == "" { return Success([]); }
    var items: seq<string>, current: string, quote: Option<char> := [], "", None;
    assert inner[0..] == inner;
    PrependNothing(SplitItems(inner, "", None));
    for i := 0 to |inner|
      invariant SplitItems(inner, "", None) == Prepend(items, SplitItems(inner[i..], current, quote))
    {
      var c := inner[i];
      assert inner[i..][1..] == inner[i + 1..];
      if quote.Some? {
        current := current + [c];
        if c == quote.value { quote := None; }
      } else if IsQuote(c) {
        quote := Some(c);
        current := current + [c];
      } else if c == ',' {
        PrependTwice(items, current, SplitItems(inner[i + 1..], "", None));
        items := items + [current];
        current := "";
      } else {
        current := current + [c];
      }
    }
    if quote.Some? { return Failure(DefinitionError); }
    items := items + [current];
    r := Scalars(items);
  }

  function Prepend(items: seq<string>, rest: Option<seq<string>>): Option<seq<string>> {
    if rest.None? then None else Some(items + rest.value)
  }

  lemma PrependNothing(rest: Option<seq<string>>)
    ensures Prepend([], rest) == rest
  {
    if rest.Some? { assert [] + rest.value == rest.value; }
  }

  lemma PrependTwice(items: seq<string>, current: string, rest: Option<seq<string>>)
    ensures Prepend(items + [current], rest) == Prepend(items, Prepend([current], rest))
  {
    if rest.Some? { assert items + ([current] + rest.value) == items + [current] + rest.value; }
  }

  method Scalars(items: seq<string>) returns (r: Result<seq<Scalar>, DefinitionError>)
    ensures r == ReadScalars(items)
  {
    hide ReadScalar, Strip;
    var read: seq<Scalar> := [];
    for i := 0 to |items|
      invariant ReadScalars(items[..i]) == Success(read)
    {
      assert items[..i + 1][..i] == items[..i];
      if Strip(items[i]) != "" {
        var item := ReadScalar(items[i]);
        if item.Failure? {
          ScalarFailureStops(items, i + 1);
          return Failure(DefinitionError);
        }
        read := read + [item.value];
      }
    }
    assert items[..|items|] == items;
    return Success(read);
  }

  lemma OneError(e: DefinitionError)
    ensures e == DefinitionError
  {
    match e case DefinitionError =>
  }

  lemma {:induction false} ScalarFailureStops(items: seq<string>, n: nat)
    requires n <= |items| && ReadScalars(items[..n]).Failure?
    ensures ReadScalars(items) == Failure(DefinitionError)
  {
    if n == |items| {
      assert items[..n] == items;
      OneError(ReadScalars(items).error);
    } else {
      assert items[..|items| - 1][..n] == items[..n];
      ScalarFailureStops(items[..|items| - 1], n);
    }
  }

  // ---------- keys ----------

  predicate KeyStart(c: char) {
    'A' <= c <= 'Z' || 'a' <= c <= 'z' || c == '_'
  }

  predicate KeyChar(c: char) {
    KeyStart(c) || IsDigit(c) || c == '-'
  }

  function KeySpan(s: string, i: nat): (n: nat)
    requires i <= |s|
    ensures i <= n <= |s|
    decreases |s| - i
  {
    if i < |s| && KeyChar(s[i]) then KeySpan(s, i + 1) else i
  }

  function SpaceSpan(s: string, i: nat): (n: nat)
    requires i <= |s|
    ensures i <= n <= |s|
    decreases |s| - i
  {
    if i < |s| && IsSpace(s[i]) then SpaceSpan(s, i + 1) else i
  }

  datatype KeyMatch = KeyMatch(key: string, rest: string)

  /** `^([A-Za-z_][A-Za-z0-9_-]*)\s*:(.*)$` */
  function MatchKey(s: string): Option<KeyMatch> {
    if s == "" || !KeyStart(s[0]) then None
    else
      var n := KeySpan(s, 1);
      var colon := SpaceSpan(s, n);
      if colon < |s| && s[colon] == ':' then Some(KeyMatch(s[..n], s[colon + 1..])) else None
  }

  // ---------- the frontmatter ----------

  /** The list that `- item` lines extend. */
  datatype OpenList = Closed | TopList(key: string) | NestedList(key: string)

  /** `nested`: the lines are inside the permissions block. */
  datatype FrontState = FrontState(values: map<string, FrontValue>, open: OpenList, indent: nat, nested: bool)

  const INITIAL := FrontState(map[], Closed, 0, false)

  const PERMISSIONS := "permissions"
  const OUTPUT := "output"

  type SchemaReader = string -> Option<string>

  /** The value after a key's colon, when there is one on the line. */
  function ReadValue(rest: string): Result<FrontValue, DefinitionError> {
    if IsInline(rest) then
      var items :- ReadList(rest);
      Success(Many(items))
    else
      var item :- ReadScalar(rest);
      Success(One(item))
  }

  function NestedFields(st: FrontState): map<string, FrontValue> {
    if PERMISSIONS in st.values && st.values[PERMISSIONS].Nested? then st.values[PERMISSIONS].fields else map[]
  }

  function Items(fields: map<string, FrontValue>, key: string): seq<Scalar> {
    if key in fields && fields[key].Many? then fields[key].items else []
  }

  function AppendItem(st: FrontState, item: Scalar): FrontState {
    match st.open
    case Closed => st
    case TopList(key) => st.(values := st.values[key := Many(Items(st.values, key) + [item])])
    case NestedList(key) =>
      var fields := NestedFields(st);
      st.(values := st.values[PERMISSIONS := Nested(fields[key := Many(Items(fields, key) + [item])])])
  }

  function NestedLine(st: FrontState, stripped: string): Result<FrontState, DefinitionError> {
    match MatchKey(stripped)
    case None => Failure(DefinitionError)
    case Some(m) =>
      var fields := NestedFields(st);
      if m.key in fields then Failure(DefinitionError)
      else
        var rest := StripComment(m.rest);
        if rest == "" then
          Success(st.(values := st.values[PERMISSIONS := Nested(fields[m.key := Many([])])],
            open := NestedList(m.key), indent := 4))
        else
          var value :- ReadValue(rest);
          Success(st.(values := st.values[PERMISSIONS := Nested(fields[m.key := value])], open := Closed))
  }

  function TopLine(st: FrontState, stripped: string, readSchema: SchemaReader): Result<FrontState, DefinitionError> {
    match MatchKey(stripped)
    case None => Failure(DefinitionError)
    case Some(m) =>
      if m.key in st.values then Failure(DefinitionError)
      else
        var rest := StripComment(m.rest);
        var base := st.(open := Closed, nested := false);
        if m.key == OUTPUT then
          match readSchema(rest)
          case None => Failure(DefinitionError)
          case Some(schema) => Success(base.(values := st.values[m.key := Schema(schema)]))
        else if rest == "" && m.key == PERMISSIONS then
          Success(base.(values := st.values[m.key := Nested(map[])], nested := true))
        else if rest == "" then
          Success(base.(values := st.values[m.key := Many([])], open := TopList(m.key), indent := 1))
        else
          var value :- ReadValue(rest);
          Success(base.(values := st.values[m.key := value]))
  }

  predicate IsItemLine(stripped: string) {
    stripped == "-" || (|stripped| >= 2 && stripped[0] == '-' && stripped[1] == ' ')
  }

  function Indent(raw: string): int {
    |raw| - |LStrip(raw)|
  }

  /** One line of `_parse_front`. */
  function Step(st: FrontState, raw: string, readSchema: SchemaReader): Result<FrontState, DefinitionError> {
    var stripped := Strip(raw);
    if stripped == "" || stripped[0] == '#' then Success(st)
    else if IsItemLine(stripped) then
      if st.open.Closed? || Indent(raw) < st.indent then Failure(DefinitionError)
      else
        var item :- ReadScalar(StripComment(stripped[1..]));
        Success(AppendItem(st, item))
    else if Indent(raw) == 2 && st.nested then NestedLine(st, stripped)
    else if Indent(raw) != 0 then
      if st.open.Closed? || Indent(raw) < st.indent then Failure(DefinitionError) else Success(st)
    else TopLine(st, stripped, readSchema)
  }

  function ReadFront(front: seq<string>, readSchema: SchemaReader): Result<FrontState, DefinitionError> {
    if front == [] then Success(INITIAL)
    else
      var st :- ReadFront(front[..|front| - 1], readSchema);
      Step(st, front[|front| - 1], readSchema)
  }

  /** `_parse_front` */
  method ParseFront(front: seq<string>, readSchema: SchemaReader) returns (r: Result<FrontState, DefinitionError>)
    ensures r == ReadFront(front, readSchema)
  {
    hide Step;
    var st := INITIAL;
    for i := 0 to |front|
      invariant ReadFront(front[..i], readSchema) == Success(st)
    {
      assert front[..i + 1][..i] == front[..i];
      var next := Step(st, front[i], readSchema);
      if next.Failure? {
        FrontFailureStops(front, readSchema, i + 1);
        return Failure(DefinitionError);
      }
      st := next.value;
    }
    assert front[..|front|] == front;
    return Success(st);
  }

  lemma {:induction false} FrontFailureStops(front: seq<string>, readSchema: SchemaReader, n: nat)
    requires n <= |front| && ReadFront(front[..n], readSchema).Failure?
    ensures ReadFront(front, readSchema) == Failure(DefinitionError)
  {
    hide Step;
    if n == |front| {
      assert front[..n] == front;
      OneError(ReadFront(front, readSchema).error);
    } else {
      assert front[..|front| - 1][..n] == front[..n];
      FrontFailureStops(front[..|front| - 1], readSchema, n);
    }
  }

  /** The line does not start a comment and is not blank. */
  predicate HasContent(raw: string) {
    Strip(raw) != "" && Strip(raw)[0] != '#'
  }

  lemma StepIgnores(st: FrontState, raw: string, readSchema: SchemaReader)
    requires HasContent(raw)
    ensures Step(st, raw, readSchema) == Success(st) <==>
      && !IsItemLine(Strip(raw)) && !(Indent(raw) == 2 && st.nested)
      && Indent(raw) != 0 && !st.open.Closed? && Indent(raw) >= st.indent
  {
    hide ReadScalar, StripComment, Strip, Indent, MatchKey, ReadValue;
    var stripped := Strip(raw);
    if IsItemLine(stripped) && !st.open.Closed? && Indent(raw) >= st.indent && ReadScalar(StripComment(stripped[1..])).Success? {
      AppendChanges(st, ReadScalar(StripComment(stripped[1..])).value);
    }
  }

  lemma AppendChanges(st: FrontState, item: Scalar)
    requires !st.open.Closed?
    ensures AppendItem(st, item) != st
  {
    var after := AppendItem(st, item);
    match st.open
    case TopList(key) =>
      assert Items(after.values, key) == Items(st.values, key) + [item];
    case NestedList(key) =>
      assert Items(NestedFields(after), key) == Items(NestedFields(st), key) + [item];
  }

  // ---------- lines that are dropped ----------

  /** A line that says something and is no list item. */
  predicate IsKeyLine(raw: string) {
    HasContent(raw) && !IsItemLine(Strip(raw))
  }

  /** A key with nothing after its colon. */
  predicate OpensBlock(raw: string) {
    var m := MatchKey(Strip(raw));
    m.Some? && StripComment(m.value.rest) == ""
  }

  predicate KeyIs(raw: string, key: string) {
    var m := MatchKey(Strip(raw));
    m.Some? && m.value.key == key
  }

  /** The last key at the left margin is a bare `permissions:`. */
  predicate InPermissions(front: seq<string>) {
    front != [] &&
    var init, last := front[..|front| - 1], front[|front| - 1];
    if IsKeyLine(last) && Indent(last) == 0 then OpensBlock(last) && KeyIs(last, PERMISSIONS) else InPermissions(init)
  }

  /** The last key, at the margin or two deep in the permissions, has nothing after its colon and is the key of a list. */
  predicate UnderList(front: seq<string>) {
    front != [] &&
    var init, last := front[..|front| - 1], front[|front| - 1];
    if IsKeyLine(last) && Indent(last) == 0 then OpensBlock(last) && !KeyIs(last, PERMISSIONS) && !KeyIs(last, OUTPUT)
    else if IsKeyLine(last) && Indent(last) == 2 && InPermissions(init) then OpensBlock(last)
    else UnderList(init)
  }

  /** How far the lines of the open list are indented at least. */
  function ListIndent(front: seq<string>): nat {
    if InPermissions(front) then 4 else 1
  }

  /** The fold's state says of the preceding lines what the predicates above say. */
  predicate Shape(st: FrontState, nested: bool, open: bool) {
    && st.nested == nested && (open <==> !st.open.Closed?)
    && (open ==> st.indent == if nested then 4 else 1)
  }

  lemma TopShape(st: FrontState, raw: string, readSchema: SchemaReader)
    requires IsKeyLine(raw) && Indent(raw) == 0 && Step(st, raw, readSchema).Success?
    ensures Shape(Step(st, raw, readSchema).value, OpensBlock(raw) && KeyIs(raw, PERMISSIONS),
        OpensBlock(raw) && !KeyIs(raw, PERMISSIONS) && !KeyIs(raw, OUTPUT))
  {
    assert |PERMISSIONS| == 11 && |OUTPUT| == 6;
    hide MatchKey, StripComment, ReadValue, Strip, Indent, IsItemLine;
  }

  lemma NestedShape(st: FrontState, raw: string, readSchema: SchemaReader)
    requires IsKeyLine(raw) && Indent(raw) == 2 && st.nested && Step(st, raw, readSchema).Success?
    ensures Shape(Step(st, raw, readSchema).value, true, OpensBlock(raw))
  {
    hide MatchKey, StripComment, ReadValue, Strip, Indent, IsItemLine, NestedFields;
  }

  lemma OtherShape(st: FrontState, raw: string, readSchema: SchemaReader)
    requires !(IsKeyLine(raw) && (Indent(raw) == 0 || (Indent(raw) == 2 && st.nested))) && Step(st, raw, readSchema).Success?
    ensures var next := Step(st, raw, readSchema).value;
      next.open == st.open && next.indent == st.indent && next.nested == st.nested
  {
    hide MatchKey, StripComment, ReadScalar, Strip, Indent, IsItemLine, NestedFields, Items;
  }

  lemma {:induction false} FrontShape(front: seq<string>, readSchema: SchemaReader)
    requires ReadFront(front, readSchema).Success?
    ensures Shape(ReadFront(front, readSchema).value, InPermissions(front), UnderList(front))
  {
    if front != [] {
      var init, last := front[..|front| - 1], front[|front| - 1];
      FrontShape(init, readSchema);
      var st := ReadFront(init, readSchema).value;
      hide Step, IsKeyLine, OpensBlock, KeyIs, Indent;
      if IsKeyLine(last) && Indent(last) == 0 {
        TopShape(st, last, readSchema);
      } else if IsKeyLine(last) && Indent(last) == 2 && st.nested {
        NestedShape(st, last, readSchema);
      } else {
        OtherShape(st, last, readSchema);
      }
    }
  }

  /** Indented under an open list without being one of its items. */
  predicate Dropped(front: seq<string>, raw: string) {
    IsKeyLine(raw) && UnderList(front) && Indent(raw) >= ListIndent(front)
  }

  lemma FrontSnoc(front: seq<string>, raw: string, readSchema: SchemaReader)
    requires ReadFront(front, readSchema).Success?
    ensures ReadFront(front + [raw], readSchema) == Step(ReadFront(front, readSchema).value, raw, readSchema)
  {
    hide Step;
    assert (front + [raw])[..|front|] == front;
  }

  /** After any lines that are accepted, a line that says something leaves no trace exactly when it is indented under an
      open list without being an item: otherwise it changes what is read, or it is refused. */
  lemma IgnoredExactly(front: seq<string>, raw: string, readSchema: SchemaReader)
    requires HasContent(raw) && ReadFront(front, readSchema).Success?
    ensures ReadFront(front + [raw], readSchema) == ReadFront(front, readSchema) <==> Dropped(front, raw)
  {
    FrontShape(front, readSchema);
    FrontSnoc(front, raw, readSchema);
    StepIgnores(ReadFront(front, readSchema).value, raw, readSchema);
    hide Step, ReadFront, InPermissions, UnderList, Strip, Indent, IsItemLine;
  }

  /** Taking a dropped line out of a text changes nothing, whatever follows. */
  lemma {:induction false} DroppedLine(front: seq<string>, raw: string, rest: seq<string>, readSchema: SchemaReader)
    requires Dropped(front, raw)
    ensures ReadFront(front + [raw] + rest, readSchema) == ReadFront(front + rest, readSchema)
    decreases rest
  {
    hide Step;
    if ReadFront(front, readSchema).Failure? {
      var all, less := front + [raw] + rest, front + rest;
      assert all[..|front|] == front && less[..|front|] == front;
      FrontFailureStops(all, readSchema, |front|);
      FrontFailureStops(less, readSchema, |front|);
    } else if rest == [] {
      assert front + [raw] + rest == front + [raw] && front + rest == front;
      IgnoredExactly(front, raw, readSchema) by { assert HasContent(raw); }
    } else {
      var init, last := rest[..|rest| - 1], rest[|rest| - 1];
      DroppedLine(front, raw, init, readSchema);
      var all, less := front + [raw] + rest, front + rest;
      assert all[..|all| - 1] == front + [raw] + init && less[..|less| - 1] == front + init;
    }
  }
}
