/** A rendered agent definition parses back to the definition it was rendered from. */
module DefinitionsRoundTrip {

  import opened Wrappers
  import opened Text
  import opened Frontmatter
  import opened Definitions
  import opened FrontmatterRoundTrip

  // ---------- one line ----------

  predicate KeyWord(key: string) {
    key != "" && KeyStart(key[0]) && forall i | 0 <= i < |key| :: KeyChar(key[i])
  }

  lemma {:induction false} KeySpanIs(s: string, i: nat, n: nat)
    requires i <= n <= |s| && (forall k | i <= k < n :: KeyChar(s[k])) && (n < |s| ==> !KeyChar(s[n]))
    ensures KeySpan(s, i) == n
    decreases n - i
  {
    if i < n { KeySpanIs(s, i + 1, n); }
  }

  lemma MatchKeyReads(key: string, rest: string)
    requires KeyWord(key)
    ensures MatchKey(key + ":" + rest) == Some(KeyMatch(key, rest))
  {
    var s := key + ":" + rest;
    forall k | 0 <= k < |key| ensures KeyChar(s[k]) { assert s[k] == key[k]; }
    KeySpanIs(s, 1, |key|);
    hide KeySpan, KeyChar;
    assert s[|key|] == ':' && s[..|key|] == key && s[|key| + 1..] == rest;
  }

  lemma KeyCharIsPlain(c: char)
    requires KeyChar(c)
    ensures !IsSpace(c) && !IsBreak(c) && c != '#'
  {
  }

  /** What the fold sees of a rendered line. */
  lemma LineShape(indent: string, key: string, tail: string)
    requires KeyWord(key) && (indent == "" || indent == "  ") && tail != "" && !IsSpace(tail[|tail| - 1])
    ensures var raw := indent + key + tail;
      Strip(raw) == key + tail && Indent(raw) == |indent| && !IsItemLine(key + tail) && (key + tail)[0] != '#'
  {
    var s := key + tail;
    KeyCharIsPlain(key[0]);
    assert s[0] == key[0] && s[|s| - 1] == tail[|tail| - 1];
    hide IsSpace;
    assert Trimmed(s);
    if indent == "" {
      assert indent + key + tail == s;
      StripTrimmed(s);
    } else {
      assert indent + key + tail == "  " + s;
      StripIndented(s);
    }
  }

  /** The value after a key's colon and the blank behind it. */
  function LineValue(text: string): Result<FrontValue, DefinitionError> {
    ReadValue(StripComment(" " + text))
  }

  lemma KeyLine(indent: string, key: string, text: string)
    requires KeyWord(key) && (indent == "" || indent == "  ") && text != "" && !IsSpace(text[|text| - 1])
    ensures var raw, stripped := indent + key + ": " + text, key + ": " + text;
      && Strip(raw) == stripped && Indent(raw) == |indent| && !IsItemLine(stripped) && stripped[0] != '#'
      && MatchKey(stripped) == Some(KeyMatch(key, " " + text))
  {
    var tail := ": " + text;
    assert indent + key + ": " + text == indent + key + tail && key + ": " + text == key + tail;
    assert key + tail == key + ":" + (" " + text);
    assert tail[|tail| - 1] == text[|text| - 1];
    hide *;
    LineShape(indent, key, tail);
    MatchKeyReads(key, " " + text);
  }

  lemma TopLineReads(st: FrontState, key: string, text: string, readSchema: SchemaReader)
    requires KeyWord(key) && Tidy(text) && key !in st.values && key != OUTPUT && ReadValue(text).Success?
    ensures Step(st, "" + key + ": " + text, readSchema) ==
      Success(FrontState(st.values[key := ReadValue(text).value], Closed, st.indent, false))
  {
    TidyEnd(text);
    KeyLine("", key, text);
    TidyRest(text);
    hide MatchKey, StripComment, ReadValue, Strip, Indent, Tidy, IsItemLine, KeyWord, IsSpace;
  }

  lemma TidyEnd(text: string)
    requires Tidy(text)
    ensures text != "" && !IsSpace(text[|text| - 1])
  {
  }

  /** A rendered line of the permissions block sets its key to whatever its value reads as. */
  lemma NestedLineIs(st: FrontState, key: string, text: string, readSchema: SchemaReader)
    requires KeyWord(key) && text != "" && !IsSpace(text[|text| - 1]) && StripComment(" " + text) != ""
    requires st.nested && key !in NestedFields(st)
    ensures Step(st, "  " + key + ": " + text, readSchema) ==
      match LineValue(text)
      case Failure(e) => Failure(e)
      case Success(v) => Success(st.(values := st.values[PERMISSIONS := Nested(NestedFields(st)[key := v])], open := Closed))
  {
    KeyLine("  ", key, text);
    hide MatchKey, StripComment, ReadValue, Strip, Indent, IsItemLine, KeyWord, NestedFields, IsSpace;
  }

  lemma NestedLineReads(st: FrontState, key: string, text: string, readSchema: SchemaReader)
    requires KeyWord(key) && Tidy(text) && st.nested && key !in NestedFields(st) && ReadValue(text).Success?
    ensures Step(st, "  " + key + ": " + text, readSchema) == Success(st.(
        values := st.values[PERMISSIONS := Nested(NestedFields(st)[key := ReadValue(text).value])], open := Closed))
  {
    TidyEnd(text);
    TidyRest(text);
    hide Step, StripComment, ReadValue, Tidy, KeyWord, NestedFields, IsSpace;
    NestedLineIs(st, key, text, readSchema);
  }

  lemma PermissionsLineReads(st: FrontState, readSchema: SchemaReader)
    requires PERMISSIONS !in st.values
    ensures Step(st, PERMISSIONS + ":", readSchema) ==
      Success(FrontState(st.values[PERMISSIONS := Nested(map[])], Closed, st.indent, true))
  {
    assert KeyWord(PERMISSIONS);
    ColonIsNotSpace();
    LineShape("", PERMISSIONS, ":");
    assert "" + PERMISSIONS + ":" == PERMISSIONS + ":";
    MatchKeyReads(PERMISSIONS, "");
    assert PERMISSIONS + ":" + "" == PERMISSIONS + ":";
    assert StripComment("") == "";
    PermissionsIsNotOutput();
    hide MatchKey, StripComment, ReadValue, Strip, Indent, IsItemLine, KeyWord;
  }

  lemma ColonIsNotSpace()
    ensures !IsSpace(':')
  {
  }

  lemma PermissionsIsNotOutput()
    ensures PERMISSIONS != OUTPUT
  {
    assert |PERMISSIONS| == 11 && |OUTPUT| == 6;
  }

  // ---------- all lines ----------

  predicate EntryOk(e: Entry) {
    KeyWord(e.key) && (e.present ==> e.key != OUTPUT && Tidy(e.text) && ReadValue(e.text).Success?)
  }

  predicate EntriesOk(entries: seq<Entry>) {
    && (forall i | 0 <= i < |entries| :: EntryOk(entries[i]))
    && (forall i, j | 0 <= i < j < |entries| :: entries[i].key != entries[j].key)
  }

  /** The values that the lines stand for. */
  function ValuesOf(entries: seq<Entry>): map<string, FrontValue>
    requires EntriesOk(entries)
  {
    if entries == [] then map[]
    else
      var rest, last := ValuesOf(entries[..|entries| - 1]), entries[|entries| - 1];
      assert EntryOk(last);
      if last.present then rest[last.key := ReadValue(last.text).value] else rest
  }

  lemma {:induction false} ValueAt(entries: seq<Entry>, i: nat)
    requires EntriesOk(entries) && i < |entries|
    ensures EntryOk(entries[i])
    ensures Get(ValuesOf(entries), entries[i].key) ==
      if entries[i].present then Some(ReadValue(entries[i].text).value) else None
  {
    hide EntryOk, ReadValue;
    if i < |entries| - 1 {
      ValueAt(entries[..|entries| - 1], i);
    } else {
      OtherKeys(entries[..i], entries[i].key);
    }
  }

  lemma {:induction false} OtherKeys(entries: seq<Entry>, key: string)
    requires EntriesOk(entries) && forall j | 0 <= j < |entries| :: entries[j].key != key
    ensures key !in ValuesOf(entries)
  {
    hide EntryOk, ReadValue;
    if entries != [] { OtherKeys(entries[..|entries| - 1], key); }
  }

  lemma {:induction false} TopLinesRead(entries: seq<Entry>, readSchema: SchemaReader)
    requires EntriesOk(entries)
    ensures ReadFront(EntryLines("", entries), readSchema) == Success(FrontState(ValuesOf(entries), Closed, 0, false))
  {
    hide Step;
    if entries != [] {
      var rest, last := entries[..|entries| - 1], entries[|entries| - 1];
      TopLinesRead(rest, readSchema);
      if last.present {
        assert EntryOk(last);
        OtherKeys(rest, last.key);
        var lines := EntryLines("", entries);
        assert lines[..|lines| - 1] == EntryLines("", rest);
        TopLineReads(FrontState(ValuesOf(rest), Closed, 0, false), last.key, last.text, readSchema);
        hide EntryOk, ReadValue;
      } else {
        assert EntryLines("", entries) == EntryLines("", rest);
      }
    }
  }

  lemma {:induction false} NestedLinesRead(top: seq<string>, values: map<string, FrontValue>, entries: seq<Entry>,
    readSchema: SchemaReader)
    requires EntriesOk(entries) && PERMISSIONS !in values
    requires ReadFront(top, readSchema) == Success(FrontState(values, Closed, 0, false))
    ensures ReadFront(top + [PERMISSIONS + ":"] + EntryLines("  ", entries), readSchema) ==
      Success(FrontState(values[PERMISSIONS := Nested(ValuesOf(entries))], Closed, 0, true))
  {
    hide Step;
    var lines := top + [PERMISSIONS + ":"] + EntryLines("  ", entries);
    if entries == [] {
      assert lines[..|lines| - 1] == top && lines[|lines| - 1] == PERMISSIONS + ":";
      PermissionsLineReads(FrontState(values, Closed, 0, false), readSchema);
    } else {
      var rest, last := entries[..|entries| - 1], entries[|entries| - 1];
      NestedLinesRead(top, values, rest, readSchema);
      var before := top + [PERMISSIONS + ":"] + EntryLines("  ", rest);
      if last.present {
        OneMoreLine("  ", entries);
        assert lines == before + ["  " + last.key + ": " + last.text];
        NestedSnoc(before, values, entries, readSchema);
      } else {
        assert lines == before;
      }
    }
  }

  lemma OneMoreLine(indent: string, entries: seq<Entry>)
    requires entries != [] && entries[|entries| - 1].present
    ensures var last := entries[|entries| - 1];
      EntryLines(indent, entries) == EntryLines(indent, entries[..|entries| - 1]) + [indent + last.key + ": " + last.text]
  {
  }

  lemma ValuesSnoc(entries: seq<Entry>)
    requires EntriesOk(entries) && entries != [] && entries[|entries| - 1].present
    ensures var rest, last := entries[..|entries| - 1], entries[|entries| - 1];
      && EntriesOk(rest) && KeyWord(last.key) && Tidy(last.text) && ReadValue(last.text).Success?
      && last.key !in ValuesOf(rest) && ValuesOf(entries) == ValuesOf(rest)[last.key := ReadValue(last.text).value]
  {
    hide KeyWord, Tidy, ReadValue;
    assert EntryOk(entries[|entries| - 1]);
    OtherKeys(entries[..|entries| - 1], entries[|entries| - 1].key);
  }

  /** One more line of the permissions block. */
  lemma NestedSnoc(before: seq<string>, values: map<string, FrontValue>, entries: seq<Entry>, readSchema: SchemaReader)
    requires EntriesOk(entries) && entries != [] && entries[|entries| - 1].present && EntriesOk(entries[..|entries| - 1])
    requires ReadFront(before, readSchema) ==
      Success(FrontState(values[PERMISSIONS := Nested(ValuesOf(entries[..|entries| - 1]))], Closed, 0, true))
    ensures var last := entries[|entries| - 1];
      ReadFront(before + ["  " + last.key + ": " + last.text], readSchema) ==
      Success(FrontState(values[PERMISSIONS := Nested(ValuesOf(entries))], Closed, 0, true))
  {
    hide *;
    ValuesSnoc(entries);
    var rest, last := entries[..|entries| - 1], entries[|entries| - 1];
    var st := FrontState(values[PERMISSIONS := Nested(ValuesOf(rest))], Closed, 0, true);
    NestedState(values, ValuesOf(rest), ValuesOf(entries));
    NestedLineReads(st, last.key, last.text, readSchema);
    FrontSnoc(before, "  " + last.key + ": " + last.text, readSchema);
  }

  lemma NestedState(values: map<string, FrontValue>, fields: map<string, FrontValue>, next: map<string, FrontValue>)
    ensures NestedFields(FrontState(values[PERMISSIONS := Nested(fields)], Closed, 0, true)) == fields
    ensures values[PERMISSIONS := Nested(fields)][PERMISSIONS := Nested(next)] == values[PERMISSIONS := Nested(next)]
  {
  }

  // ---------- the whole text ----------

  /** Every line with its line break. */
  function Terminated(lines: seq<string>): string {
    if lines == [] then "" else lines[0] + "\n" + Terminated(lines[1..])
  }

  lemma {:induction false} LineLengthIs(line: string, rest: string)
    requires SingleLine(line)
    ensures LineLength(line + "\n" + rest) == |line|
  {
    if line != "" {
      assert !IsBreak(line[0]);
      assert (line + "\n" + rest)[1..] == line[1..] + "\n" + rest;
      LineLengthIs(line[1..], rest);
    }
  }

  lemma SplitFirst(line: string, rest: string)
    requires SingleLine(line)
    ensures SplitLines(line + "\n" + rest) == [line] + SplitLines(rest)
  {
    var text := line + "\n" + rest;
    LineLengthIs(line, rest);
    hide LineLength;
    assert text[|line|] == '\n' && text[..|line|] == line && text[|line| + 1..] == rest;
  }

  lemma {:induction false} SplitTerminated(lines: seq<string>, rest: string)
    requires forall i | 0 <= i < |lines| :: SingleLine(lines[i])
    ensures SplitLines(Terminated(lines) + rest) == lines + SplitLines(rest)
  {
    hide SplitLines, SingleLine;
    if lines == [] {
      assert Terminated(lines) + rest == rest;
    } else {
      SplitTerminated(lines[1..], rest);
      SplitFirst(lines[0], Terminated(lines[1..]) + rest);
      assert lines[0] + "\n" + (Terminated(lines[1..]) + rest) == Terminated(lines) + rest;
    }
  }

  lemma TerminatedFirst(lines: seq<string>)
    requires lines != []
    ensures Terminated(lines) == lines[0] + "\n" + Terminated(lines[1..])
  {
  }

  lemma {:induction false} JoinTerminated(a: seq<string>, b: seq<string>)
    requires b != []
    ensures Join(a + b) == Terminated(a) + Join(b)
  {
    if a == [] {
      assert a + b == b;
    } else {
      hide *;
      JoinTerminated(a[1..], b);
      assert (a + b)[1..] == a[1..] + b;
      JoinFirst(a + b);
      TerminatedFirst(a);
      Regroup(a[0] + "\n", Terminated(a[1..]), Join(b));
    }
  }

  lemma JoinFirst(lines: seq<string>)
    requires |lines| > 1
    ensures Join(lines) == lines[0] + "\n" + Join(lines[1..])
  {
  }

  lemma Regroup(a: string, b: string, c: string)
    ensures a + (b + c) == a + b + c
  {
  }

  /** Line breaks other than `\n` do not occur. */
  predicate OnlyNewlines(text: string) {
    forall i | 0 <= i < |text| :: IsBreak(text[i]) ==> text[i] == '\n'
  }

  lemma {:induction false} JoinSplit(text: string)
    requires OnlyNewlines(text)
    ensures SplitLines(text + "\n") != [] && Join(SplitLines(text + "\n")) == text
    decreases |text|
  {
    var n := LineLength(text);
    var line := text[..n];
    if n == |text| {
      assert text + "\n" == line + "\n" + "";
      SplitFirst(line, "");
      assert SplitLines("") == [];
    } else {
      var rest := text[n + 1..];
      assert text == line + "\n" + rest;
      assert text + "\n" == line + "\n" + (rest + "\n");
      SplitFirst(line, rest + "\n");
      hide LineLength, SplitLines;
      JoinSplit(rest);
      var lines := [line] + SplitLines(rest + "\n");
      assert lines[1..] == SplitLines(rest + "\n");
    }
  }

  lemma StripNewlineBefore(text: string)
    requires Trimmed(text) && text != ""
    ensures Strip(StripNewlines("\n" + text)) == text && RStripNewlines("\n" + text) == "\n" + text
    ensures RStripNewlines(text) == text
  {
    assert ("\n" + text)[1..] == text;
    NewlineIsSpace();
    StripTrimmed(text);
    hide Strip, IsSpace;
    assert LStripNewlines("\n" + text) == LStripNewlines(text) == text;
  }

  lemma NewlineIsSpace()
    ensures IsSpace('\n')
  {
  }

  /** Lines that can stand between the fences. */
  predicate FrontLine(line: string) {
    SingleLine(line) && !IsFence(line)
  }

  /** What follows the closing fence. */
  function TailOf(prompt: string): string {
    if prompt == "" then "" else "\n" + prompt + "\n"
  }

  ghost predicate RenderedAs(text: string, front: seq<string>, prompt: string) {
    text == Terminated([FENCE] + front + [FENCE]) + TailOf(prompt)
  }

  lemma SplitAt(text: string, lines: seq<string>, index: nat)
    requires SplitLines(text) == lines && lines != [] && IsFence(lines[0]) && NextFence(lines, 1) == index < |lines|
    ensures Split(text) == Success(Parts(lines[1..index], Strip(StripNewlines(Join(lines[index + 1..])))))
  {
    hide SplitLines, IsFence, NextFence, Strip, StripNewlines, Join;
  }

  /** The fences of the lines, with `front` between them and `rest` behind. */
  lemma FencedLines(front: seq<string>, rest: seq<string>)
    requires forall i | 0 <= i < |front| :: FrontLine(front[i])
    ensures var fenced := [FENCE] + front + [FENCE];
      var lines := fenced + rest;
      && (forall i | 0 <= i < |fenced| :: SingleLine(fenced[i]))
      && IsFence(lines[0]) && NextFence(lines, 1) == |front| + 1
      && lines[1..|front| + 1] == front && lines[|front| + 2..] == rest
  {
    FenceFacts();
    hide SingleLine, IsFence;
    var lines := [FENCE] + front + [FENCE] + rest;
    FenceAt(lines, 1, |front| + 1) by {
      forall k | 1 <= k < |front| + 1 ensures !IsFence(lines[k]) { assert lines[k] == front[k - 1]; }
    }
  }

  lemma SplitRendered(text: string, front: seq<string>, prompt: string)
    requires RenderedAs(text, front, prompt) && Trimmed(prompt) && OnlyNewlines(prompt)
    requires forall i | 0 <= i < |front| :: FrontLine(front[i])
    ensures Split(text) == Success(Parts(front, prompt))
  {
    assert text == Terminated([FENCE] + front + [FENCE]) + TailOf(prompt);
    hide *;
    var rest := SplitLines(TailOf(prompt));
    FencedLines(front, rest);
    SplitTerminated([FENCE] + front + [FENCE], TailOf(prompt));
    SplitAt(text, [FENCE] + front + [FENCE] + rest, |front| + 1);
    BodyReads(prompt);
  }

  lemma {:induction false} FenceAt(lines: seq<string>, i: nat, n: nat)
    requires i <= n < |lines| && IsFence(lines[n]) && forall k | i <= k < n :: !IsFence(lines[k])
    ensures NextFence(lines, i) == n
    decreases n - i
  {
    hide IsFence;
    if i < n { FenceAt(lines, i + 1, n); }
  }

  lemma FenceFacts()
    ensures IsFence(FENCE) && SingleLine(FENCE)
  {
    StripTrimmed(FENCE);
  }

  lemma BodyReads(prompt: string)
    requires Trimmed(prompt) && OnlyNewlines(prompt)
    ensures Strip(StripNewlines(Join(SplitLines(TailOf(prompt))))) == prompt
  {
    if prompt == "" {
      assert SplitLines("") == [];
    } else {
      hide *;
      PromptReads(prompt);
    }
  }

  lemma PromptReads(prompt: string)
    requires Trimmed(prompt) && OnlyNewlines(prompt) && prompt != ""
    ensures Strip(StripNewlines(Join(SplitLines(TailOf(prompt))))) == prompt
  {
    assert SingleLine("") && TailOf(prompt) == "\n" + prompt + "\n";
    hide *;
    var lines := SplitLines(prompt + "\n");
    JoinSplit(prompt);
    SplitFirst("", prompt + "\n");
    assert "\n" + prompt + "\n" == "" + "\n" + (prompt + "\n");
    assert ([""] + lines)[1..] == lines;
    JoinFirst([""] + lines);
    assert "" + "\n" + prompt == "\n" + prompt;
    StripNewlineBefore(prompt);
  }

  lemma RenderIs(s: AgentSpec)
    requires Trimmed(s.prompt)
    ensures RenderedAs(Render(s), FrontLines(s), s.prompt)
  {
    hide FrontLines, IsSpace;
    var front := FrontLines(s);
    var fenced := [FENCE] + front + [FENCE];
    var tail := [""] + if s.prompt == "" then [] else [s.prompt];
    assert [FENCE] + front + [FENCE, ""] + (if s.prompt == "" then [] else [s.prompt]) == fenced + tail;
    JoinTerminated(fenced, tail);
    if s.prompt == "" {
      assert Join(tail) == "";
      assert fenced == ([FENCE] + front) + [FENCE];
      TerminatedEnds([FENCE] + front);
    } else {
      assert tail[1..] == [s.prompt];
      assert Join(tail) == "" + "\n" + s.prompt;
      KeepEnd(Terminated(fenced) + "\n", s.prompt);
      var t := Terminated(fenced);
      assert t + Join(tail) == t + "\n" + s.prompt;
      assert t + "\n" + s.prompt + "\n" == t + ("\n" + s.prompt + "\n");
    }
  }

  lemma KeepEnd(before: string, text: string)
    requires text != "" && Trimmed(text)
    ensures RStripNewlines(before + text) == before + text
  {
    NewlineIsSpace();
    hide IsSpace;
    assert (before + text)[|before + text| - 1] == text[|text| - 1];
  }

  lemma TerminatedEnds(lines: seq<string>)
    ensures RStripNewlines(Terminated(lines + [FENCE]) + "") + "\n" == Terminated(lines + [FENCE]) + ""
  {
    TerminatedAppend(lines, FENCE);
    var whole := Terminated(lines + [FENCE]);
    var kept := Terminated(lines) + FENCE;
    assert whole + "" == kept + "\n";
    assert (kept + "\n")[..|kept|] == kept;
    assert kept[|kept| - 1] == '-';
  }

  lemma {:induction false} TerminatedAppend(lines: seq<string>, last: string)
    ensures Terminated(lines + [last]) == Terminated(lines) + last + "\n"
  {
    if lines != [] {
      TerminatedAppend(lines[1..], last);
      assert (lines + [last])[1..] == lines[1..] + [last];
    } else {
      assert lines + [last] == [last] && [last][1..] == [];
    }
  }
}
