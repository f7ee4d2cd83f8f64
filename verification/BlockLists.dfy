/** Lists written over several lines: a key with nothing behind its colon and one `- item` line for each entry. */
module BlockLists {

  import opened Wrappers
  import opened Text
  import opened Frontmatter
  import opened Definitions
  import opened FrontmatterRoundTrip
  import opened DefinitionsRoundTrip
  import ListReadBack

  // ---------- the items of an open list ----------

  /** A list item, indented by at least `margin`, that reads as `item`. */
  predicate ItemLine(raw: string, margin: nat, item: Scalar) {
    && HasContent(raw) && IsItemLine(Strip(raw)) && Indent(raw) >= margin
    && ReadScalar(StripComment(Strip(raw)[1..])) == Success(item)
  }

  /** The state in which the open list holds these items. */
  function Holding(st: FrontState, items: seq<Scalar>): FrontState {
    match st.open
    case Closed => st
    case TopList(key) => st.(values := st.values[key := Many(items)])
    case NestedList(key) => st.(values := st.values[PERMISSIONS := Nested(NestedFields(st)[key := Many(items)])])
  }

  lemma ItemStep(st: FrontState, raw: string, items: seq<Scalar>, item: Scalar, readSchema: SchemaReader)
    requires !st.open.Closed? && ItemLine(raw, st.indent, item)
    ensures Step(Holding(st, items), raw, readSchema) == Success(Holding(st, items + [item]))
  {
    var held := Holding(st, items);
    hide Strip, Indent, IsItemLine, ReadScalar, StripComment;
    assert AppendItem(held, item) == Holding(st, items + [item]) by {
      match st.open
      case TopList(key) =>
        assert Items(held.values, key) == items;
      case NestedList(key) =>
        assert NestedFields(held) == NestedFields(st)[key := Many(items)];
        assert Items(NestedFields(held), key) == items;
        assert NestedFields(st)[key := Many(items)][key := Many(items + [item])] == NestedFields(st)[key := Many(items + [item])];
    }
  }

  /** The item lines that follow an open list are its items, in the order of the lines. */
  lemma {:induction false} ItemsRead(front: seq<string>, st: FrontState, lines: seq<string>, items: seq<Scalar>,
    readSchema: SchemaReader)
    requires !st.open.Closed? && ReadFront(front, readSchema) == Success(Holding(st, []))
    requires |lines| == |items| && forall i | 0 <= i < |lines| :: ItemLine(lines[i], st.indent, items[i])
    ensures ReadFront(front + lines, readSchema) == Success(Holding(st, items))
    decreases |lines|
  {
    hide Step, Holding, ItemLine;
    if lines == [] {
      assert front + lines == front;
    } else {
      var n := |lines| - 1;
      ItemsRead(front, st, lines[..n], items[..n], readSchema);
      assert (front + lines)[..|front| + n] == front + lines[..n];
      ItemStep(st, lines[n], items[..n], items[n], readSchema);
      assert items[..n] + [items[n]] == items;
    }
  }

  // ---------- one line ----------

  predicate Blanks(pad: string) {
    forall i | 0 <= i < |pad| :: pad[i] == ' '
  }

  /** The text of an item: in double quotes, or bare where the renderer would write it bare. */
  predicate Written(text: string, v: string) {
    NoDoubleQuote(v) && (text == "\"" + v + "\"" || (text == v && Plain(v)))
  }

  lemma ReadWritten(text: string, v: string)
    requires Written(text, v)
    ensures Tidy(text) && ReadScalar(text) == Success(Str(v))
  {
    if text == "\"" + v + "\"" {
      InQuotes(v);
    } else {
      assert Strip(v) == v && v != "";
      hide Strip, Trimmed, IsInteger, ReadScalar, HashFree, OpenAfter;
      StrippedIsTrimmed(v);
      assert Quoted(v) == v && "" + v == v && v != "";
      ReadQuotedScalar(v, "");
      QuotedScan(v);
    }
  }

  lemma StrippedIsTrimmed(v: string)
    requires Strip(v) == v
    ensures Trimmed(v)
  {
    if v != "" && IsSpace(v[|v| - 1]) {
      ListReadBack.RStripShorter(v[..|v| - 1]);
    }
    hide IsSpace;
    ListReadBack.LStripShorter(v);
    ListReadBack.RStripShorter(LStrip(v));
    ListReadBack.StripShorter(v);
  }

  lemma InQuotes(v: string)
    requires NoDoubleQuote(v)
    ensures Tidy("\"" + v + "\"") && ReadScalar("\"" + v + "\"") == Success(Str(v))
  {
    var q := "\"";
    var t := q + v + q;
    QuotesAreNotSpace('"');
    assert Trimmed(t) by { hide IsSpace; }
    InsideQuotes(v);
    assert q[1..] == "";
    assert OpenAfter(q, None) == Some('"') && HashFree(q, None) && HashFree(q, Some('"'));
    ScanAppend(q, v + q, None);
    ScanAppend(v, q, Some('"'));
    assert t == q + (v + q);
    StripTrimmed(t);
    hide Strip, HashFree, IsSpace;
    assert t[1..|t| - 1] == v;
  }

  lemma {:induction false} LStripBlanks(pad: string, s: string)
    requires Blanks(pad) && Trimmed(s) && s != ""
    ensures LStrip(pad + s) == s
  {
    hide IsSpace;
    SpaceIsSpace();
    if pad == "" {
      assert pad + s == s;
    } else {
      assert (pad + s)[1..] == pad[1..] + s;
      LStripBlanks(pad[1..], s);
    }
  }

  lemma DashIsNotSpace()
    ensures !IsSpace('-')
  {
  }

  lemma ItemShape(pad: string, text: string)
    requires Blanks(pad) && Trimmed(text) && text != ""
    ensures var raw := pad + "- " + text;
      Strip(raw) == "- " + text && Indent(raw) == |pad| && HasContent(raw) && IsItemLine("- " + text)
  {
    var s := "- " + text;
    DashIsNotSpace();
    assert s[|s| - 1] == text[|text| - 1] && pad + "- " + text == pad + s;
    hide IsSpace, LStrip, RStrip;
    assert Trimmed(s);
    LStripBlanks(pad, s);
    StripTrimmed(s);
    assert Strip(pad + s) == Strip(s) == s;
  }

  lemma WrittenLine(pad: string, text: string, v: string, margin: nat)
    requires Blanks(pad) && |pad| >= margin && Written(text, v)
    ensures ItemLine(pad + "- " + text, margin, Str(v))
  {
    assert Tidy(text) ==> Trimmed(text) && text != "";
    assert ("- " + text)[1..] == " " + text;
    hide Written, Tidy, Strip, Indent, HasContent, IsItemLine, ReadScalar, StripComment, Trimmed, Blanks;
    ReadWritten(text, v);
    TidyRest(text);
    ItemShape(pad, text);
  }

  /** The line of a key with nothing behind its colon. */
  lemma BareKey(indent: string, key: string)
    requires KeyWord(key) && (indent == "" || indent == "  ")
    ensures var raw, stripped := indent + key + ":", key + ":";
      && Strip(raw) == stripped && Indent(raw) == |indent| && !IsItemLine(stripped) && stripped[0] != '#' && stripped != ""
      && MatchKey(stripped) == Some(KeyMatch(key, "")) && StripComment("") == ""
  {
    assert StripComment("") == "";
    assert key + ":" + "" == key + ":";
    hide *;
    ColonIsNotSpace();
    LineShape(indent, key, ":");
    MatchKeyReads(key, "");
  }

  lemma TopKeyOpens(st: FrontState, key: string, readSchema: SchemaReader)
    requires KeyWord(key) && key !in st.values && key != OUTPUT && key != PERMISSIONS
    ensures Step(st, key + ":", readSchema) == Success(FrontState(st.values[key := Many([])], TopList(key), 1, false))
  {
    assert "" + key + ":" == key + ":";
    BareKey("", key);
    hide MatchKey, StripComment, ReadValue, Strip, Indent, IsItemLine, KeyWord;
  }

  lemma NestedKeyOpens(st: FrontState, key: string, readSchema: SchemaReader)
    requires KeyWord(key) && st.nested && key !in NestedFields(st)
    ensures Step(st, "  " + key + ":", readSchema) == Success(st.(
        values := st.values[PERMISSIONS := Nested(NestedFields(st)[key := Many([])])], open := NestedList(key), indent := 4))
  {
    BareKey("  ", key);
    hide MatchKey, StripComment, ReadValue, Strip, Indent, IsItemLine, KeyWord, NestedFields;
  }

  // ---------- the laws ----------

  /** One line for each entry: blanks, at least `margin` of them, a dash, a blank and the entry. */
  ghost predicate ListLines(lines: seq<string>, margin: nat, entries: seq<string>) {
    && |lines| == |entries|
    && forall i | 0 <= i < |lines| :: ListLine(lines[i], margin, entries[i])
  }

  ghost predicate ListLine(line: string, margin: nat, entry: string) {
    exists pad, text :: Blanks(pad) && |pad| >= margin && Written(text, entry) && line == pad + "- " + text
  }

  lemma ListLinesAreItems(lines: seq<string>, margin: nat, entries: seq<string>)
    requires ListLines(lines, margin, entries)
    ensures forall i | 0 <= i < |lines| :: ItemLine(lines[i], margin, Strs(entries)[i])
  {
    hide Written, ItemLine, Blanks;
    forall i | 0 <= i < |lines| ensures ItemLine(lines[i], margin, Strs(entries)[i]) {
      assert ListLine(lines[i], margin, entries[i]);
      var pad, text :| Blanks(pad) && |pad| >= margin && Written(text, entries[i]) && lines[i] == pad + "- " + text;
      WrittenLine(pad, text, entries[i], margin);
    }
  }

  /** After any lines that are accepted, a new key with its items on lines of their own reads as exactly these items in
      their order, and nothing else changes. */
  lemma TopBlockReads(front: seq<string>, key: string, lines: seq<string>, entries: seq<string>, readSchema: SchemaReader)
    requires KeyWord(key) && key != "output" && key != "permissions" && ListLines(lines, 1, entries)
    requires ReadFront(front, readSchema).Success? && key !in ReadFront(front, readSchema).value.values
    ensures var read := ReadFront(front + [key + ":"] + lines, readSchema);
      && read.Success?
      && read.value.values == ReadFront(front, readSchema).value.values[key := Many(Strs(entries))]
  {
    var st := ReadFront(front, readSchema).value;
    var started := FrontState(st.values[key := Many([])], TopList(key), 1, false);
    assert Holding(started, []) == started;
    assert Holding(started, Strs(entries)).values == st.values[key := Many(Strs(entries))];
    hide *;
    TopKeyOpens(st, key, readSchema);
    FrontSnoc(front, key + ":", readSchema);
    ListLinesAreItems(lines, 1, entries);
    ItemsRead(front + [key + ":"], started, lines, Strs(entries), readSchema);
  }

  /** A list reads the same from its lines as from the renderer's brackets. */
  lemma BlockIsInline(front: seq<string>, key: string, lines: seq<string>, entries: seq<string>, readSchema: SchemaReader)
    requires KeyWord(key) && key != "output" && key != "permissions" && ListLines(lines, 1, entries)
    requires ReadFront(front, readSchema).Success? && key !in ReadFront(front, readSchema).value.values
    requires forall i | 0 <= i < |entries| :: ItemOk(entries[i])
    ensures var block := ReadFront(front + [key + ":"] + lines, readSchema);
      var inline := ReadFront(front + [key + ": " + ListText(entries)], readSchema);
      block.Success? && inline.Success? && block.value.values == inline.value.values
  {
    var text := ListText(entries);
    assert Tidy(text) by { ListTextScan(entries); }
    assert "" + key + ": " + text == key + ": " + text;
    hide *;
    TopBlockReads(front, key, lines, entries, readSchema);
    ReadListText(entries);
    TopLineReads(ReadFront(front, readSchema).value, key, text, readSchema);
    FrontSnoc(front, key + ": " + text, readSchema);
  }

  /** The same inside the permissions, where the items stand at least four deep. */
  lemma NestedBlockReads(front: seq<string>, key: string, lines: seq<string>, entries: seq<string>, readSchema: SchemaReader)
    requires KeyWord(key) && ListLines(lines, 4, entries)
    requires ReadFront(front, readSchema).Success? && ReadFront(front, readSchema).value.nested
    requires key !in NestedFields(ReadFront(front, readSchema).value)
    ensures var st := ReadFront(front, readSchema).value;
      var read := ReadFront(front + ["  " + key + ":"] + lines, readSchema);
      && read.Success?
      && read.value.values == st.values["permissions" := Nested(NestedFields(st)[key := Many(Strs(entries))])]
  {
    var st := ReadFront(front, readSchema).value;
    var values := st.values[PERMISSIONS := Nested(NestedFields(st)[key := Many([])])];
    var started := st.(values := values, open := NestedList(key), indent := 4);
    assert NestedFields(started) == NestedFields(st)[key := Many([])];
    HeldInPermissions(st, started, key, []);
    HeldInPermissions(st, started, key, Strs(entries));
    hide *;
    NestedKeyOpens(st, key, readSchema);
    FrontSnoc(front, "  " + key + ":", readSchema);
    ListLinesAreItems(lines, 4, entries);
    ItemsRead(front + ["  " + key + ":"], started, lines, Strs(entries), readSchema);
  }

  lemma HeldInPermissions(st: FrontState, started: FrontState, key: string, items: seq<Scalar>)
    requires started == st.(values := st.values[PERMISSIONS := Nested(NestedFields(st)[key := Many([])])],
        open := NestedList(key), indent := 4)
    ensures Holding(started, items) == started.(values := st.values["permissions" := Nested(NestedFields(st)[key := Many(items)])])
  {
    assert NestedFields(started) == NestedFields(st)[key := Many([])];
    assert NestedFields(st)[key := Many([])][key := Many(items)] == NestedFields(st)[key := Many(items)];
  }
}
