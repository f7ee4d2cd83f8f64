/** What the lines of a definition's head may be, and what becomes of each: comments, blank lines, keys given twice, lines in
    the wrong place, scalars, and the fences around the head. */
module FrontmatterLaws {

  import opened Wrappers
  import opened Text
  import opened Frontmatter
  import opened Definitions
  import opened FrontmatterRoundTrip
  import opened DefinitionsRoundTrip

  // ---------- comments ----------

  /** A `#` outside quotes, at the start or behind white space; `gap` and `quote` are what stands before the text. */
  predicate HashAt(s: string, gap: bool, quote: Option<char>, k: nat) {
    && k < |s| && s[k] == '#' && OpenAfter(s[..k], quote) == None
    && if k == 0 then gap else IsSpace(s[k - 1])
  }

  lemma HashLater(s: string, gap: bool, quote: Option<char>, k: nat)
    requires 0 < k
    ensures HashAt(s, gap, quote, k) <==> s != "" && HashAt(s[1..], IsSpace(s[0]), NextQuote(s[0], quote), k - 1)
  {
    hide IsSpace, NextQuote;
    if k < |s| { assert s[..k][1..] == s[1..][..k - 1] && s[..k][0] == s[0]; }
  }

  lemma {:induction false} CommentStartsAt(s: string, gap: bool, quote: Option<char>)
    ensures var n := CommentStart(s, gap, quote);
      && (n < |s| ==> HashAt(s, gap, quote, n))
      && forall k | 0 <= k < n :: !HashAt(s, gap, quote, k)
  {
    if s != "" {
      var next := NextQuote(s[0], quote);
      var n := CommentStart(s, gap, quote);
      assert IsQuote(s[0]) ==> !IsSpace(s[0]) by { if IsQuote(s[0]) { QuotesAreNotSpace(s[0]); } }
      assert n == 0 <==> HashAt(s, gap, quote, 0) by { assert s[..0] == ""; }
      assert n != 0 ==> n == 1 + CommentStart(s[1..], IsSpace(s[0]), next);
      CommentStartsAt(s[1..], IsSpace(s[0]), next);
      hide IsSpace, HashAt, CommentStart, NextQuote;
      forall k: nat | 0 < k { HashLater(s, gap, quote, k); }
    }
  }

  /** A comment starts at the first `#` that is outside quotes and stands at the start or behind white space; what comes before
      it is the value, without the white space at its end. Without such a `#` the whole text is, stripped. */
  lemma CommentIsDropped(value: string, n: nat)
    ensures HashAt(value, true, None, n) && (forall k | 0 <= k < n :: !HashAt(value, true, None, k)) ==>
      StripComment(value) == RStrip(value[..n])
    ensures (forall k: nat :: !HashAt(value, true, None, k)) ==> StripComment(value) == Strip(value)
  {
    CommentStartsAt(value, true, None);
    assert HashAt(value, true, None, n) ==> n < |value|;
    hide HashAt, CommentStart, RStrip, LStrip;
  }

  // ---------- lines that say nothing ----------

  /** Only white space, or white space and then a `#`. */
  ghost predicate Idle(raw: string) {
    (forall i | 0 <= i < |raw| :: IsSpace(raw[i])) || exists k | 0 <= k < |raw| :: raw[k] == '#' && BlankBefore(raw, k)
  }

  predicate BlankBefore(raw: string, k: nat)
    requires k <= |raw|
  {
    forall i | 0 <= i < k :: IsSpace(raw[i])
  }

  lemma {:induction false} LStripDrops(raw: string)
    ensures |LStrip(raw)| <= |raw| && LStrip(raw) == raw[|raw| - |LStrip(raw)|..]
    ensures BlankBefore(raw, |raw| - |LStrip(raw)|) && (LStrip(raw) != "" ==> !IsSpace(LStrip(raw)[0]))
  {
    hide IsSpace;
    if raw != "" && IsSpace(raw[0]) {
      LStripDrops(raw[1..]);
      var n := |raw| - |LStrip(raw)|;
      forall i | 0 <= i < n ensures IsSpace(raw[i]) { if i > 0 { assert raw[1..][i - 1] == raw[i]; } }
    }
  }

  lemma {:induction false} RStripKeepsFirst(s: string)
    requires s != "" && !IsSpace(s[0])
    ensures RStrip(s) != "" && RStrip(s)[0] == s[0]
  {
    hide IsSpace;
    if IsSpace(s[|s| - 1]) { RStripKeepsFirst(s[..|s| - 1]); }
  }

  lemma HashIsNotSpace()
    ensures !IsSpace('#')
  {
  }

  lemma IdleIs(raw: string)
    ensures Idle(raw) <==> !HasContent(raw)
  {
    LStripDrops(raw);
    HashIsNotSpace();
    assert RStrip("") == "";
    hide IsSpace;
    var s, n := LStrip(raw), |raw| - |LStrip(raw)|;
    if s != "" {
      RStripKeepsFirst(s);
      assert s[0] == raw[n];
      assert Strip(raw) == RStrip(s);
      hide LStrip, RStrip;
      forall k: nat | k < |raw| && raw[k] == '#' && BlankBefore(raw, k) ensures k == n { }
    } else {
      hide LStrip, RStrip;
      assert forall i | 0 <= i < |raw| :: IsSpace(raw[i]);
    }
  }

  /** A blank line or a comment line can stand anywhere and changes nothing. */
  lemma {:induction false} IdleLine(front: seq<string>, raw: string, rest: seq<string>, readSchema: SchemaReader)
    requires Idle(raw)
    ensures ReadFront(front + [raw] + rest, readSchema) == ReadFront(front + rest, readSchema)
    decreases rest
  {
    hide *;
    IdleIs(raw);
    var all, less := front + [raw] + rest, front + rest;
    if rest == [] {
      assert all == front + [raw] && less == front;
      IdleSnoc(front, raw, readSchema);
    } else {
      IdleLine(front, raw, rest[..|rest| - 1], readSchema);
      assert all[..|all| - 1] == front + [raw] + rest[..|rest| - 1] && less[..|less| - 1] == front + rest[..|rest| - 1];
      LastLine(all, readSchema);
      LastLine(less, readSchema);
    }
  }

  lemma IdleSnoc(front: seq<string>, raw: string, readSchema: SchemaReader)
    requires !HasContent(raw)
    ensures ReadFront(front + [raw], readSchema) == ReadFront(front, readSchema)
  {
    hide Strip, IsItemLine, Indent;
    assert (front + [raw])[..|front|] == front;
    assert forall st :: Step(st, raw, readSchema) == Success(st);
    hide Step;
  }

  lemma LastLine(front: seq<string>, readSchema: SchemaReader)
    requires front != []
    ensures ReadFront(front, readSchema) ==
      var before := ReadFront(front[..|front| - 1], readSchema);
      if before.Failure? then before else Step(before.value, front[|front| - 1], readSchema)
  {
    hide Step;
  }

  // ---------- keys given twice ----------

  lemma {:induction false} RStripAfter(a: string, b: string)
    requires a != "" && !IsSpace(a[|a| - 1])
    ensures RStrip(a + b) == a + RStrip(b)
  {
    hide IsSpace;
    if b == "" {
      assert a + b == a;
    } else if IsSpace(b[|b| - 1]) {
      assert (a + b)[..|a + b| - 1] == a + b[..|b| - 1];
      RStripAfter(a, b[..|b| - 1]);
    } else {
      assert (a + b)[|a + b| - 1] == b[|b| - 1];
    }
  }

  /** What the fold sees of a line that starts with a key and a colon. */
  lemma AnyKeyLine(indent: string, key: string, rest: string)
    requires KeyWord(key) && (indent == "" || indent == "  ")
    ensures var raw, stripped := indent + key + ":" + rest, key + ":" + RStrip(rest);
      && Strip(raw) == stripped && Indent(raw) == |indent| && !IsItemLine(stripped) && stripped != "" && stripped[0] != '#'
      && MatchKey(stripped) == Some(KeyMatch(key, RStrip(rest)))
  {
    var s := key + ":" + rest;
    var stripped := key + ":" + RStrip(rest);
    assert key + ":" + RStrip(rest) == stripped && indent + key + ":" + rest == indent + s;
    assert s != "" && s[0] == key[0] == stripped[0];
    assert KeyWord(key) ==> KeyChar(key[0]) && key[0] != '-';
    hide *;
    KeyCharIsPlain(key[0]);
    ColonIsNotSpace();
    RStripAfter(key + ":", rest);
    MatchKeyReads(key, RStrip(rest));
    StripAfter(indent, s);
    NotItem(stripped);
  }

  lemma NotItem(s: string)
    requires s != "" && s[0] != '-'
    ensures !IsItemLine(s)
  {
  }

  lemma StripAfter(indent: string, s: string)
    requires s != "" && !IsSpace(s[0]) && (indent == "" || indent == "  ")
    ensures Strip(indent + s) == RStrip(s) && Indent(indent + s) == |indent|
  {
    assert "" + s == s;
    hide IsSpace, RStrip, LStrip;
    LStripIndents(s);
  }

  lemma LStripIndents(s: string)
    requires s != "" && !IsSpace(s[0])
    ensures LStrip(s) == s && LStrip("  " + s) == s
  {
    SpaceIsSpace();
    assert ("  " + s)[1..] == " " + s && (" " + s)[1..] == s;
    hide IsSpace;
    assert LStrip(" " + s) == s;
  }

  lemma {:induction false} SpaceSpanIs(s: string, i: nat, n: nat)
    requires i <= n <= |s| && (forall k | i <= k < n :: IsSpace(s[k])) && (n < |s| ==> !IsSpace(s[n]))
    ensures SpaceSpan(s, i) == n
    decreases n - i
  {
    if i < n { SpaceSpanIs(s, i + 1, n); }
  }

  /** White space may stand between a key and its colon. */
  lemma KeyMayBeSpaced(key: string, blanks: string, rest: string)
    requires KeyWord(key) && forall i | 0 <= i < |blanks| :: IsSpace(blanks[i])
    ensures MatchKey(key + blanks + ":" + rest) == Some(KeyMatch(key, rest))
  {
    var s, n := key + blanks + ":" + rest, |key| + |blanks|;
    forall c: char | KeyChar(c) ensures !IsSpace(c) { KeyCharIsPlain(c); }
    ColonIsNotSpace();
    forall k | 0 <= k < |key| ensures KeyChar(s[k]) { assert s[k] == key[k]; }
    assert forall k | |key| <= k < n :: s[k] == blanks[k - |key|];
    assert s[n] == ':' && s[..|key|] == key && s[n + 1..] == rest && !KeyChar(':');
    hide IsSpace, KeyChar;
    KeySpanIs(s, 1, |key|);
    SpaceSpanIs(s, |key|, n);
    assert KeyStart(s[0]) by { assert s[0] == key[0]; }
    hide KeySpan, SpaceSpan;
  }

  /** A key that is already there is refused, whatever is behind its colon: at the left margin, and in the permissions. */
  lemma KeyTwiceIsRefused(front: seq<string>, key: string, rest: string, readSchema: SchemaReader)
    requires KeyWord(key) && ReadFront(front, readSchema).Success?
    ensures key in ReadFront(front, readSchema).value.values ==>
      ReadFront(front + [key + ":" + rest], readSchema).Failure?
    ensures InPermissions(front) && key in NestedFields(ReadFront(front, readSchema).value) ==>
      ReadFront(front + ["  " + key + ":" + rest], readSchema).Failure?
  {
    FrontShape(front, readSchema);
    var st := ReadFront(front, readSchema).value;
    hide *;
    FrontSnoc(front, key + ":" + rest, readSchema);
    FrontSnoc(front, "  " + key + ":" + rest, readSchema);
    if key in st.values { TopTwice(st, key, rest, readSchema); }
    if InPermissions(front) && key in NestedFields(st) {
      assert st.nested by { ShapeNested(st, InPermissions(front), UnderList(front)); }
      NestedTwice(st, key, rest, readSchema);
    }
  }

  lemma ShapeNested(st: FrontState, nested: bool, open: bool)
    requires Shape(st, nested, open)
    ensures st.nested == nested
  {
  }

  lemma TopTwice(st: FrontState, key: string, rest: string, readSchema: SchemaReader)
    requires KeyWord(key) && key in st.values
    ensures Step(st, key + ":" + rest, readSchema).Failure?
  {
    var raw := key + ":" + rest;
    assert "" + key + ":" + rest == raw;
    hide *;
    AnyKeyLine("", key, rest);
    TopKeyKnown(st, raw, readSchema);
  }

  lemma TopKeyKnown(st: FrontState, raw: string, readSchema: SchemaReader)
    requires Strip(raw) != "" && Strip(raw)[0] != '#' && !IsItemLine(Strip(raw)) && Indent(raw) == 0
    requires MatchKey(Strip(raw)).Some? && MatchKey(Strip(raw)).value.key in st.values
    ensures Step(st, raw, readSchema).Failure?
  {
    hide MatchKey, Strip, Indent, IsItemLine, NestedLine, StripComment, ReadValue, ReadScalar, AppendItem;
  }

  lemma NestedTwice(st: FrontState, key: string, rest: string, readSchema: SchemaReader)
    requires KeyWord(key) && st.nested && key in NestedFields(st)
    ensures Step(st, "  " + key + ":" + rest, readSchema).Failure?
  {
    hide *;
    AnyKeyLine("  ", key, rest);
    NestedKeyKnown(st, "  " + key + ":" + rest, readSchema);
  }

  lemma NestedKeyKnown(st: FrontState, raw: string, readSchema: SchemaReader)
    requires Strip(raw) != "" && Strip(raw)[0] != '#' && !IsItemLine(Strip(raw)) && Indent(raw) == 2 && st.nested
    requires MatchKey(Strip(raw)).Some? && MatchKey(Strip(raw)).value.key in NestedFields(st)
    ensures Step(st, raw, readSchema).Failure?
  {
    hide MatchKey, Strip, Indent, IsItemLine, TopLine, StripComment, ReadValue, ReadScalar, AppendItem, NestedFields;
  }

  // ---------- lines in the wrong place ----------

  lemma NoColonNoKey(s: string)
    requires ':' !in s
    ensures MatchKey(s).None?
  {
  }

  lemma {:induction false} StripWithin(s: string, c: char)
    requires c !in s
    ensures c !in LStrip(s) && c !in RStrip(s)
    decreases |s|
  {
    if s != "" {
      if IsSpace(s[0]) { StripWithin(s[1..], c); }
      if IsSpace(s[|s| - 1]) { StripWithin(s[..|s| - 1], c); }
    }
  }

  /** Refused are: an item without a list above it or not as deep as the list asks; any other indented line that is no key of
      the permissions and is not as deep as the items of a list above it; and a line without a colon where a key belongs. */
  lemma MisplacedIsRefused(front: seq<string>, raw: string, readSchema: SchemaReader)
    requires ReadFront(front, readSchema).Success? && HasContent(raw)
    ensures !(UnderList(front) && Indent(raw) >= ListIndent(front)) ==>
      && (IsItemLine(Strip(raw)) ==> ReadFront(front + [raw], readSchema).Failure?)
      && (Indent(raw) != 0 && !(Indent(raw) == 2 && InPermissions(front)) ==> ReadFront(front + [raw], readSchema).Failure?)
    ensures !IsItemLine(Strip(raw)) && ':' !in raw && (Indent(raw) == 0 || (Indent(raw) == 2 && InPermissions(front))) ==>
      ReadFront(front + [raw], readSchema).Failure?
  {
    FrontShape(front, readSchema);
    FrontSnoc(front, raw, readSchema);
    if ':' !in raw {
      StripWithin(raw, ':');
      StripWithin(LStrip(raw), ':');
      NoColonNoKey(Strip(raw));
    }
    hide ReadFront, MatchKey, Strip, Indent, IsItemLine, InPermissions, UnderList, NestedFields, ReadScalar, StripComment;
  }

  // ---------- scalars ----------

  /** What a value without a comment is: the text between a pair of the same quotes; the words true and false; a number in
      digits, with a minus sign or without; or the text itself, unless it starts with a character that YAML reserves. */
  lemma ScalarMeans(raw: string)
    ensures var t, r := Strip(raw), ReadScalar(raw);
      if |t| >= 2 && t[0] in {'"', '\''} && t[|t| - 1] == t[0] then r == Success(Str(t[1..|t| - 1]))
      else if t == "true" || t == "false" then r == Success(Bool(t == "true"))
      else if IsInteger(t) then r == Success(Int(ToInt(t)))
      else if t != "" && t[0] in {'[', '{', '|', '>', '&', '*', '!'} then r.Failure?
      else r == Success(Str(t))
  {
    hide Strip, IsInteger, ToInt;
  }

  // ---------- inline lists ----------

  /** The items with commas between them. */
  function Joined(items: seq<string>): string {
    if items == [] then "" else if |items| == 1 then items[0] else items[0] + "," + Joined(items[1..])
  }

  /** No comma stands outside quotes. */
  predicate CommasQuoted(item: string) {
    forall k | 0 <= k < |item| && item[k] == ',' :: OpenAfter(item[..k], None).Some?
  }

  predicate WholeItem(item: string) {
    CommasQuoted(item) && OpenAfter(item, None) == None
  }

  lemma OneMoreChar(item: string, c: char)
    ensures OpenAfter(item + [c], None) == NextQuote(c, OpenAfter(item, None))
    ensures CommasQuoted(item + [c]) <==> CommasQuoted(item) && (c == ',' ==> OpenAfter(item, None).Some?)
  {
    ScanAppend(item, [c], None);
    var more := item + [c];
    assert [c][1..] == "" && forall k | 0 <= k <= |item| :: more[..k] == item[..k];
    hide NextQuote;
    assert OpenAfter([c], OpenAfter(item, None)) == NextQuote(c, OpenAfter(item, None));
    assert more[|item|] == c && more[..|item|] == item;
    forall k | 0 <= k < |item| ensures more[k] == item[k] && more[..k] == item[..k] { }
  }

  lemma JoinedFirst(item: string, rest: seq<string>)
    requires rest != []
    ensures Joined([item] + rest) == item + "," + Joined(rest)
  {
    assert ([item] + rest)[1..] == rest;
  }

  lemma {:induction false} SplitsFrom(s: string, current: string)
    requires CommasQuoted(current)
    ensures var r := SplitItems(s, current, OpenAfter(current, None));
      && (r.None? <==> OpenAfter(current + s, None).Some?)
      && (r.Some? ==> r.value != [] && Joined(r.value) == current + s && forall i | 0 <= i < |r.value| :: WholeItem(r.value[i]))
    decreases |s|
  {
    if s == "" {
      assert current + s == current;
    } else {
      var c := s[0];
      OneMoreChar(current, c);
      assert current + [c] + s[1..] == current + s;
      hide CommasQuoted, OpenAfter;
      if c == ',' && OpenAfter(current, None).None? {
        assert CommasQuoted("") && OpenAfter("", None) == None by { EmptyItem(); }
        SplitsFrom(s[1..], "");
        var rest := SplitItems(s[1..], "", None);
        assert "" + s[1..] == s[1..];
        AfterComma(current, s[1..]);
        assert current + s == current + "," + s[1..];
        if rest.Some? { JoinedFirst(current, rest.value); }
      } else {
        SplitsFrom(s[1..], current + [c]);
      }
    }
  }

  lemma EmptyItem()
    ensures CommasQuoted("") && OpenAfter("", None) == None
  {
  }

  lemma AfterComma(item: string, rest: string)
    requires OpenAfter(item, None) == None
    ensures OpenAfter(item + "," + rest, None) == OpenAfter(rest, None)
  {
    ScanAppend(item + ",", rest, None);
    ScanAppend(item, ",", None);
    assert ","[1..] == "";
    assert OpenAfter(",", None) == OpenAfter("", NextQuote(',', None)) == None;
  }

  /** A list is split at exactly the commas outside quotes: the items with commas between them are the text again, and none of
      them has such a comma or leaves a quote open; only a text with an unclosed quote is not split. */
  lemma ItemsMakeTheText(s: string)
    ensures var r := SplitItems(s, "", None);
      && (r.None? <==> OpenAfter(s, None).Some?)
      && (r.Some? ==> r.value != [] && Joined(r.value) == s && forall i | 0 <= i < |r.value| :: WholeItem(r.value[i]))
  {
    EmptyItem();
    SplitsFrom(s, "");
    assert "" + s == s;
    hide *;
  }

  /** A blank item is passed over. */
  lemma {:induction false} BlankItemIsSkipped(before: seq<string>, blank: string, after: seq<string>)
    requires Strip(blank) == ""
    ensures ReadScalars(before + [blank] + after) == ReadScalars(before + after)
    decreases after
  {
    hide Strip, ReadScalar;
    var all, less := before + [blank] + after, before + after;
    if after == [] {
      assert all[..|all| - 1] == before && less == before;
    } else {
      BlankItemIsSkipped(before, blank, after[..|after| - 1]);
      assert all[..|all| - 1] == before + [blank] + after[..|after| - 1] && less[..|less| - 1] == before + after[..|after| - 1];
    }
  }

  // ---------- the fences ----------

  /** The characters that end a line. */
  const BREAKS := {'\n', '\r', '\U{b}', '\U{c}', '\U{1c}', '\U{1d}', '\U{1e}', '\U{85}', '\U{2028}', '\U{2029}'}

  lemma BreaksAre(c: char)
    ensures IsBreak(c) <==> c in BREAKS
  {
  }

  lemma {:induction false} LineLengthTo(line: string, c: char, rest: string)
    requires SingleLine(line) && IsBreak(c)
    ensures LineLength(line + [c] + rest) == |line|
  {
    hide IsBreak;
    if line != "" {
      assert !IsBreak(line[0]);
      assert (line + [c] + rest)[1..] == line[1..] + [c] + rest;
      assert SingleLine(line[1..]);
      LineLengthTo(line[1..], c, rest);
    } else {
      assert (line + [c] + rest)[0] == c;
    }
  }

  /** Each of these characters ends a line; a carriage return takes a line feed behind it along. */
  lemma BreakSplits(line: string, c: char, rest: string)
    requires (forall i | 0 <= i < |line| :: line[i] !in BREAKS) && c in BREAKS
    ensures SplitLines(line + [c] + rest) ==
      [line] + SplitLines(if c == '\r' && rest != "" && rest[0] == '\n' then rest[1..] else rest)
  {
    BreaksAre(c);
    forall i | 0 <= i < |line| { BreaksAre(line[i]); }
    LineLengthTo(line, c, rest);
    var text := line + [c] + rest;
    hide LineLength, IsBreak;
    assert text[..|line|] == line && text[|line|] == c && text[|line| + 1..] == rest;
    if c == '\r' && rest != "" && rest[0] == '\n' {
      assert text[|line| + 1] == '\n' && text[|line| + 2..] == rest[1..];
    }
  }

  /** The head lies between a first line `---` and the next such line, white space aside; without both the text is refused.
      The body is what follows. */
  lemma FencesDecide(text: string, k: nat)
    ensures var lines := SplitLines(text);
      && (lines == [] || Strip(lines[0]) != "---" ==> Split(text).Failure?)
      && ((forall i | 1 <= i < |lines| :: Strip(lines[i]) != "---") ==> Split(text).Failure?)
      && (1 <= k < |lines| && Strip(lines[0]) == "---" && Strip(lines[k]) == "---"
          && (forall i | 1 <= i < k :: Strip(lines[i]) != "---") ==>
            Split(text) == Success(Parts(lines[1..k], Strip(StripNewlines(Join(lines[k + 1..]))))))
  {
    hide Strip, SplitLines, StripNewlines, Join;
  }
}
