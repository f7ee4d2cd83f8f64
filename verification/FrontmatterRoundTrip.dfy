/** What the renderer writes for one value, the frontmatter grammar reads back. */
module FrontmatterRoundTrip {

  import opened Wrappers
  import opened Text
  import opened Frontmatter
  import opened Definitions

  // ---------- stripping ----------

  /** Neither starts nor ends with white space. */
  predicate Trimmed(s: string) {
    s != "" ==> !IsSpace(s[0]) && !IsSpace(s[|s| - 1])
  }

  lemma StripTrimmed(s: string)
    requires Trimmed(s)
    ensures Strip(s) == s && LStrip(s) == s
  {
  }

  /** Leading blanks go away. */
  lemma StripIndented(s: string)
    requires Trimmed(s) && s != ""
    ensures Strip(" " + s) == s && LStrip(" " + s) == s
    ensures Strip("  " + s) == s && LStrip("  " + s) == s
  {
    assert (" " + s)[1..] == s && ("  " + s)[1..] == " " + s;
    hide IsSpace;
    assert IsSpace(' ') by { SpaceIsSpace(); }
    assert LStrip("  " + s) == LStrip(" " + s) == LStrip(s) == s;
  }

  lemma SpaceIsSpace()
    ensures IsSpace(' ')
  {
  }

  // ---------- comments ----------

  /** The quote that is open after one character, comments aside. */
  function NextQuote(c: char, quote: Option<char>): Option<char> {
    if quote.Some? then (if c == quote.value then None else quote) else if IsQuote(c) then Some(c) else None
  }

  function OpenAfter(s: string, quote: Option<char>): Option<char> {
    if s == "" then quote else OpenAfter(s[1..], NextQuote(s[0], quote))
  }

  /** Every `#` is inside quotes. */
  predicate HashFree(s: string, quote: Option<char>) {
    s == "" || ((quote.Some? || s[0] != '#') && HashFree(s[1..], NextQuote(s[0], quote)))
  }

  lemma {:induction false} NoComment(s: string, gap: bool, quote: Option<char>)
    requires HashFree(s, quote)
    ensures CommentStart(s, gap, quote) == |s|
  {
    hide IsSpace;
    if s != "" {
      NoComment(s[1..], if quote.None? && IsQuote(s[0]) then false else IsSpace(s[0]), NextQuote(s[0], quote));
    }
  }

  lemma {:induction false} ScanAppend(a: string, b: string, quote: Option<char>)
    ensures OpenAfter(a + b, quote) == OpenAfter(b, OpenAfter(a, quote))
    ensures HashFree(a + b, quote) <==> HashFree(a, quote) && HashFree(b, OpenAfter(a, quote))
  {
    if a == "" {
      assert a + b == b;
    } else {
      assert (a + b)[1..] == a[1..] + b;
      ScanAppend(a[1..], b, NextQuote(a[0], quote));
    }
  }

  lemma {:induction false} NoHash(s: string, quote: Option<char>)
    requires forall i | 0 <= i < |s| :: s[i] != '#'
    ensures HashFree(s, quote)
  {
    if s != "" { NoHash(s[1..], NextQuote(s[0], quote)); }
  }

  lemma {:induction false} NoQuotes(s: string)
    requires forall i | 0 <= i < |s| :: !IsQuote(s[i])
    ensures OpenAfter(s, None) == None
  {
    if s != "" { NoQuotes(s[1..]); }
  }

  predicate NoDoubleQuote(s: string) {
    forall i | 0 <= i < |s| :: s[i] != '"'
  }

  lemma {:induction false} InsideQuotes(s: string)
    requires NoDoubleQuote(s)
    ensures OpenAfter(s, Some('"')) == Some('"') && HashFree(s, Some('"'))
  {
    if s != "" { InsideQuotes(s[1..]); }
  }

  lemma RequoteSame(s: string)
    requires NoDoubleQuote(s)
    ensures Requote(s) == s
  {
  }

  lemma QuotedForm(v: string)
    requires NoDoubleQuote(v)
    ensures !Plain(v) ==> Quoted(v) == "\"" + v + "\""
    ensures Quoted(v) != ""
  {
    RequoteSame(v);
  }

  lemma PlainChars(v: string)
    requires Plain(v)
    ensures forall i | 0 <= i < |v| :: v[i] != '#' && v[i] != '"' && v[i] != '[' && v[i] != ']' && !IsBreak(v[i])
  {
    hide IsInteger, Strip;
    forall i | 0 <= i < |v| ensures v[i] != '#' && v[i] != '"' && v[i] != '[' && v[i] != ']' && !IsBreak(v[i]) {
      assert PlainChar(v[i]);
    }
  }

  /** No comma stands outside apostrophes and no apostrophe is left open; `open`: one is open before the text. */
  predicate Sealed(s: string, open: bool) {
    if s == "" then !open
    else if s[0] == '\'' then Sealed(s[1..], !open)
    else (s[0] != ',' || open) && Sealed(s[1..], open)
  }

  /** The quote that an apostrophe opens. */
  function Mark(open: bool): Option<char> {
    if open then Some('\'') else None
  }

  lemma {:induction false} SealedCloses(s: string, open: bool)
    requires NoDoubleQuote(s) && Sealed(s, open)
    ensures OpenAfter(s, Mark(open)) == None
  {
    if s != "" { SealedCloses(s[1..], if s[0] == '\'' then !open else open); }
  }

  lemma {:induction false} NoMarksSealed(s: string)
    requires forall i | 0 <= i < |s| :: s[i] != ',' && s[i] != '\''
    ensures Sealed(s, false)
  {
    if s != "" { NoMarksSealed(s[1..]); }
  }

  /** No comment hides in a rendered text; and a sealed or quoted one leaves no quote open. */
  lemma QuotedScan(v: string)
    requires NoDoubleQuote(v)
    ensures HashFree(Quoted(v), None)
    ensures (Plain(v) ==> Sealed(v, false)) ==> OpenAfter(Quoted(v), None) == None
  {
    hide IsInteger, Strip;
    if Plain(v) {
      PlainChars(v);
      NoHash(v, None);
      if Sealed(v, false) { SealedCloses(v, false); }
    } else {
      QuotedForm(v);
      hide Plain;
      InsideQuotes(v);
      var q := "\"";
      assert q[1..] == "";
      assert OpenAfter(q, None) == Some('"') && HashFree(q, None);
      assert OpenAfter(q, Some('"')) == None && HashFree(q, Some('"'));
      ScanAppend(q, v + q, None);
      ScanAppend(v, q, Some('"'));
      assert q + v + q == q + (v + q);
    }
  }

  // ---------- inline lists ----------

  /** Items that the renderer writes without changing a character. */
  predicate Clean(v: string) {
    NoDoubleQuote(v) && Trimmed(v)
  }

  /** A clean item that is passed over as a whole: one that is rendered bare is sealed. */
  predicate ItemOk(v: string) {
    Clean(v) && (Plain(v) ==> Sealed(v, false))
  }

  lemma {:induction false} SealedRun(t: string, open: bool, rest: string, current: string)
    requires NoDoubleQuote(t) && Sealed(t, open)
    ensures SplitItems(t + rest, current, Mark(open)) == SplitItems(rest, current + t, None)
  {
    if t == "" {
      assert t + rest == rest && current + t == current;
    } else {
      assert (t + rest)[1..] == t[1..] + rest;
      SealedRun(t[1..], if t[0] == '\'' then !open else open, rest, current + [t[0]]);
      assert current + [t[0]] + t[1..] == current + t;
    }
  }

  lemma {:induction false} QuotedRun(t: string, rest: string, current: string)
    requires NoDoubleQuote(t)
    ensures SplitItems(t + "\"" + rest, current, Some('"')) == SplitItems(rest, current + t + "\"", None)
  {
    if t == "" {
      assert (t + "\"" + rest)[1..] == rest && current + t == current;
    } else {
      assert (t + "\"" + rest)[1..] == t[1..] + "\"" + rest;
      QuotedRun(t[1..], rest, current + [t[0]]);
      assert current + [t[0]] + t[1..] == current + t;
    }
  }

  /** A rendered item is passed over as a whole. */
  lemma ItemRun(v: string, rest: string, current: string)
    requires ItemOk(v)
    ensures SplitItems(Quoted(v) + rest, current, None) == SplitItems(rest, current + Quoted(v), None)
  {
    if Plain(v) {
      hide Plain;
      assert Quoted(v) == v;
      SealedRun(v, false, rest, current);
    } else {
      QuotedForm(v);
      hide Quoted, Plain;
      QuotedRun(v, rest, current + "\"");
      assert (Quoted(v) + rest)[0] == '"' && (Quoted(v) + rest)[1..] == v + "\"" + rest;
      assert current + "\"" + v + "\"" == current + Quoted(v);
    }
  }

  /** The raw pieces between the commas. */
  function Pieces(lead: string, items: seq<string>): (r: seq<string>)
    ensures |r| == |items|
    decreases |items|
  {
    if items == [] then [] else [lead + Quoted(items[0])] + Pieces(" ", items[1..])
  }

  lemma {:induction false} PieceAt(lead: string, items: seq<string>, i: nat)
    requires i < |items|
    ensures Pieces(lead, items)[i] == (if i == 0 then lead else " ") + Quoted(items[i])
    decreases i
  {
    hide Quoted;
    if i > 0 { PieceAt(" ", items[1..], i - 1); }
  }

  lemma {:induction false} ListedSplits(lead: string, items: seq<string>)
    requires items != [] && forall i | 0 <= i < |items| :: ItemOk(items[i])
    ensures SplitItems(Listed(items), lead, None) == Some(Pieces(lead, items))
    decreases |items|
  {
    hide Quoted, ItemOk;
    if |items| == 1 {
      assert Quoted(items[0]) + "" == Listed(items);
      ItemRun(items[0], "", lead);
      assert Pieces(lead, items) == [lead + Quoted(items[0])];
    } else {
      var rest := Listed(items[1..]);
      assert Listed(items) == Quoted(items[0]) + (", " + rest);
      ItemRun(items[0], ", " + rest, lead);
      assert (", " + rest)[1..] == " " + rest && (" " + rest)[1..] == rest;
      ListedSplits(" ", items[1..]);
      assert "" + [' '] == " ";
    }
  }

  lemma {:induction false} ReadScalarsEach(pieces: seq<string>, scalars: seq<Scalar>)
    requires |pieces| == |scalars|
    requires forall i | 0 <= i < |pieces| :: Strip(pieces[i]) != "" && ReadScalar(pieces[i]) == Success(scalars[i])
    ensures ReadScalars(pieces) == Success(scalars)
  {
    hide ReadScalar, Strip;
    if pieces != [] {
      var n := |pieces| - 1;
      ReadScalarsEach(pieces[..n], scalars[..n]);
      assert scalars[..n] + [scalars[n]] == scalars;
    }
  }

  function Strs(items: seq<string>): (r: seq<Scalar>)
    ensures |r| == |items| && forall i | 0 <= i < |r| :: r[i] == Str(items[i])
  {
    seq(|items|, i requires 0 <= i < |items| => Str(items[i]))
  }

  lemma QuotedTrimmed(v: string)
    requires NoDoubleQuote(v) && Trimmed(v)
    ensures Trimmed(Quoted(v)) && Quoted(v) != "" && Quoted(v)[0] != '['
    ensures Quoted(v)[|Quoted(v)| - 1] != ']'
  {
    hide IsInteger, Strip;
    QuotedForm(v);
    QuotesAreNotSpace('"');
    hide IsSpace;
    if Plain(v) {
      assert PlainChar(v[0]) && PlainChar(v[|v| - 1]);
    }
  }

  lemma StripLead(t: string, lead: string)
    requires t != "" && Trimmed(t) && (lead == "" || lead == " ")
    ensures Strip(lead + t) == t
  {
    if lead == "" {
      assert lead + t == t;
      StripTrimmed(t);
    } else {
      StripIndented(t);
    }
  }

  /** A rendered text reads back as itself, after any blank. */
  lemma ReadQuotedScalar(v: string, lead: string)
    requires NoDoubleQuote(v) && Trimmed(v) && (lead == "" || lead == " ")
    ensures Strip(lead + Quoted(v)) == Quoted(v)
    ensures ReadScalar(lead + Quoted(v)) == Success(Str(v))
  {
    hide Strip, Plain, Quoted, IsInteger, Trimmed, NoDoubleQuote, ToInt;
    var t := Quoted(v);
    QuotedTrimmed(v);
    StripLead(t, lead);
    QuotedForm(v);
    if Plain(v) {
      PlainStart(v);
    } else {
      assert t[1..|t| - 1] == v;
    }
  }

  lemma PlainStart(v: string)
    requires Plain(v)
    ensures Quoted(v) == v && v != "" && !IsQuote(v[0]) && v != "true" && v != "false" && !IsInteger(v) && !IsMarker(v[0])
  {
    hide Strip, IsInteger;
    assert PlainChar(v[0]);
  }

  lemma {:induction false} ListedTrimmed(items: seq<string>)
    requires items != [] && forall i | 0 <= i < |items| :: Clean(items[i])
    ensures Listed(items) != "" && Trimmed(Listed(items))
  {
    hide Quoted, IsSpace, Trimmed, NoDoubleQuote, Plain;
    QuotedTrimmed(items[0]);
    if |items| > 1 {
      ListedTrimmed(items[1..]);
      TrimmedEnds(Quoted(items[0]), ", ", Listed(items[1..]));
    }
  }

  lemma TrimmedEnds(a: string, between: string, b: string)
    requires a != "" && b != "" && Trimmed(a) && Trimmed(b)
    ensures Trimmed(a + between + b)
  {
    hide IsSpace;
    assert (a + between + b)[0] == a[0] && (a + between + b)[|a + between + b| - 1] == b[|b| - 1];
  }

  lemma ListedEmpty()
    ensures Listed([]) == "" && Strip("") == ""
  {
  }

  lemma ReadListText(items: seq<string>)
    requires forall i | 0 <= i < |items| :: ItemOk(items[i])
    ensures ReadValue(ListText(items)) == Success(Many(Strs(items)))
  {
    hide Listed, NoDoubleQuote, Trimmed, Plain, Quoted, Strip, SplitItems, ReadScalar;
    var text := ListText(items);
    assert text[1..|text| - 1] == Listed(items);
    if items == [] {
      ListedEmpty();
    } else {
      ListedTrimmed(items);
      StripTrimmed(Listed(items));
      ListedSplits("", items);
      var pieces := Pieces("", items);
      forall i | 0 <= i < |items|
        ensures Strip(pieces[i]) != "" && ReadScalar(pieces[i]) == Success(Str(items[i]))
      {
        PieceAt("", items, i);
        ReadQuotedScalar(items[i], if i == 0 then "" else " ");
        QuotedForm(items[i]);
      }
      ReadScalarsEach(pieces, Strs(items));
    }
  }

  lemma ItemScan(v: string)
    requires ItemOk(v)
    ensures HashFree(Quoted(v), None) && OpenAfter(Quoted(v), None) == None
  {
    QuotedScan(v);
  }

  lemma {:induction false} ListedScan(items: seq<string>)
    requires forall i | 0 <= i < |items| :: ItemOk(items[i])
    ensures HashFree(Listed(items), None) && OpenAfter(Listed(items), None) == None
  {
    hide Quoted, ItemOk, HashFree, OpenAfter;
    if items == [] {
      NoHash("", None);
      NoQuotes("");
    } else {
      ItemScan(items[0]);
      if |items| > 1 {
        ListedScan(items[1..]);
        var rest := Listed(items[1..]);
        assert Listed(items) == Quoted(items[0]) + (", " + rest);
        hide Listed;
        NoHash(", ", None);
        NoQuotes(", ");
        ScanAppend(Quoted(items[0]), ", " + rest, None);
        ScanAppend(", ", rest, None);
      }
    }
  }

  lemma ListTextScan(items: seq<string>)
    requires forall i | 0 <= i < |items| :: ItemOk(items[i])
    ensures HashFree(ListText(items), None) && Trimmed(ListText(items)) && ListText(items) != ""
  {
    ListedScan(items);
    NoHash("[", None);
    NoQuotes("[");
    NoHash("]", None);
    ScanAppend("[" + Listed(items), "]", None);
    ScanAppend("[", Listed(items), None);
  }

  // ---------- values ----------

  /** A text that follows a key on its line and is read as it stands. */
  predicate Tidy(text: string) {
    text != "" && Trimmed(text) && HashFree(text, None)
  }

  lemma TidyRest(text: string)
    requires Tidy(text)
    ensures StripComment(" " + text) == text
  {
    var rest := " " + text;
    assert rest[1..] == text;
    NoComment(text, true, None);
    StripIndented(text);
    hide Strip, HashFree, IsSpace;
    assert IsSpace(' ') by { SpaceIsSpace(); }
    assert CommentStart(rest, true, None) == |rest|;
  }

  lemma ReadQuoted(v: string)
    requires NoDoubleQuote(v) && Trimmed(v)
    ensures Tidy(Quoted(v)) && ReadValue(Quoted(v)) == Success(One(Str(v)))
  {
    hide Quoted, Plain, NoDoubleQuote, Trimmed, HashFree, OpenAfter, ReadScalar, IsSpace, Strip, ReadList;
    var t := Quoted(v);
    QuotedTrimmed(v);
    QuotedScan(v);
    ReadQuotedScalar(v, "");
    assert "" + t == t;
  }

  /** A word the renderer writes bare: it starts with a letter or digit and stays within letters, digits, `_`, `-`. */
  predicate Word(v: string) {
    && v != "" && (IsLetter(v[0]) || IsDigit(v[0]) || v[0] == '_')
    && forall i | 0 <= i < |v| :: IsLetter(v[i]) || IsDigit(v[i]) || v[i] == '_' || v[i] == '-'
  }

  lemma ReadWord(v: string)
    requires Word(v)
    ensures Tidy(v)
    ensures ReadValue(v) == Success(One(
      if v == "true" || v == "false" then Bool(v == "true") else if IsInteger(v) then Int(ToInt(v)) else Str(v)))
  {
    NoHash(v, None);
    StripTrimmed(v);
    hide Strip, IsInteger, HashFree, IsSpace, LStrip, RStrip;
    assert !IsQuote(v[0]) && !IsMarker(v[0]);
  }
}
