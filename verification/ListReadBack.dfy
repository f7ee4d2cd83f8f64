/** Which lists the frontmatter grammar reads back from the renderer's inline form: exactly those whose bare items are
    sealed. The proof counts commas: what is read back leaves no room for a blank piece, so the first item that is not
    sealed comes back shorter or longer than it was. */
module ListReadBack {

  import opened Wrappers
  import opened Text
  import opened Frontmatter
  import opened Definitions
  import opened FrontmatterRoundTrip

  // ---------- counting commas ----------

  function Commas(s: string): nat {
    if s == "" then 0 else (if s[0] == ',' then 1 else 0) + Commas(s[1..])
  }

  function AllCommas(items: seq<string>): nat {
    if items == [] then 0 else Commas(items[0]) + AllCommas(items[1..])
  }

  lemma {:induction false} CommasAppend(a: string, b: string)
    ensures Commas(a + b) == Commas(a) + Commas(b)
  {
    if a == "" {
      assert a + b == b;
    } else {
      assert (a + b)[1..] == a[1..] + b;
      CommasAppend(a[1..], b);
    }
  }

  lemma {:induction false} AllCommasAppend(a: seq<string>, b: seq<string>)
    ensures AllCommas(a + b) == AllCommas(a) + AllCommas(b)
  {
    hide Commas;
    if a == [] {
      assert a + b == b;
    } else {
      assert (a + b)[1..] == a[1..] + b;
      AllCommasAppend(a[1..], b);
    }
  }

  lemma OneComma(c: char)
    ensures Commas([c]) == if c == ',' then 1 else 0
  {
    assert [c][1..] == "";
  }

  lemma {:induction false} CommasLStrip(s: string)
    ensures Commas(LStrip(s)) == Commas(s)
  {
    if s != "" && IsSpace(s[0]) { CommasLStrip(s[1..]); }
  }

  lemma {:induction false} CommasRStrip(s: string)
    ensures Commas(RStrip(s)) == Commas(s)
  {
    if s != "" && IsSpace(s[|s| - 1]) {
      CommasRStrip(s[..|s| - 1]);
      assert s == s[..|s| - 1] + [s[|s| - 1]];
      CommasAppend(s[..|s| - 1], [s[|s| - 1]]);
      OneComma(s[|s| - 1]);
    }
  }

  lemma CommasStrip(s: string)
    ensures Commas(Strip(s)) == Commas(s)
  {
    CommasLStrip(s);
    CommasRStrip(LStrip(s));
  }

  /** Splitting takes away one comma between any two pieces. */
  lemma {:induction false} CommasSplit(s: string, current: string, quote: Option<char>)
    requires SplitItems(s, current, quote).Some?
    ensures var pieces := SplitItems(s, current, quote).value;
      |pieces| >= 1 && Commas(current) + Commas(s) == AllCommas(pieces) + |pieces| - 1
    decreases |s|
  {
    if s == "" {
      assert [current][1..] == [];
    } else {
      CommasAppend(current, [s[0]]);
      OneComma(s[0]);
      if quote.Some? {
        CommasSplit(s[1..], current + [s[0]], if s[0] == quote.value then None else quote);
      } else if IsQuote(s[0]) {
        CommasSplit(s[1..], current + [s[0]], Some(s[0]));
      } else if s[0] == ',' {
        CommasSplit(s[1..], "", None);
        var rest := SplitItems(s[1..], "", None).value;
        assert ([current] + rest)[1..] == rest;
      } else {
        CommasSplit(s[1..], current + [s[0]], None);
      }
    }
  }

  /** The text of a piece, with its quotes and outer blanks gone, has the commas of the piece. */
  lemma CommasScalar(piece: string, text: string)
    requires ReadScalar(piece) == Success(Str(text))
    ensures Commas(Strip(text)) == Commas(piece)
  {
    CommasStrip(piece);
    CommasStrip(text);
    var value := Strip(piece);
    if text != value {
      assert value == [value[0]] + text + [value[|value| - 1]];
      CommasAppend([value[0]], text);
      CommasAppend([value[0]] + text, [value[|value| - 1]]);
      OneComma(value[0]);
    }
  }

  predicate Texts(scalars: seq<Scalar>) {
    forall i | 0 <= i < |scalars| :: scalars[i].Str?
  }

  /** What is read keeps the commas of the pieces; and when nothing was skipped as blank, each piece gave its scalar. */
  lemma {:induction false} ScalarsOfPieces(pieces: seq<string>, scalars: seq<Scalar>)
    requires ReadScalars(pieces) == Success(scalars) && Texts(scalars)
    ensures |scalars| <= |pieces| && AllCommas(Stripped(scalars)) == AllCommas(pieces)
    ensures |scalars| == |pieces| ==> forall i | 0 <= i < |pieces| :: ReadScalar(pieces[i]) == Success(scalars[i])
  {
    hide ReadScalar, Strip, Commas;
    if pieces != [] {
      var n := |pieces| - 1;
      var init, last := pieces[..n], pieces[n];
      assert pieces == init + [last];
      AllCommasAppend(init, [last]);
      assert [last][1..] == [];
      var before := ReadScalars(init).value;
      if Strip(last) == "" {
        ScalarsOfPieces(init, scalars);
        CommasStrip(last);
        NoCommas();
      } else {
        var item := ReadScalar(last).value;
        TextsSplit(scalars, before, item);
        ScalarsOfPieces(init, before);
        CommasScalar(last, item.text);
        AllCommasAppend(Stripped(before), [Strip(item.text)]);
        assert [Strip(item.text)][1..] == [];
      }
    }
  }

  lemma TextsSplit(scalars: seq<Scalar>, before: seq<Scalar>, item: Scalar)
    requires Texts(scalars) && scalars == before + [item]
    ensures Texts(before) && item.Str? && Stripped(scalars) == Stripped(before) + [Strip(item.text)]
  {
    hide Strip;
    forall i | 0 <= i < |before| ensures before[i].Str? { assert before[i] == scalars[i]; }
    assert item == scalars[|before|];
  }

  lemma NoCommas()
    ensures Commas("") == 0
  {
  }

  lemma CommasQuoted(v: string)
    requires NoDoubleQuote(v)
    ensures Commas(Quoted(v)) == Commas(v)
  {
    QuotedForm(v);
    hide Plain;
    if !Plain(v) {
      CommasAppend("\"", v);
      CommasAppend("\"" + v, "\"");
      OneComma('"');
    }
  }

  lemma {:induction false} CommasListed(items: seq<string>)
    requires items != [] && forall i | 0 <= i < |items| :: Clean(items[i])
    ensures Commas(Listed(items)) == AllCommas(items) + |items| - 1
  {
    hide Quoted, Commas, Trimmed, NoDoubleQuote;
    CommasQuoted(items[0]);
    if |items| == 1 {
      assert items[1..] == [];
    } else {
      CommasListed(items[1..]);
      var rest := Listed(items[1..]);
      assert Listed(items) == Quoted(items[0]) + ", " + rest;
      CommasAppend(Quoted(items[0]), ", ");
      CommasAppend(Quoted(items[0]) + ", ", rest);
      CommaSpace();
    }
  }

  lemma CommaSpace()
    ensures Commas(", ") == 1
  {
    assert ", "[1..] == " " && " "[1..] == "";
  }

  // ---------- the first piece of an item that is not sealed ----------

  lemma {:induction false} PieceGrows(s: string, current: string, quote: Option<char>)
    requires SplitItems(s, current, quote).Some?
    ensures var pieces := SplitItems(s, current, quote).value; pieces != [] && current <= pieces[0]
    decreases |s|
  {
    if s != "" {
      if quote.Some? {
        PieceGrows(s[1..], current + [s[0]], if s[0] == quote.value then None else quote);
      } else if IsQuote(s[0]) {
        PieceGrows(s[1..], current + [s[0]], Some(s[0]));
      } else if s[0] != ',' {
        PieceGrows(s[1..], current + [s[0]], None);
      }
    }
  }

  /** The first piece ends inside the item, or runs on into what follows it. */
  lemma {:induction false} UnsealedPiece(v: string, open: bool, rest: string, current: string)
    requires NoDoubleQuote(v) && !Sealed(v, open) && SplitItems(v + rest, current, Mark(open)).Some?
    ensures var pieces := SplitItems(v + rest, current, Mark(open)).value;
      && pieces != [] && current <= pieces[0]
      && (|pieces[0]| < |current| + |v| || (rest != "" && current + v + [rest[0]] <= pieces[0]))
    decreases |v|
  {
    var s := v + rest;
    PieceGrows(s, current, Mark(open));
    if v == "" {
      assert s == rest && current + v == current;
      if rest != "" {
        PieceGrows(rest[1..], current + [rest[0]], if rest[0] == '\'' then None else Mark(true));
      }
    } else {
      assert s[1..] == v[1..] + rest;
      if v[0] == '\'' {
        UnsealedPiece(v[1..], !open, rest, current + [v[0]]);
      } else if v[0] != ',' || open {
        UnsealedPiece(v[1..], open, rest, current + [v[0]]);
      }
      assert current + [v[0]] + v[1..] == current + v;
    }
  }

  lemma {:induction false} LStripShorter(s: string)
    ensures |LStrip(s)| <= |s|
  {
    if s != "" && IsSpace(s[0]) { LStripShorter(s[1..]); }
  }

  lemma {:induction false} RStripShorter(s: string)
    ensures |RStrip(s)| <= |s| && RStrip(s) <= s
  {
    if s != "" && IsSpace(s[|s| - 1]) { RStripShorter(s[..|s| - 1]); }
  }

  lemma StripShorter(s: string)
    ensures |Strip(s)| <= |s|
    ensures s != "" && IsSpace(s[0]) ==> |Strip(s)| < |s|
  {
    LStripShorter(s);
    RStripShorter(LStrip(s));
    if s != "" && IsSpace(s[0]) { LStripShorter(s[1..]); }
  }

  /** A name is no longer than the piece it came from. */
  lemma NameShorter(piece: string, text: string)
    requires ReadScalar(piece) == Success(Str(text))
    ensures |Strip(text)| <= |piece| && (piece != "" && IsSpace(piece[0]) ==> |Strip(text)| < |piece|)
  {
    StripShorter(piece);
    StripShorter(text);
    hide Strip, IsSpace, ToInt, IsInteger;
  }

  lemma PieceShorter(piece: string, lead: string, v: string, text: string)
    requires (lead == "" || lead == " ") && lead <= piece && |piece| < |lead| + |v|
    requires ReadScalar(piece) == Success(Str(text))
    ensures |Strip(text)| < |v|
  {
    NameShorter(piece, text);
    SpaceIsSpace();
    hide Strip, IsSpace, ReadScalar;
    if lead == " " { assert piece[0] == lead[0]; }
  }

  lemma {:induction false} RStripKeeps(s: string, n: nat)
    requires 0 < n <= |s| && !IsSpace(s[n - 1])
    ensures n <= |RStrip(s)| && RStrip(s)[..n] == s[..n] && !IsSpace(RStrip(s)[|RStrip(s)| - 1])
  {
    if n < |s| && IsSpace(s[|s| - 1]) {
      RStripKeeps(s[..|s| - 1], n);
    }
  }

  /** The text goes on after `v` with something that is not stripped. */
  predicate Outruns(s: string, v: string) {
    v != "" && |s| > |v| && v <= s && !IsSpace(s[|v|])
  }

  lemma StripOfLonger(v: string, s: string, lead: string)
    requires Outruns(s, v) && !IsSpace(v[0]) && (lead == "" || lead == " ")
    ensures var r := Strip(lead + s); |r| > |v| && r[0] == v[0] && Trimmed(r)
  {
    hide IsSpace, LStrip, RStrip, Trimmed, Strip;
    LeadGone(s, lead);
    RStripKeeps(s, |v| + 1);
    StripIs(lead, s);
    var r := RStrip(s);
    assert r[0] == s[..|v| + 1][0];
    EndsTrimmed(r);
  }

  lemma StripIs(lead: string, s: string)
    requires LStrip(lead + s) == s
    ensures Strip(lead + s) == RStrip(s)
  {
  }

  lemma EndsTrimmed(s: string)
    requires s != "" && !IsSpace(s[0]) && !IsSpace(s[|s| - 1])
    ensures Trimmed(s)
  {
  }

  lemma BareScalar(piece: string, text: string)
    requires ReadScalar(piece) == Success(Str(text)) && Strip(piece) != "" && !IsQuote(Strip(piece)[0])
    ensures text == Strip(piece)
  {
    hide Strip, IsInteger, ToInt;
  }

  /** A piece that starts like a bare item and goes on is read as a longer name. */
  lemma NameLonger(v: string, s: string, lead: string, text: string)
    requires Outruns(s, v) && Trimmed(v) && !IsQuote(v[0]) && (lead == "" || lead == " ")
    requires ReadScalar(lead + s) == Success(Str(text))
    ensures |Strip(text)| > |v|
  {
    assert !IsSpace(v[0]);
    hide Strip, ReadScalar, Trimmed, Outruns;
    StripOfLonger(v, s, lead);
    BareScalar(lead + s, text);
    StripTrimmed(text);
  }

  lemma LeadGone(s: string, lead: string)
    requires s != "" && !IsSpace(s[0]) && (lead == "" || lead == " ")
    ensures LStrip(lead + s) == s
  {
    if lead == "" {
      assert lead + s == s;
    } else {
      assert (lead + s)[1..] == s;
    }
  }

  // ---------- what reads back is sealed ----------

  predicate Sealable(v: string) {
    Plain(v) ==> Sealed(v, false)
  }

  lemma FirstIsSealed(v: string, rest: string, lead: string, text: string)
    requires Clean(v) && (lead == "" || lead == " ") && (rest == "" || rest[0] == ',')
    requires SplitItems(Quoted(v) + rest, lead, None).Some?
    requires var pieces := SplitItems(Quoted(v) + rest, lead, None).value;
      pieces != [] && ReadScalar(pieces[0]) == Success(Str(text)) && Strip(text) == v
    ensures Sealable(v)
  {
    if Plain(v) && !Sealed(v, false) {
      PlainStart(v);
      hide Plain, Quoted, ReadScalar, Sealed, NoDoubleQuote, Trimmed, Outruns, IsSpace, SplitItems, IsMarker, IsInteger;
      UnsealedPiece(v, false, rest, lead);
      var piece := SplitItems(v + rest, lead, None).value[0];
      if |piece| < |lead| + |v| {
        PieceShorter(piece, lead, v, text);
      } else {
        CutLead(piece, lead, v);
        NameLonger(v, piece[|lead|..], lead, text);
      }
    }
  }

  lemma CutLead(piece: string, lead: string, v: string)
    requires v != "" && lead + v + "," <= piece
    ensures lead <= piece && piece == lead + piece[|lead|..] && Outruns(piece[|lead|..], v)
  {
    var s, w := piece[|lead|..], lead + v + ",";
    assert piece[..|w|] == w;
    assert forall i | 0 <= i < |lead| :: piece[i] == w[i] == lead[i];
    assert forall i | 0 <= i < |v| :: s[i] == piece[|lead| + i] == w[|lead| + i] == v[i];
    assert s[|v|] == w[|lead| + |v|] == ',';
    CommaIsNotSpace();
  }

  lemma CommaIsNotSpace()
    ensures !IsSpace(',')
  {
  }

  /** Piece by piece: an item that comes back is sealed, so the next piece starts at the next item. */
  lemma {:induction false} PiecesAreSealed(items: seq<string>, lead: string, texts: seq<string>)
    requires items != [] && (forall i | 0 <= i < |items| :: Clean(items[i])) && (lead == "" || lead == " ")
    requires SplitItems(Listed(items), lead, None).Some?
    requires var pieces := SplitItems(Listed(items), lead, None).value;
      && |pieces| == |texts| == |items|
      && forall i | 0 <= i < |items| :: ReadScalar(pieces[i]) == Success(Str(texts[i])) && Strip(texts[i]) == items[i]
    ensures forall i | 0 <= i < |items| :: Sealable(items[i])
    decreases |items|
  {
    hide Quoted, Clean, ReadScalar, Strip, Sealable;
    var v := items[0];
    var rest := if |items| == 1 then "" else ", " + Listed(items[1..]);
    assert Listed(items) == Quoted(v) + rest;
    FirstIsSealed(v, rest, lead, texts[0]);
    if |items| > 1 {
      SealableIsOk(v);
      ItemRun(v, rest, lead);
      assert rest[1..] == " " + Listed(items[1..]) && (" " + Listed(items[1..]))[1..] == Listed(items[1..]);
      assert "" + [' '] == " ";
      var pieces := SplitItems(Listed(items), lead, None).value;
      assert pieces[1..] == SplitItems(Listed(items[1..]), " ", None).value;
      PiecesAreSealed(items[1..], " ", texts[1..]);
      forall i | 0 <= i < |items| ensures Sealable(items[i]) {
        if i > 0 { assert items[i] == items[1..][i - 1]; }
      }
    }
  }

  lemma SealableIsOk(v: string)
    requires Clean(v) && Sealable(v)
    ensures ItemOk(v)
  {
  }

  /** The value gives the items back, as the names that a list field is read for. */
  predicate GivesBack(value: Result<FrontValue, DefinitionError>, items: seq<string>) {
    value.Success? && ReadNames(value.value) == Success(items)
  }

  lemma ReadListValue(items: seq<string>)
    requires items != [] && forall i | 0 <= i < |items| :: Clean(items[i])
    ensures ReadValue(ListText(items)) ==
      match SplitItems(Listed(items), "", None)
      case None => Failure(DefinitionError)
      case Some(pieces) => match ReadScalars(pieces)
        case Failure(e) => Failure(e)
        case Success(scalars) => Success(Many(scalars))
  {
    hide Listed, Clean, SplitItems, ReadScalars, IsSpace;
    var text := ListText(items);
    assert text[1..|text| - 1] == Listed(items);
    ListedTrimmed(items);
    StripTrimmed(Listed(items));
    hide Strip;
  }

  lemma NamesAre(value: FrontValue, items: seq<string>)
    requires ReadNames(value) == Success(items)
    ensures value.Many? && Texts(value.items) && Stripped(value.items) == items
  {
  }

  lemma GivenBackIsSealed(items: seq<string>)
    requires items != [] && (forall i | 0 <= i < |items| :: Clean(items[i])) && GivesBack(ReadValue(ListText(items)), items)
    ensures forall i | 0 <= i < |items| :: Sealable(items[i])
  {
    hide ListText, Listed, Clean, SplitItems, ReadScalars, ReadScalar, Strip, ReadNames, ReadValue, Commas, AllCommas, Sealable;
    ReadListValue(items);
    var pieces := SplitItems(Listed(items), "", None).value;
    var scalars := ReadScalars(pieces).value;
    NamesAre(Many(scalars), items);
    CommasSplit(Listed(items), "", None);
    CommasListed(items);
    NoCommas();
    ScalarsOfPieces(pieces, scalars);
    var texts := seq(|scalars|, i requires 0 <= i < |scalars| => scalars[i].text);
    PiecesAreSealed(items, "", texts);
  }

  lemma StrsAreNames(items: seq<string>)
    requires forall i | 0 <= i < |items| :: Clean(items[i])
    ensures ReadNames(Many(Strs(items))) == Success(items)
  {
    forall i | 0 <= i < |items| ensures Strip(items[i]) == items[i] { StripTrimmed(items[i]); }
    hide Strip, Clean;
    assert Stripped(Strs(items)) == items;
  }

  /** The inline list of clean items is read back, as the same texts or as the same names, exactly when no bare item has
      a comma outside apostrophes or an apostrophe left open. */
  lemma ListReadsBackExactly(items: seq<string>)
    requires forall i | 0 <= i < |items| :: Clean(items[i])
    ensures ReadValue(ListText(items)) == Success(Many(Strs(items))) <==> forall i | 0 <= i < |items| :: Sealable(items[i])
    ensures GivesBack(ReadValue(ListText(items)), items) <==> forall i | 0 <= i < |items| :: Sealable(items[i])
  {
    StrsAreNames(items);
    hide ListText, Clean, ReadNames, ReadValue, Sealable, Strs;
    if forall i | 0 <= i < |items| :: Sealable(items[i]) {
      forall i | 0 <= i < |items| ensures ItemOk(items[i]) { SealableIsOk(items[i]); }
      ReadListText(items);
    }
    if items != [] && GivesBack(ReadValue(ListText(items)), items) { GivenBackIsSealed(items); }
  }
}
