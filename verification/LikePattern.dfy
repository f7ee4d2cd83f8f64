/** Literal search through SQL `LIKE` (src/agenthicc/background/index.py, `_like_pattern`). */
module LikePattern {

  /** `text.replace(c, with)` for a one-character needle. */
  function Replace(text: string, c: char, with: string): string {
    if text == "" then "" else (if text[0] == c then with else [text[0]]) + Replace(text[1..], c, with)
  }

  /** `_like_pattern`: escape the backslash first, then the two wildcards. */
  function Pattern(query: string): string {
    "%" + Escaped(query) + "%"
  }

  function Escaped(query: string): string {
    Replace(Replace(Replace(query, '\\', "\\\\"), '%', "\\%"), '_', "\\_")
  }

  /** SQLite folds the case of ASCII letters only. */
  function Fold(c: char): char {
    if 'A' <= c <= 'Z' then c - 'A' + 'a' else c
  }

  /** `text LIKE pattern ESCAPE '\'`. */
  predicate Like(pattern: string, text: string)
    decreases |pattern| + |text|
  {
    if pattern == "" then text == ""
    else if pattern[0] == '%' then Like(pattern[1..], text) || (text != "" && Like(pattern, text[1..]))
    else if pattern[0] == '_' then text != "" && Like(pattern[1..], text[1..])
    else if pattern[0] == '\\' then |pattern| > 1 && LikeChar(pattern[1], pattern[2..], text)
    else LikeChar(pattern[0], pattern[1..], text)
  }

  predicate LikeChar(c: char, rest: string, text: string)
    decreases |rest| + |text|, 0
  {
    text != "" && Fold(text[0]) == Fold(c) && Like(rest, text[1..])
  }

  predicate OccursAt(word: string, text: string, k: nat) {
    k + |word| <= |text| && text[k..k + |word|] == word
  }

  /** `instr(text, word) > 0`. */
  predicate Occurs(word: string, text: string) {
    exists k: nat | k <= |text| :: OccursAt(word, text, k)
  }

  /** What `str.lower()` leaves: no upper-case ASCII letter. */
  predicate Lowered(text: string) {
    forall i | 0 <= i < |text| :: !('A' <= text[i] <= 'Z')
  }

  /** The character-by-character meaning of the three successive replacements. */
  function EscapedChar(c: char): string {
    if c == '\\' || c == '%' || c == '_' then ['\\', c] else [c]
  }

  lemma {:induction false} ReplaceAppend(a: string, b: string, c: char, with: string)
    ensures Replace(a + b, c, with) == Replace(a, c, with) + Replace(b, c, with)
  {
    if a == "" {
      assert a + b == b;
    } else {
      assert (a + b)[1..] == a[1..] + b;
      ReplaceAppend(a[1..], b, c, with);
    }
  }

  lemma ReplaceOne(d: char, c: char, with: string)
    ensures Replace([d], c, with) == if d == c then with else [d]
  {
  }

  lemma ReplaceTwo(d: char, e: char, c: char, with: string)
    ensures Replace([d, e], c, with) == (if d == c then with else [d]) + if e == c then with else [e]
  {
    assert [d, e] == [d] + [e];
    ReplaceAppend([d], [e], c, with);
  }

  lemma EscapedFirst(query: string)
    requires query != ""
    ensures Escaped(query) == EscapedChar(query[0]) + Escaped(query[1..])
  {
    var c, rest := query[0], query[1..];
    assert query == [c] + rest;
    ReplaceAppend([c], rest, '\\', "\\\\");
    var first := Replace([c], '\\', "\\\\");
    ReplaceAppend(first, Replace(rest, '\\', "\\\\"), '%', "\\%");
    var second := Replace(first, '%', "\\%");
    ReplaceAppend(second, Replace(Replace(rest, '\\', "\\\\"), '%', "\\%"), '_', "\\_");
    ReplaceOne(c, '\\', "\\\\");
    if c == '\\' {
      ReplaceTwo('\\', '\\', '%', "\\%");
      ReplaceTwo('\\', '\\', '_', "\\_");
    } else {
      ReplaceOne(c, '%', "\\%");
      if c == '%' { ReplaceTwo('\\', '%', '_', "\\_"); } else { ReplaceOne(c, '_', "\\_"); }
    }
    hide Replace;
  }

  lemma LikeEscaped(c: char, tail: string, text: string)
    ensures Like(EscapedChar(c) + tail, text) == LikeChar(c, tail, text)
  {
    var whole := EscapedChar(c) + tail;
    hide LikeChar;
    if |EscapedChar(c)| == 2 { assert whole[2..] == tail; } else { assert whole[1..] == tail; }
  }

  lemma OccursTail(word: string, text: string)
    requires word != "" && text != "" && Lowered(word) && Lowered(text)
    ensures Lowered(word[1..]) && Lowered(text[1..])
    ensures OccursAt(word, text, 0) ==> |word| <= |text|
    ensures OccursAt(word, text, 0) <==> Fold(text[0]) == Fold(word[0]) && OccursAt(word[1..], text[1..], 0)
  {
    if |word| <= |text| {
      assert text[0..|word|] == [text[0]] + text[1..][0..|word| - 1];
      assert word == [word[0]] + word[1..];
      if OccursAt(word, text, 0) {
        assert text[0..|word|][1..] == text[1..][0..|word| - 1];
      }
    }
  }

  /** An escaped word in a pattern matches exactly itself. */
  lemma {:induction false} LikeLiteral(word: string, rest: string, text: string)
    requires Lowered(word) && Lowered(text)
    ensures Like(Escaped(word) + rest, text) <==> OccursAt(word, text, 0) && |word| <= |text| && Like(rest, text[|word|..])
    decreases |word|
  {
    hide *;
    if word == "" {
      EscapedEmpty();
      assert "" + rest == rest && text[0..] == text && OccursAt("", text, 0);
    } else {
      var tail := Escaped(word[1..]) + rest;
      EscapedFirst(word);
      assert Escaped(word) + rest == EscapedChar(word[0]) + tail;
      LikeEscaped(word[0], tail, text);
      LikeCharIs(word[0], tail, text);
      if text != "" {
        OccursTail(word, text);
        LikeLiteral(word[1..], rest, text[1..]);
        if |word| <= |text| { assert text[1..][|word| - 1..] == text[|word|..]; }
      }
    }
  }

  lemma EscapedEmpty()
    ensures Escaped("") == "" && forall text :: OccursAt("", text, 0)
  {
  }

  lemma LikeCharIs(c: char, tail: string, text: string)
    ensures LikeChar(c, tail, text) == (text != "" && Fold(text[0]) == Fold(c) && Like(tail, text[1..]))
  {
  }

  lemma {:induction false} LikeAnything(text: string)
    ensures Like("%", text)
  {
    if text != "" { LikeAnything(text[1..]); }
  }

  /** A leading `%` skips any number of characters. */
  lemma {:induction false} LikeSkips(rest: string, text: string)
    ensures Like("%" + rest, text) <==> exists k: nat | k <= |text| :: Like(rest, text[k..])
    decreases |text|
  {
    assert ("%" + rest)[1..] == rest;
    assert text[0..] == text;
    if text != "" {
      LikeSkips(rest, text[1..]);
      if k: nat :| k <= |text[1..]| && Like(rest, text[1..][k..]) {
        assert text[1..][k..] == text[k + 1..];
      }
      if k: nat :| 0 < k <= |text| && Like(rest, text[k..]) {
        assert text[1..][k - 1..] == text[k..];
      }
    }
  }

  /** On lower-case words and texts, wildcards and escapes included, the `LIKE` search is the literal search. */
  lemma LikeIsLiteral(word: string, text: string)
    requires Lowered(word) && Lowered(text)
    ensures Like(Pattern(word), text) <==> Occurs(word, text)
  {
    LikeSkips(Escaped(word) + "%", text);
    assert Pattern(word) == "%" + (Escaped(word) + "%");
    forall k: nat | k <= |text| ensures Like(Escaped(word) + "%", text[k..]) <==> OccursAt(word, text, k) {
      LikeLiteralAt(word, text, k);
    }
    hide Like, Escaped, OccursAt, Lowered;
  }

  lemma LikeLiteralAt(word: string, text: string, k: nat)
    requires Lowered(word) && Lowered(text) && k <= |text|
    ensures Like(Escaped(word) + "%", text[k..]) <==> OccursAt(word, text, k)
  {
    hide Like, Escaped;
    LikeLiteral(word, "%", text[k..]);
    if OccursAt(word, text[k..], 0) { LikeAnything(text[k..][|word|..]); }
    if k + |word| <= |text| { assert text[k..][0..|word|] == text[k..k + |word|]; }
  }
}
