/** The section of AGENTS.md that the project bootstrap owns (src/agenthicc/project_bootstrap.py). */
module ManagedSection {

  import opened Wrappers
  import opened Text

  const START := "<!-- agenthicc:init:start -->"
  const END := "<!-- agenthicc:init:end -->"
  const TITLE := "# AGENTS.md \U{2014} Project guidance"
  const GAP := "\n\n"

  datatype BootstrapError = IncompleteMarkers

  predicate MarkAt(text: string, mark: string, k: int) {
    0 <= k && k + |mark| <= |text| && forall i | 0 <= i < |mark| :: text[k + i] == mark[i]
  }

  /** `text.find(mark, from)` */
  function FindFrom(text: string, mark: string, i: nat): (k: int)
    requires i <= |text|
    ensures k == -1 ==> forall j | i <= j <= |text| :: !MarkAt(text, mark, j)
    ensures k != -1 ==> i <= k && MarkAt(text, mark, k) && forall j | i <= j < k :: !MarkAt(text, mark, j)
    decreases |text| - i
  {
    if MarkAt(text, mark, i) then i
    else if i < |text| then FindFrom(text, mark, i + 1)
    else -1
  }

  function Find(text: string, mark: string): (k: int)
    ensures k == -1 ==> forall j | 0 <= j <= |text| :: !MarkAt(text, mark, j)
    ensures k != -1 ==> MarkAt(text, mark, k) && forall j | 0 <= j < k :: !MarkAt(text, mark, j)
  {
    FindFrom(text, mark, 0)
  }

  /** The text after the end marker and the line break that follows it. */
  function AfterEnd(text: string, end: int): string
    requires MarkAt(text, END, end)
  {
    var stop := end + |END|;
    if stop < |text| && text[stop] == '\n' then text[stop + 1..] else text[stop..]
  }

  /** `_merge_managed_section`; an absent file is `None`. */
  function Merge(existing: Option<string>, managed: string): Result<string, BootstrapError> {
    if existing.None? || IsBlank(existing.value) then Success(TITLE + GAP + managed)
    else
      var text := existing.value;
      var start, end := Find(text, START), Find(text, END);
      if (start == -1) != (end == -1) || (start != -1 && end < start) then Failure(IncompleteMarkers)
      else if start != -1 && end != -1 then Success(text[..start] + managed + AfterEnd(text, end))
      else Success(RStrip(text) + GAP + managed)
  }

  // ---------- what a text is made of ----------

  /** The text before and after the managed section, for a text that has one. */
  datatype Outside = Outside(before: string, after: string)

  function Split(text: string): Option<Outside> {
    var start, end := Find(text, START), Find(text, END);
    if 0 <= start <= end then Some(Outside(text[..start], AfterEnd(text, end))) else None
  }

  /** The managed section itself, with its line break. */
  function Section(text: string): string
    requires Split(text).Some?
  {
    text[Find(text, START)..|text| - |Split(text).value.after|]
  }

  /** What the merge leaves outside the section it writes. */
  function Kept(existing: Option<string>): Outside {
    if existing.None? || IsBlank(existing.value) then Outside(TITLE + GAP, "")
    else if Split(existing.value).Some? then Split(existing.value).value
    else Outside(RStrip(existing.value) + GAP, "")
  }

  /** A section as the generator writes it: the start marker, text without an end marker, the end marker and a line
      break. */
  predicate WellFormed(managed: string) {
    && |START| + |END| < |managed|
    && managed[..|START|] == START
    && Find(managed, END) == |managed| - |END| - 1
    && managed[|managed| - 1] == '\n'
  }

  // ---------- markers do not straddle ----------

  lemma MarkerChars()
    ensures forall i | 0 <= i < |START| :: START[i] != '\n'
    ensures forall i | 0 <= i < |END| :: END[i] != '\n'
    ensures |START| == 29 && |END| == 27 && START[0] == END[0] == '<'
    ensures START[1] != '<' && START[2] != '<' && START[20] != END[20]
    ensures forall i | 0 <= i < |TITLE| :: TITLE[i] != '<'
  {
  }

  /** An occurrence lies in a prefix or suffix of a text exactly where it lies in the text. */
  lemma MarkInPrefix(text: string, mark: string, k: int, n: nat)
    requires n <= |text| && k + |mark| <= n
    ensures MarkAt(text, mark, k) <==> MarkAt(text[..n], mark, k)
  {
  }

  lemma MarkInSuffix(text: string, mark: string, k: int, n: nat)
    requires n <= |text| && n <= k
    ensures MarkAt(text, mark, k) <==> MarkAt(text[n..], mark, k - n)
  {
    var rest := text[n..];
    assert forall i | 0 <= i < |rest| :: rest[i] == text[n + i];
  }

  /** A gap of line breaks keeps markers on either side of it. */
  lemma NoMarkAcrossGap(before: string, after: string, mark: string, k: int)
    requires mark == START || mark == END
    requires forall j | 0 <= j <= |before| :: !MarkAt(before, mark, j)
    requires 0 <= k < |before + GAP|
    ensures !MarkAt(before + GAP + after, mark, k)
  {
    MarkerChars();
    var text := before + GAP + after;
    if k + |mark| <= |before| {
      MarkInPrefix(text, mark, k, |before|);
      assert text[..|before|] == before;
    } else if k + |mark| <= |text| {
      var i := if k <= |before| then |before| - k else 0;
      assert text[k + i] == '\n' && mark[i] != '\n';
    }
  }

  lemma FindIs(text: string, mark: string, k: int)
    requires MarkAt(text, mark, k) && forall j | 0 <= j < k :: !MarkAt(text, mark, j)
    ensures Find(text, mark) == k
  {
  }

  lemma FindStart(before: string, managed: string, after: string)
    requires WellFormed(managed)
    requires forall k | 0 <= k < |before| :: !MarkAt(before + managed + after, START, k)
    ensures Find(before + managed + after, START) == |before|
  {
    StartsWithMark(before, managed, after, START);
    hide *;
    FindIs(before + managed + after, START, |before|);
  }

  lemma StartsWithMark(before: string, managed: string, after: string, mark: string)
    requires |mark| <= |managed| && managed[..|mark|] == mark
    ensures MarkAt(before + managed + after, mark, |before|)
  {
    assert forall i | 0 <= i < |mark| :: managed[..|mark|][i] == managed[i];
  }

  lemma FindEnd(before: string, managed: string, after: string, mark: string)
    requires 0 <= Find(managed, mark)
    requires forall k | 0 <= k < |before| :: !MarkAt(before + managed + after, mark, k)
    requires Find(managed, mark) + |mark| < |managed| && mark != ""
    ensures Find(before + managed + after, mark) == |before| + Find(managed, mark)
  {
    var text := before + managed + after;
    var end := |before| + Find(managed, mark);
    assert text[|before|..] == managed + after;
    assert (managed + after)[..|managed|] == managed;
    forall k | |before| <= k <= end ensures MarkAt(text, mark, k) <==> MarkAt(managed, mark, k - |before|) {
      MarkInSuffix(text, mark, k, |before|);
      MarkInPrefix(managed + after, mark, k - |before|, |managed|);
    }
    hide MarkAt, FindFrom;
    FindIs(text, mark, end);
  }

  /** Putting a well-formed section after a prefix that completes no earlier marker. */
  lemma SplitAt(before: string, managed: string, after: string)
    requires WellFormed(managed)
    requires forall k | 0 <= k < |before| :: !MarkAt(before + managed + after, START, k)
    requires forall k | 0 <= k < |before| :: !MarkAt(before + managed + after, END, k)
    ensures var text := before + managed + after; Split(text) == Some(Outside(before, after)) && Section(text) == managed
  {
    var text := before + managed + after;
    FindStart(before, managed, after);
    FindEnd(before, managed, after, END);
    hide Find, MarkAt;
    var stop := |before| + |managed| - 1;
    assert text[stop] == managed[|managed| - 1];
    assert text[..|before|] == before && text[stop + 1..] == after;
    assert text[|before|..|text| - |after|] == managed;
  }

  lemma SharedPrefix(a: string, b: string, mark: string, k: int, n: nat)
    requires n <= |a| && n <= |b| && a[..n] == b[..n] && k + |mark| <= n
    ensures MarkAt(a, mark, k) <==> MarkAt(b, mark, k)
  {
    MarkInPrefix(a, mark, k, n);
    MarkInPrefix(b, mark, k, n);
  }

  lemma SamePrefix(text: string, start: nat, rest: string, mark: string)
    requires MarkAt(text, mark, start) && |mark| <= |rest| && rest[..|mark|] == mark
    ensures (text[..start] + rest)[..start + |mark|] == text[..start + |mark|]
  {
    assert forall i | 0 <= i < |mark| :: rest[..|mark|][i] == rest[i];
    forall i | 0 <= i < start + |mark| ensures (text[..start] + rest)[i] == text[i] {
      if i >= start { assert text[start + (i - start)] == mark[i - start]; }
    }
  }

  /** Replacing the section in place completes no marker before it. */
  lemma NoMarkBefore(text: string, managed: string, k: int)
    requires WellFormed(managed) && Split(text).Some? && 0 <= k < |Split(text).value.before|
    ensures var kept := Split(text).value;
      !MarkAt(kept.before + managed + kept.after, START, k) && !MarkAt(kept.before + managed + kept.after, END, k)
  {
    var kept := Split(text).value;
    var rest := managed + kept.after;
    var start := Find(text, START);
    var n := start + |START|;
    assert kept.before + managed + kept.after == text[..start] + rest;
    assert rest[..|START|] == START;
    hide MarkAt;
    SamePrefix(text, start, rest, START);
    SharedPrefix(text, text[..start] + rest, START, k, n);
    SharedPrefix(text, text[..start] + rest, END, k, n);
  }

  /** What was merged can be read back, and everything else is kept. */
  lemma MergeKeepsOutside(existing: Option<string>, managed: string)
    requires WellFormed(managed) && Merge(existing, managed).Success?
    ensures var merged := Merge(existing, managed).value;
      && merged == Kept(existing).before + managed + Kept(existing).after
      && Split(merged) == Some(Kept(existing)) && Section(merged) == managed
  {
    var kept := Kept(existing);
    var text := kept.before + managed + kept.after;
    forall k | 0 <= k < |kept.before| ensures !MarkAt(text, START, k) && !MarkAt(text, END, k) {
      NoMarkInKept(existing, managed, k);
    }
    SplitAt(kept.before, managed, kept.after);
    MergeIsKept(existing, managed, managed);
    hide *;
  }

  lemma NoMarkInKept(existing: Option<string>, managed: string, k: int)
    requires WellFormed(managed) && Merge(existing, managed).Success? && 0 <= k < |Kept(existing).before|
    ensures var text := Kept(existing).before + managed + Kept(existing).after;
      !MarkAt(text, START, k) && !MarkAt(text, END, k)
  {
    hide MarkAt, IsBlank, RStrip, FindFrom;
    if existing.None? || IsBlank(existing.value) {
      TitleUnmarked();
      assert Kept(existing).before + managed + Kept(existing).after == TITLE + GAP + managed;
      NoMarkAcrossGap(TITLE, managed, START, k);
      NoMarkAcrossGap(TITLE, managed, END, k);
    } else if Split(existing.value).Some? {
      NoMarkBefore(existing.value, managed, k);
    } else {
      var stripped := RStrip(existing.value);
      StrippedUnmarked(existing.value, START);
      StrippedUnmarked(existing.value, END);
      assert Kept(existing).before + managed + Kept(existing).after == stripped + GAP + managed;
      NoMarkAcrossGap(stripped, managed, START, k);
      NoMarkAcrossGap(stripped, managed, END, k);
    }
  }

  lemma TitleUnmarked()
    ensures forall j | 0 <= j <= |TITLE| :: !MarkAt(TITLE, START, j) && !MarkAt(TITLE, END, j)
  {
    MarkerChars();
  }

  lemma {:induction false} RStripIsPrefix(text: string)
    ensures RStrip(text) <= text
    ensures IsBlank(text[|RStrip(text)|..])
  {
    if text != "" && IsSpace(text[|text| - 1]) {
      RStripIsPrefix(text[..|text| - 1]);
    }
  }

  lemma StrippedUnmarked(text: string, mark: string)
    requires forall j | 0 <= j <= |text| :: !MarkAt(text, mark, j)
    ensures forall j | 0 <= j <= |RStrip(text)| :: !MarkAt(RStrip(text), mark, j)
  {
    RStripIsPrefix(text);
    var stripped := RStrip(text);
    forall j | 0 <= j <= |stripped| ensures !MarkAt(stripped, mark, j) {
      if j + |mark| <= |stripped| { MarkInPrefix(text, mark, j, |stripped|); }
    }
  }

  // ---------- the laws ----------

  /** A start marker with no end marker, or an end marker with no start marker before it. */
  ghost predicate Damaged(text: string) {
    || ((exists s :: MarkAt(text, START, s)) && forall e :: !MarkAt(text, END, e))
    || (exists e :: MarkAt(text, END, e) && forall s | s <= e :: !MarkAt(text, START, s))
  }

  /** The merge fails on exactly the damaged texts. */
  lemma FailsExactly(existing: Option<string>, managed: string)
    ensures Merge(existing, managed).Failure? <==>
      existing.Some? && !IsBlank(existing.value) && Damaged(existing.value)
  {
    if existing.Some? {
      var text := existing.value;
      var start, end := Find(text, START), Find(text, END);
      hide FindFrom, IsBlank, RStrip;
      DistinctMarks(text, start);
      assert start == -1 ==> forall s :: !MarkAt(text, START, s);
      assert end == -1 ==> forall e :: !MarkAt(text, END, e);
      if 0 <= start <= end {
        forall e | MarkAt(text, END, e) ensures MarkAt(text, START, start) && start <= e { }
      }
      if 0 <= end < start || (0 <= end && start == -1) {
        assert MarkAt(text, END, end) && forall s | s <= end :: !MarkAt(text, START, s);
      }
    }
  }

  lemma DistinctMarks(text: string, k: int)
    ensures !(MarkAt(text, START, k) && MarkAt(text, END, k))
  {
    MarkerChars();
    if 0 <= k && k + |START| <= |text| {
      assert START[20] != END[20];
      assert text[k + 20] != START[20] || text[k + 20] != END[20];
    }
  }

  /** On a text with a section, the merge replaces exactly the section. */
  lemma MergeReplaces(text: string, managed: string)
    requires Split(text).Some?
    ensures Merge(Some(text), managed) == Success(Split(text).value.before + managed + Split(text).value.after)
  {
    var start := Find(text, START);
    assert text[start + 0] == START[0];
    assert !IsBlank(text);
    hide RStrip, FindFrom;
  }

  /** Put-put: a second merge makes the first one as if it never was, and so does not fail where that did not. */
  lemma PutPut(existing: Option<string>, first: string, second: string)
    requires WellFormed(first) && Merge(existing, first).Success?
    ensures Merge(Some(Merge(existing, first).value), second) == Merge(existing, second)
  {
    var merged := Merge(existing, first).value;
    MergeKeepsOutside(existing, first);
    MergeReplaces(merged, second);
    MergeIsKept(existing, first, second);
  }

  lemma MergeIsKept(existing: Option<string>, first: string, second: string)
    requires Merge(existing, first).Success?
    ensures Merge(existing, second) == Success(Kept(existing).before + second + Kept(existing).after)
  {
    hide RStrip, FindFrom, IsBlank;
    if existing.Some? && !IsBlank(existing.value) && Split(existing.value).Some? {
      MergeReplaces(existing.value, second);
    } else {
      var kept := Kept(existing);
      assert kept.before + second + kept.after == kept.before + second;
    }
  }

  /** Running the bootstrap again with the same snapshot changes nothing. */
  lemma MergeIsIdempotent(existing: Option<string>, managed: string)
    requires WellFormed(managed) && Merge(existing, managed).Success?
    ensures Merge(Some(Merge(existing, managed).value), managed) == Merge(existing, managed)
  {
    PutPut(existing, managed, managed);
  }

  /** Get-put: merging the section that is already there changes nothing. */
  lemma GetPut(text: string)
    requires Split(text).Some?
    ensures Merge(Some(text), Section(text)) == Success(text)
  {
    MergeReplaces(text, Section(text));
    SplitCovers(text);
    hide *;
  }

  lemma SplitCovers(text: string)
    requires Split(text).Some?
    ensures Split(text).value.before + Section(text) + Split(text).value.after == text
  {
    hide Find;
    var kept := Split(text).value;
    Reassembles(text, |kept.before|, |text| - |kept.after|);
  }

  lemma Reassembles(text: string, start: nat, stop: nat)
    requires start <= stop <= |text|
    ensures text[..start] + text[start..stop] + text[stop..] == text
  {
  }

  // ---------- what is written ----------

  predicate StandsAt(text: string, mark: string, k: int) {
    0 <= k && k + |mark| <= |text| && text[k..k + |mark|] == mark
  }

  predicate FirstAt(text: string, mark: string, k: int) {
    StandsAt(text, mark, k) && forall j | 0 <= j < k :: !StandsAt(text, mark, j)
  }

  lemma StandsIsMark(text: string, mark: string, k: int)
    ensures StandsAt(text, mark, k) <==> MarkAt(text, mark, k)
  {
    if 0 <= k && k + |mark| <= |text| {
      var part := text[k..k + |mark|];
      assert forall i | 0 <= i < |mark| :: part[i] == text[k + i];
    }
  }

  /** The first occurrences are the ones that are found. */
  lemma FirstIsFound(text: string, mark: string, k: int)
    ensures FirstAt(text, mark, k) <==> k != -1 && Find(text, mark) == k
    ensures Find(text, mark) == -1 <==> forall j :: !StandsAt(text, mark, j)
  {
    forall j { StandsIsMark(text, mark, j); }
    hide MarkAt, StandsAt, FindFrom;
    if FirstAt(text, mark, k) { FindIs(text, mark, k); }
    if Find(text, mark) == -1 {
      forall j ensures !StandsAt(text, mark, j) { if MarkAt(text, mark, j) { MarkInside(text, mark, j); } }
    }
  }

  lemma MarkInside(text: string, mark: string, j: int)
    requires MarkAt(text, mark, j)
    ensures 0 <= j <= |text|
  {
  }

  /** A file that is absent or blank becomes the title and the section. */
  lemma MergeIntoNothing(existing: Option<string>, managed: string)
    requires existing.None? || forall i | 0 <= i < |existing.value| :: IsSpace(existing.value[i])
    ensures Merge(existing, managed) == Success("# AGENTS.md \U{2014} Project guidance\n\n" + managed)
  {
    assert TITLE + GAP == "# AGENTS.md \U{2014} Project guidance\n\n";
  }

  /** A file without markers keeps all of its text; only the white space at its end gives way to one empty line and the
      section. */
  lemma MergeAppends(text: string, managed: string) returns (n: nat)
    requires !(forall i | 0 <= i < |text| :: IsSpace(text[i]))
    requires forall k ::
      !StandsAt(text, "<!-- agenthicc:init:start -->", k) && !StandsAt(text, "<!-- agenthicc:init:end -->", k)
    ensures 0 < n <= |text| && !IsSpace(text[n - 1]) && forall i | n <= i < |text| :: IsSpace(text[i])
    ensures Merge(Some(text), managed) == Success(text[..n] + "\n\n" + managed)
  {
    n := |RStrip(text)|;
    FirstIsFound(text, START, 0);
    FirstIsFound(text, END, 0);
    hide IsSpace, FindFrom, StandsAt;
    RStripIsPrefix(text);
    RStripEnds(text);
    assert text[..n] == RStrip(text);
    forall i | n <= i < |text| ensures IsSpace(text[i]) { assert text[n..][i - n] == text[i]; }
    var i :| 0 <= i < |text| && !IsSpace(text[i]);
  }

  lemma {:induction false} RStripEnds(text: string)
    ensures RStrip(text) != "" ==> !IsSpace(RStrip(text)[|RStrip(text)| - 1])
  {
    hide IsSpace;
    if text != "" && IsSpace(text[|text| - 1]) { RStripEnds(text[..|text| - 1]); }
  }

  /** In a file with both markers in order, the text from the first start marker to the first end marker and the line break
      behind it is replaced, and nothing else. */
  lemma MergeInPlace(text: string, managed: string, s: int, e: int)
    requires FirstAt(text, "<!-- agenthicc:init:start -->", s) && FirstAt(text, "<!-- agenthicc:init:end -->", e) && s <= e
    ensures 0 <= s && e + 27 <= |text|
    ensures var rest := text[e + 27..];
      Merge(Some(text), managed) == Success(text[..s] + managed + if rest != "" && rest[0] == '\n' then rest[1..] else rest)
  {
    MarkerChars();
    FirstIsFound(text, START, s);
    FirstIsFound(text, END, e);
    StandsIsMark(text, START, s);
    StandsIsMark(text, END, e);
    assert StandsAt(text, START, s) && StandsAt(text, END, e);
    MergeReplaces(text, managed);
    var rest := text[e + 27..];
    assert AfterEnd(text, e) == if rest != "" && rest[0] == '\n' then rest[1..] else rest;
    hide RStrip, FindFrom, IsBlank;
  }
}
