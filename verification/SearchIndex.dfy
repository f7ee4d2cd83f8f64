/** The session index and its external-content search table (src/agenthicc/background/index.py).

    The search table stores trigram postings, not text: removing a row from it takes the text that was indexed. Its
    triggers and the `rebuild` command are SQLite's; here they are small functions on the stored postings. */
module SearchIndex {

  import opened Wrappers
  import opened LikePattern

  datatype Row = Row(sessionId: string, text: string, record: string)

  /** Row `rowid` has `trigram` at offset `at`. */
  datatype Posting = Posting(rowid: nat, at: nat, trigram: string)

  /** The tokenizer's case folding, character by character: every law below holds for any such function. */
  type Folding = char -> char

  /** `fts`: the index was created with the trigram table. `triggers`: its three triggers exist. */
  datatype Store = Store(rows: map<nat, Row>, postings: set<Posting>, fts: bool, triggers: bool, fold: Folding)

  // ---------- the search table ----------

  /** The three characters at an offset. */
  function Trigram(text: string, at: nat): string {
    if at + 3 <= |text| then [text[at], text[at + 1], text[at + 2]] else ""
  }

  function Folded(fold: Folding, text: string): (r: string)
    ensures |r| == |text| && forall i | 0 <= i < |r| :: r[i] == fold(text[i])
  {
    seq(|text|, i requires 0 <= i < |text| => fold(text[i]))
  }

  /** What indexing `text` under `rowid` stores: the trigrams of the folded text. */
  function Tokens(fold: Folding, rowid: nat, text: string): set<Posting> {
    set i | 0 <= i < |text| - 2 :: Posting(rowid, i, Trigram(Folded(fold, text), i))
  }

  /** The search table agrees with the rows. */
  ghost predicate Synced(s: Store) {
    s.fts ==> forall p: Posting :: p in s.postings <==> p.rowid in s.rows && p in Tokens(s.fold, p.rowid, s.rows[p.rowid].text)
  }

  /** The `rebuild` command. */
  function Rebuilt(fold: Folding, rows: map<nat, Row>): set<Posting> {
    set rowid, p | rowid in rows && p in Tokens(fold, rowid, rows[rowid].text) :: p
  }

  // ---------- rows ----------

  ghost predicate UniqueIds(rows: map<nat, Row>) {
    forall r, q | r in rows && q in rows && rows[r].sessionId == rows[q].sessionId :: r == q
  }

  /** SQLite's choice of a row id: one more than the largest in use. */
  predicate NextRowid(used: set<nat>, rowid: nat) {
    (forall r: nat | r in used :: r < rowid) && (rowid == 1 || (rowid > 1 && rowid - 1 in used))
  }

  lemma NextRowidIsNew(used: set<nat>, rowid: nat)
    requires NextRowid(used, rowid)
    ensures rowid !in used
  {
  }

  lemma NextRowidExists(used: set<nat>) returns (rowid: nat)
    ensures NextRowid(used, rowid)
  {
    rowid := 1;
    var rest := used;
    while rest != {}
      invariant rest <= used
      invariant forall r: nat | r in used && r !in rest :: r < rowid
      invariant rowid == 1 || (rowid > 1 && rowid - 1 in used)
    {
      var r: nat :| r in rest;
      rest := rest - {r};
      if r >= rowid { rowid := r + 1; }
    }
  }

  /** The row of a session, found by its id, or else the next row id. */
  ghost function RowidFor(rows: map<nat, Row>, id: string): (rowid: nat)
    ensures rowid in rows ==> rows[rowid].sessionId == id
    ensures rowid !in rows ==> (forall r | r in rows :: rows[r].sessionId != id) && NextRowid(rows.Keys, rowid)
  {
    if r :| r in rows && rows[r].sessionId == id then r
    else
      assert exists n: nat :: NextRowid(rows.Keys, n) by { var n := NextRowidExists(rows.Keys); }
      var n: nat :| NextRowid(rows.Keys, n); n
  }

  lemma RowidIsForced(rows: map<nat, Row>, id: string, rowid: nat)
    requires UniqueIds(rows)
    requires if rowid in rows then rows[rowid].sessionId == id
             else (forall r | r in rows :: rows[r].sessionId != id) && NextRowid(rows.Keys, rowid)
    ensures rowid == RowidFor(rows, id)
  {
  }

  // ---------- statements, with the triggers they fire ----------

  /** `INSERT ... ON CONFLICT (session_id) DO UPDATE`: the update trigger only re-indexes a changed text. */
  ghost function UpsertRow(s: Store, row: Row): Store {
    var rowid := RowidFor(s.rows, row.sessionId);
    var rows := s.rows[rowid := row];
    if !s.triggers then s.(rows := rows)
    else if rowid !in s.rows then s.(rows := rows, postings := s.postings + Tokens(s.fold, rowid, row.text))
    else if s.rows[rowid].text == row.text then s.(rows := rows)
    else s.(rows := rows, postings := s.postings - Tokens(s.fold, rowid, s.rows[rowid].text) + Tokens(s.fold, rowid, row.text))
  }

  ghost function UpsertRows(s: Store, written: seq<Row>): Store {
    if written == [] then s else UpsertRow(UpsertRows(s, written[..|written| - 1]), written[|written| - 1])
  }

  /** `replace_all`. */
  ghost function ReplaceAll(s: Store, written: seq<Row>): Store {
    var filled := UpsertRows(s.(rows := map[], triggers := false), written);
    if s.fts then filled.(postings := Rebuilt(s.fold, filled.rows), triggers := true) else filled
  }

  // ---------- the class ----------

  class Index {
    var rows: map<nat, Row>
    var postings: set<Posting>
    var triggers: bool
    const fts: bool
    const fold: Folding

    ghost function Now(): Store reads this { Store(rows, postings, fts, triggers, fold) }

    /** Opening an empty index in the chosen search mode. */
    constructor (fts: bool, fold: Folding)
      ensures Now() == Store(map[], {}, fts, fts, fold) && Valid(Now())
    {
      this.fts, this.fold := fts, fold;
      rows, postings, triggers := map[], {}, fts;
    }

    method Upsert(written: seq<Row>)
      requires Valid(Now())
      modifies this`rows, this`postings
      ensures Now() == UpsertRows(old(Now()), written) && Valid(Now())
    {
      hide Synced, RowidFor, UpsertRow;
      for i := 0 to |written|
        invariant UniqueIds(rows) && Now() == UpsertRows(old(Now()), written[..i])
      {
        assert written[..i + 1][..i] == written[..i];
        UpsertOne(written[i]);
      }
      assert written[..|written|] == written;
      UpsertsStayValid(old(Now()), written);
    }

    method UpsertOne(row: Row)
      requires UniqueIds(rows)
      modifies this`rows, this`postings
      ensures Now() == UpsertRow(old(Now()), row) && UniqueIds(rows)
    {
      hide Synced, RowidFor, Tokens;
      UpsertKeepsUnique(Now(), row);
      if rowid: nat :| rowid in rows && rows[rowid].sessionId == row.sessionId {
        RowidIsForced(rows, row.sessionId, rowid);
        var before := rows[rowid].text;
        rows := rows[rowid := row];
        if triggers && before != row.text {
          postings := postings - Tokens(fold, rowid, before);
          postings := postings + Tokens(fold, rowid, row.text);
        }
      } else {
        ghost var n := NextRowidExists(rows.Keys);
        var rowid: nat :| NextRowid(rows.Keys, rowid);
        NextRowidIsNew(rows.Keys, rowid);
        RowidIsForced(rows, row.sessionId, rowid);
        rows := rows[rowid := row];
        if triggers { postings := postings + Tokens(fold, rowid, row.text); }
      }
    }

    method ReplaceRows(written: seq<Row>)
      requires Valid(Now())
      modifies this
      ensures Now() == ReplaceAll(old(Now()), written) && Valid(Now())
    {
      ghost var before := Now();
      if fts { triggers := false; }
      rows := map[];
      UpsertUntriggered(written);
      if fts {
        postings := Rebuilt(fold, rows);
        triggers := true;
      }
      ReplaceIsValid(before, written);
    }

    /** The same loop while the triggers are dropped. */
    method UpsertUntriggered(written: seq<Row>)
      requires UniqueIds(rows)
      modifies this`rows, this`postings
      ensures Now() == UpsertRows(old(Now()), written) && UniqueIds(rows)
    {
      hide Synced, RowidFor, UpsertRow;
      for i := 0 to |written|
        invariant UniqueIds(rows) && Now() == UpsertRows(old(Now()), written[..i])
      {
        assert written[..i + 1][..i] == written[..i];
        UpsertOne(written[i]);
      }
      assert written[..|written|] == written;
    }
  }

  // ---------- the search table stays in step ----------

  /** Between transactions: session ids are unique, the triggers exist exactly in full-text mode, and the search
      table holds exactly the trigrams of the stored texts. */
  ghost predicate Valid(s: Store) {
    UniqueIds(s.rows) && s.triggers == s.fts && Synced(s)
  }

  lemma UpsertKeepsUnique(s: Store, row: Row)
    requires UniqueIds(s.rows)
    ensures UniqueIds(UpsertRow(s, row).rows)
  {
    hide Tokens;
    var rowid := RowidFor(s.rows, row.sessionId);
    var rows := s.rows[rowid := row];
    forall r, q | r in rows && q in rows && rows[r].sessionId == rows[q].sessionId ensures r == q {
    }
  }

  lemma TokensOwn(fold: Folding, rowid: nat, text: string)
    ensures forall p | p in Tokens(fold, rowid, text) :: p.rowid == rowid
  {
  }

  lemma UpsertStaysValid(s: Store, row: Row)
    requires Valid(s)
    ensures Valid(UpsertRow(s, row))
  {
    hide RowidFor, Tokens;
    UpsertKeepsUnique(s, row);
    var rowid := RowidFor(s.rows, row.sessionId);
    var after := UpsertRow(s, row);
    TokensOwn(s.fold, rowid, row.text);
    if rowid in s.rows { TokensOwn(s.fold, rowid, s.rows[rowid].text); }
    hide UniqueIds;
    if s.fts {
      forall p: Posting
        ensures p in after.postings <==> p.rowid in after.rows && p in Tokens(s.fold, p.rowid, after.rows[p.rowid].text)
      {
      }
    }
  }

  lemma {:induction false} UpsertsStayValid(s: Store, written: seq<Row>)
    requires Valid(s)
    ensures Valid(UpsertRows(s, written))
  {
    hide UpsertRow, Valid;
    if written != [] {
      UpsertsStayValid(s, written[..|written| - 1]);
      UpsertStaysValid(UpsertRows(s, written[..|written| - 1]), written[|written| - 1]);
    }
  }

  lemma {:induction false} UpsertsKeepUnique(s: Store, written: seq<Row>)
    requires UniqueIds(s.rows)
    ensures UniqueIds(UpsertRows(s, written).rows) && UpsertRows(s, written).fts == s.fts
    ensures UpsertRows(s, written).triggers == s.triggers && UpsertRows(s, written).fold == s.fold
  {
    hide UniqueIds, Tokens, RowidFor;
    if written != [] {
      UpsertsKeepUnique(s, written[..|written| - 1]);
      UpsertKeepsUnique(UpsertRows(s, written[..|written| - 1]), written[|written| - 1]);
    }
  }

  lemma RebuiltIsSynced(fold: Folding, rows: map<nat, Row>)
    ensures forall p: Posting :: p in Rebuilt(fold, rows) <==> p.rowid in rows && p in Tokens(fold, p.rowid, rows[p.rowid].text)
  {
    forall rowid | rowid in rows { TokensOwn(fold, rowid, rows[rowid].text); }
    hide Tokens;
  }

  /** Bulk replacement without triggers ends in step, whatever the search table held before. */
  lemma ReplaceIsValid(s: Store, written: seq<Row>)
    ensures Valid(ReplaceAll(s, written))
  {
    hide UpsertRows, Tokens, Rebuilt;
    var emptied := s.(rows := map[], triggers := false);
    UpsertsKeepUnique(emptied, written);
    RebuiltIsSynced(s.fold, UpsertRows(emptied, written).rows);
  }

  /** One transaction. */
  datatype Write = Upsert(rows: seq<Row>) | Replace(rows: seq<Row>)

  ghost function Applied(s: Store, w: Write): Store {
    match w
    case Upsert(rows) => UpsertRows(s, rows)
    case Replace(rows) => ReplaceAll(s, rows)
  }

  ghost function Run(s: Store, writes: seq<Write>): Store {
    if writes == [] then s else Applied(Run(s, writes[..|writes| - 1]), writes[|writes| - 1])
  }

  /** After any run of upserts and replacements, the search table is in step with the rows. */
  lemma {:induction false} RunStaysValid(s: Store, writes: seq<Write>)
    requires Valid(s)
    ensures Valid(Run(s, writes))
  {
    hide Valid, UpsertRows, ReplaceAll;
    if writes != [] {
      var before := Run(s, writes[..|writes| - 1]);
      RunStaysValid(s, writes[..|writes| - 1]);
      match writes[|writes| - 1] {
        case Upsert(rows) => UpsertsStayValid(before, rows);
        case Replace(rows) => ReplaceIsValid(before, rows);
      }
    }
  }

  // ---------- what the rows hold ----------

  /** The last row written for a session, by id. */
  ghost function Latest(written: seq<Row>, id: string): Option<Row> {
    if written == [] then None
    else if written[|written| - 1].sessionId == id then Some(written[|written| - 1])
    else Latest(written[..|written| - 1], id)
  }

  /** The stored row of a session. */
  ghost function Stored(s: Store, id: string): Option<Row> {
    if RowidFor(s.rows, id) in s.rows then Some(s.rows[RowidFor(s.rows, id)]) else None
  }

  lemma StoredIs(s: Store, rowid: nat)
    requires UniqueIds(s.rows) && rowid in s.rows
    ensures Stored(s, s.rows[rowid].sessionId) == Some(s.rows[rowid])
  {
    RowidIsForced(s.rows, s.rows[rowid].sessionId, rowid);
  }

  lemma UpsertStores(s: Store, row: Row, id: string)
    requires UniqueIds(s.rows)
    ensures Stored(UpsertRow(s, row), id) == if row.sessionId == id then Some(row) else Stored(s, id)
  {
    hide Tokens;
    var after := UpsertRow(s, row);
    var rowid := RowidFor(s.rows, row.sessionId);
    UpsertKeepsUnique(s, row);
    assert after.rows == s.rows[rowid := row];
    hide UpsertRow;
    if row.sessionId == id {
      StoredIs(after, rowid);
    } else {
      var own := RowidFor(s.rows, id);
      if own in s.rows {
        assert after.rows[own] == s.rows[own];
        StoredIs(after, own);
      } else {
        assert forall r | r in after.rows :: after.rows[r].sessionId != id;
      }
    }
  }

  /** An upsert of many rows stores the last row of each session it names and keeps every other session. */
  lemma {:induction false} UpsertsStore(s: Store, written: seq<Row>, id: string)
    requires UniqueIds(s.rows)
    ensures Stored(UpsertRows(s, written), id) ==
      if Latest(written, id).Some? then Latest(written, id) else Stored(s, id)
  {
    hide UpsertRow, Stored;
    if written != [] {
      var rest := written[..|written| - 1];
      UpsertsStore(s, rest, id);
      UpsertsKeepUnique(s, rest);
      UpsertStores(UpsertRows(s, rest), written[|written| - 1], id);
    }
  }

  /** A replacement keeps exactly the sessions it was given. */
  lemma ReplaceStores(s: Store, written: seq<Row>, id: string)
    ensures Stored(ReplaceAll(s, written), id) == Latest(written, id)
  {
    hide UpsertRows;
    var emptied := s.(rows := map[], triggers := false);
    UpsertsStore(emptied, written, id);
    hide Rebuilt;
  }

  lemma {:induction false} LatestIsLast(written: seq<Row>, id: string, i: nat)
    requires i < |written| && written[i].sessionId == id && forall j | i < j < |written| :: written[j].sessionId != id
    ensures Latest(written, id) == Some(written[i])
  {
    if i < |written| - 1 { LatestIsLast(written[..|written| - 1], id, i); }
  }

  lemma {:induction false} LatestIsNone(written: seq<Row>, id: string)
    requires forall j | 0 <= j < |written| :: written[j].sessionId != id
    ensures Latest(written, id) == None
  {
    if written != [] { LatestIsNone(written[..|written| - 1], id); }
  }

  /** Some stored row is this one. */
  ghost predicate Holds(s: Store, row: Row) {
    exists rowid | rowid in s.rows :: s.rows[rowid] == row
  }

  lemma HoldsIsStored(s: Store, row: Row)
    requires UniqueIds(s.rows)
    ensures Holds(s, row) <==> Stored(s, row.sessionId) == Some(row)
  {
    if rowid :| rowid in s.rows && s.rows[rowid] == row { StoredIs(s, rowid); }
  }

  /** The rows of the index, one by one: after an upsert it holds a row exactly if the row is the last one written for its
      session, or was there and its session is not among those written; after a replacement only the former. */
  lemma RowsHeld(s: Store, written: seq<Row>, row: Row)
    requires UniqueIds(s.rows)
    ensures Holds(UpsertRows(s, written), row) <==> LastOf(written, row) || (Holds(s, row) && !Mentions(written, row.sessionId))
    ensures Holds(ReplaceAll(s, written), row) <==> LastOf(written, row)
  {
    UpsertsStore(s, written, row.sessionId);
    ReplaceStores(s, written, row.sessionId);
    UpsertsKeepUnique(s, written);
    assert UniqueIds(ReplaceAll(s, written).rows) by { ReplaceIsValid(s, written); }
    hide UpsertRows, ReplaceAll, Stored, UniqueIds, Latest;
    HoldsIsStored(s, row);
    HoldsIsStored(UpsertRows(s, written), row);
    HoldsIsStored(ReplaceAll(s, written), row);
    LatestIs(written, row);
  }

  ghost predicate Mentions(written: seq<Row>, id: string) {
    exists i | 0 <= i < |written| :: written[i].sessionId == id
  }

  ghost predicate LastOf(written: seq<Row>, row: Row) {
    exists i | 0 <= i < |written| :: written[i] == row && forall j | i < j < |written| :: written[j].sessionId != row.sessionId
  }

  lemma {:induction false} LatestIs(written: seq<Row>, row: Row)
    ensures Latest(written, row.sessionId) == Some(row) <==> LastOf(written, row)
    ensures Latest(written, row.sessionId).Some? <==> Mentions(written, row.sessionId)
  {
    var id := row.sessionId;
    if Mentions(written, id) {
      var i := LastMention(written, id);
      LatestIsLast(written, id, i);
      hide Latest;
      assert written[i] == row ==> LastOf(written, row);
      if LastOf(written, row) {
        var k :| 0 <= k < |written| && written[k] == row && forall j | k < j < |written| :: written[j].sessionId != id;
        assert k == i;
      }
    } else {
      LatestIsNone(written, id);
    }
  }

  lemma {:induction false} LastMention(written: seq<Row>, id: string) returns (i: nat)
    requires Mentions(written, id)
    ensures i < |written| && written[i].sessionId == id && forall j | i < j < |written| :: written[j].sessionId != id
  {
    i := |written| - 1;
    if written[i].sessionId != id {
      var k :| 0 <= k < |written| && written[k].sessionId == id;
      assert written[..i][k] == written[k];
      i := LastMention(written[..i], id);
    }
  }

  // ---------- the three search branches ----------

  /** `MATCH` with a quoted phrase: the trigrams of the folded phrase at consecutive offsets of one row. */
  ghost predicate Matches(s: Store, rowid: nat, word: string) {
    exists at: nat :: PhraseAt(s, rowid, Folded(s.fold, word), at)
  }

  ghost predicate PhraseAt(s: Store, rowid: nat, word: string, at: nat) {
    |word| >= 3 && forall i | 0 <= i < |word| - 2 :: Posted(s, rowid, word, at, i)
  }

  ghost predicate Posted(s: Store, rowid: nat, word: string, at: nat, i: nat) {
    Posting(rowid, at + i, Trigram(word, i)) in s.postings
  }

  /** Every word is long enough for the trigram table. */
  predicate ByTrigrams(s: Store, words: seq<string>) {
    s.fts && forall w | w in words :: |w| >= 3
  }

  /** The rows that the clauses for the query words select, by search mode. */
  ghost predicate Selected(s: Store, rowid: nat, words: seq<string>)
    requires rowid in s.rows
  {
    if ByTrigrams(s, words) then forall w | w in words :: Matches(s, rowid, w)
    else if s.fts then forall w | w in words :: Occurs(w, s.rows[rowid].text)
    else forall w | w in words :: Like(Pattern(w), s.rows[rowid].text)
  }

  lemma TokenIs(fold: Folding, rowid: nat, text: string, at: nat, trigram: string)
    ensures Posting(rowid, at, trigram) in Tokens(fold, rowid, text) <==>
      at + 3 <= |text| && trigram == Trigram(Folded(fold, text), at)
  {
  }

  /** The word's trigrams stand at consecutive offsets of the text. */
  ghost predicate Spells(word: string, text: string, at: nat) {
    forall i | 0 <= i < |word| - 2 :: SameTrigram(word, text, at, i)
  }

  predicate SameTrigram(word: string, text: string, at: nat, i: nat) {
    at + i + 3 <= |text| && Trigram(word, i) == Trigram(text, at + i)
  }

  predicate SameChars(word: string, text: string, at: nat) {
    at + |word| <= |text| && forall k | 0 <= k < |word| :: word[k] == text[at + k]
  }

  lemma OccursIsSameChars(word: string, text: string, at: nat)
    ensures OccursAt(word, text, at) <==> SameChars(word, text, at)
  {
    if at + |word| <= |text| {
      var part := text[at..at + |word|];
      assert forall k | 0 <= k < |part| :: part[k] == text[at + k];
      if SameChars(word, text, at) { assert part == word; }
    }
  }

  lemma SpellingIsSameChars(word: string, text: string, at: nat)
    requires |word| >= 3
    ensures Spells(word, text, at) <==> SameChars(word, text, at)
  {
    if Spells(word, text, at) {
      var last := |word| - 3;
      assert SameTrigram(word, text, at, last);
      forall k | 0 <= k < |word| ensures word[k] == text[at + k] {
        var i := if k < |word| - 2 then k else last;
        assert SameTrigram(word, text, at, i) && Trigram(word, i)[k - i] == Trigram(text, at + i)[k - i];
      }
    }
  }

  lemma PhraseSpells(s: Store, rowid: nat, word: string, at: nat)
    requires Valid(s) && s.fts && rowid in s.rows && |word| >= 3
    ensures PhraseAt(s, rowid, word, at) <==> Spells(word, Folded(s.fold, s.rows[rowid].text), at)
  {
    var text := Folded(s.fold, s.rows[rowid].text);
    hide Tokens, UniqueIds, Trigram, Folded;
    forall i | 0 <= i < |word| - 2 ensures Posted(s, rowid, word, at, i) <==> SameTrigram(word, text, at, i) {
      TokenIs(s.fold, rowid, s.rows[rowid].text, at + i, Trigram(word, i));
    }
    hide Posted, SameTrigram;
  }

  /** The folded word occurs in the folded text. */
  predicate OccursFolded(fold: Folding, word: string, text: string) {
    Occurs(Folded(fold, word), Folded(fold, text))
  }

  /** A trigram phrase matches exactly the rows in which the word occurs up to folding. */
  lemma MatchIsFolded(s: Store, rowid: nat, word: string)
    requires Valid(s) && s.fts && rowid in s.rows && |word| >= 3
    ensures Matches(s, rowid, word) <==> OccursFolded(s.fold, word, s.rows[rowid].text)
  {
    var w, text := Folded(s.fold, word), Folded(s.fold, s.rows[rowid].text);
    hide Valid, OccursAt, PhraseAt, Spells, SameChars, Folded;
    forall at: nat ensures PhraseAt(s, rowid, w, at) <==> OccursAt(w, text, at) {
      OccursIsSameChars(w, text, at);
      SpellingIsSameChars(w, text, at);
      PhraseSpells(s, rowid, w, at);
    }
    OccursEarly(w, text);
  }

  lemma OccursEarly(word: string, text: string)
    ensures forall at: nat | OccursAt(word, text, at) :: at <= |text|
  {
  }

  /** No character of the text folds like another character of the word. */
  predicate Apart(fold: Folding, word: string, text: string) {
    forall i, k | 0 <= i < |word| && 0 <= k < |text| :: fold(word[i]) == fold(text[k]) ==> word[i] == text[k]
  }

  lemma FoldedAt(fold: Folding, word: string, text: string, at: nat)
    ensures OccursAt(word, text, at) ==> OccursAt(Folded(fold, word), Folded(fold, text), at)
    ensures Apart(fold, word, text) && OccursAt(Folded(fold, word), Folded(fold, text), at) ==> OccursAt(word, text, at)
  {
    var w, t := Folded(fold, word), Folded(fold, text);
    OccursIsSameChars(word, text, at);
    OccursIsSameChars(w, t, at);
    hide OccursAt, Folded;
    if SameChars(word, text, at) {
      assert forall k | 0 <= k < |w| :: w[k] == fold(word[k]) == fold(text[at + k]) == t[at + k];
    }
    if Apart(fold, word, text) && SameChars(w, t, at) {
      forall k | 0 <= k < |word| ensures word[k] == text[at + k] {
        assert w[k] == t[at + k] && w[k] == fold(word[k]) && t[at + k] == fold(text[at + k]);
      }
    }
  }

  /** Folding never loses an occurrence, and makes none up where word and text stay apart. */
  lemma FoldedOccurs(fold: Folding, word: string, text: string)
    ensures Occurs(word, text) ==> OccursFolded(fold, word, text)
    ensures Apart(fold, word, text) && OccursFolded(fold, word, text) ==> Occurs(word, text)
  {
    hide OccursAt, Apart, Folded;
    forall at: nat
      ensures OccursAt(word, text, at) ==> OccursAt(Folded(fold, word), Folded(fold, text), at)
      ensures Apart(fold, word, text) && OccursAt(Folded(fold, word), Folded(fold, text), at) ==> OccursAt(word, text, at)
    {
      FoldedAt(fold, word, text, at);
    }
  }

  lemma MatchIsLiteral(s: Store, rowid: nat, word: string)
    requires Valid(s) && s.fts && rowid in s.rows && |word| >= 3
    ensures Occurs(word, s.rows[rowid].text) ==> Matches(s, rowid, word)
    ensures Apart(s.fold, word, s.rows[rowid].text) ==> (Matches(s, rowid, word) <==> Occurs(word, s.rows[rowid].text))
  {
    hide Valid, Matches, Occurs, OccursFolded, Apart;
    MatchIsFolded(s, rowid, word);
    FoldedOccurs(s.fold, word, s.rows[rowid].text);
  }

  /** The word occurs in the row, up to folding where the trigram table answers. */
  ghost predicate Found(s: Store, rowid: nat, words: seq<string>, w: string)
    requires rowid in s.rows
  {
    if ByTrigrams(s, words) then OccursFolded(s.fold, w, s.rows[rowid].text) else Occurs(w, s.rows[rowid].text)
  }

  /** Whatever the folding, the search mode and the length of the words, this is what a query selects. */
  lemma SearchFinds(s: Store, rowid: nat, words: seq<string>)
    requires Valid(s) && rowid in s.rows
    requires Lowered(s.rows[rowid].text) && forall w | w in words :: Lowered(w)
    ensures Selected(s, rowid, words) <==> forall w | w in words :: Found(s, rowid, words, w)
  {
    hide Valid, Matches, Occurs, OccursFolded, Like, Pattern, Lowered;
    forall w | w in words
      ensures s.fts && |w| >= 3 ==> (Matches(s, rowid, w) <==> OccursFolded(s.fold, w, s.rows[rowid].text))
      ensures Like(Pattern(w), s.rows[rowid].text) <==> Occurs(w, s.rows[rowid].text)
    {
      if s.fts && |w| >= 3 { MatchIsFolded(s, rowid, w); }
      LikeIsLiteral(w, s.rows[rowid].text);
    }
  }

  /** A query selects exactly the rows whose text contains every word, in every search mode, as long as the tokenizer does
      not fold a character of the text onto another character of a word. */
  lemma SearchIsLiteral(s: Store, rowid: nat, words: seq<string>)
    requires Valid(s) && rowid in s.rows
    requires Lowered(s.rows[rowid].text) && forall w | w in words :: Lowered(w)
    ensures (forall w | w in words :: Occurs(w, s.rows[rowid].text)) ==> Selected(s, rowid, words)
    ensures (forall w | w in words :: Apart(s.fold, w, s.rows[rowid].text)) ==>
      (Selected(s, rowid, words) <==> forall w | w in words :: Occurs(w, s.rows[rowid].text))
  {
    hide Valid, Selected, Occurs, OccursFolded, Apart, Lowered;
    SearchFinds(s, rowid, words);
    forall w | w in words
      ensures Occurs(w, s.rows[rowid].text) ==> Found(s, rowid, words, w)
      ensures Apart(s.fold, w, s.rows[rowid].text) && Found(s, rowid, words, w) ==> Occurs(w, s.rows[rowid].text)
    {
      FoldedOccurs(s.fold, w, s.rows[rowid].text);
    }
  }

  predicate IsCapital(c: char) {
    'A' <= c <= 'Z'
  }

  /** Nothing that lower-cased text may hold folds like this character. */
  ghost predicate Alone(fold: Folding, c: char) {
    forall d: char | !IsCapital(d) && fold(d) == fold(c) :: d == c
  }

  /** The trigram table finds a word literally in every lower-cased text exactly when each of its characters is folded
      like no other that such a text may hold. */
  lemma FoldingIsLiteralExactly(fold: Folding, word: string)
    requires Lowered(word)
    ensures (forall text | Lowered(text) :: OccursFolded(fold, word, text) ==> Occurs(word, text)) <==>
      forall i | 0 <= i < |word| :: Alone(fold, word[i])
  {
    if forall i | 0 <= i < |word| :: Alone(fold, word[i]) {
      forall text | Lowered(text) ensures OccursFolded(fold, word, text) ==> Occurs(word, text) {
        AloneIsApart(fold, word, text);
        FoldedOccurs(fold, word, text);
      }
    } else {
      var i :| 0 <= i < |word| && !Alone(fold, word[i]);
      var d: char :| !IsCapital(d) && fold(d) == fold(word[i]) && d != word[i];
      Misread(fold, word, i, d);
    }
  }

  lemma AloneIsApart(fold: Folding, word: string, text: string)
    requires Lowered(text) && forall i | 0 <= i < |word| :: Alone(fold, word[i])
    ensures Apart(fold, word, text)
  {
    forall i, k | 0 <= i < |word| && 0 <= k < |text| ensures fold(word[i]) == fold(text[k]) ==> word[i] == text[k] {
      assert Alone(fold, word[i]);
    }
  }

  /** The word with one character replaced by another that folds alike. */
  lemma Misread(fold: Folding, word: string, i: nat, d: char)
    requires Lowered(word) && i < |word| && !IsCapital(d) && fold(d) == fold(word[i]) && d != word[i]
    ensures var text := word[i := d]; Lowered(text) && OccursFolded(fold, word, text) && !Occurs(word, text)
  {
    var text := word[i := d];
    assert Folded(fold, text) == Folded(fold, word);
    hide Folded;
    var w := Folded(fold, word);
    assert w[0..0 + |w|] == w && OccursAt(w, w, 0);
    assert text[0..0 + |word|] == text && text[i] != word[i];
    forall at: nat ensures !OccursAt(word, text, at) {
      if at == 0 { assert text != word; }
    }
  }

  /** Unicode case folding takes the long s to s, which `str.lower()` leaves alone: a search for `iss` then finds a text
      that only has the long s. */
  lemma LongSIsFound(fold: Folding)
    requires fold('\U{17f}') == 's' && fold('s') == 's'
    ensures Lowered("iss") && Lowered("i\U{17f}s") && OccursFolded(fold, "iss", "i\U{17f}s") && !Occurs("iss", "i\U{17f}s")
  {
    assert "iss"[1 := '\U{17f}'] == "i\U{17f}s";
    Misread(fold, "iss", 1, '\U{17f}');
  }
}
