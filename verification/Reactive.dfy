/** Signals and computed values (src/agenthicc/reactive.py).

    Cells are numbered in creation order. A computed cell's dependencies exist when it is created, so they
    have smaller numbers: every graph the module can build is acyclic. A subscriber is the recompute callback
    of a computed cell, and stands for it by number. */
module Reactive {

  datatype Cell<!T> =
    | Signal
    | Computed(fn: seq<T> -> T, deps: seq<nat>)

  datatype State<!T> = State(cells: seq<Cell<T>>, value: seq<T>, subs: seq<seq<nat>>, disposed: set<nat>)

  // ---------- specification ----------

  ghost predicate Live<T>(g: State<T>, j: int) {
    0 <= j < |g.cells| && g.cells[j].Computed? && j !in g.disposed
  }

  /** Dependencies come first. */
  ghost predicate Layered<T>(g: State<T>) {
    && |g.value| == |g.cells| && |g.subs| == |g.cells|
    && (forall c | c in g.disposed :: c < |g.cells| && g.cells[c].Computed?)
    && forall j, i | 0 <= j < |g.cells| && g.cells[j].Computed? && 0 <= i < |g.cells[j].deps| :: g.cells[j].deps[i] < j
  }

  /** A live computed cell is subscribed to exactly those of its dependencies that were not disposed. */
  ghost predicate Wired<T>(g: State<T>)
    requires Layered(g)
  {
    && (forall i, k | 0 <= i < |g.subs| && k in g.subs[i] ::
          Live(g, k) && i in g.cells[k].deps && Count(g.subs[i], k) <= Count(g.cells[k].deps, i))
    && (forall j, i | Live(g, j) && 0 <= i < |g.cells[j].deps| && g.cells[j].deps[i] !in g.disposed ::
          j in g.subs[g.cells[j].deps[i]])
  }

  ghost predicate Valid<T>(g: State<T>) {
    Layered(g) && Wired(g)
  }

  function DepValues<T>(value: seq<T>, deps: seq<nat>): seq<T>
    requires forall i | 0 <= i < |deps| :: deps[i] < |value|
  {
    seq(|deps|, i requires 0 <= i < |deps| => value[deps[i]])
  }

  /** The cell's value is its function of the present values of its dependencies. */
  ghost predicate Consistent<T>(g: State<T>, j: int)
    requires Layered(g) && 0 <= j < |g.cells| && g.cells[j].Computed?
  {
    g.value[j] == g.cells[j].fn(DepValues(g.value, g.cells[j].deps))
  }

  /** Every live computed cell outside `dirty` is consistent. */
  ghost predicate CleanExcept<T>(g: State<T>, dirty: set<nat>)
    requires Layered(g)
  {
    forall j: nat | Live(g, j) && j !in dirty :: Consistent(g, j)
  }

  /** Cell `j` is `s` or computed, directly or not, from it. */
  ghost predicate Depends<T>(g: State<T>, j: int, s: int)
    requires Layered(g) && 0 <= j < |g.cells|
    decreases j
  {
    j == s || (g.cells[j].Computed? && exists i | 0 <= i < |g.cells[j].deps| :: Depends(g, g.cells[j].deps[i], s))
  }

  /** The reference meaning: a signal, or a disposed cell, has its stored value; any other cell is its function
      of the meanings of its dependencies. */
  ghost function Meaning<T>(g: State<T>, j: int): T
    requires Layered(g) && 0 <= j < |g.cells|
    decreases j, 1, 0
  {
    if Live(g, j) then g.cells[j].fn(Meanings(g, j, |g.cells[j].deps|)) else g.value[j]
  }

  /** The meanings of the first `n` dependencies of `j`. */
  ghost function Meanings<T>(g: State<T>, j: int, n: nat): (m: seq<T>)
    requires Layered(g) && 0 <= j < |g.cells| && g.cells[j].Computed? && n <= |g.cells[j].deps|
    ensures |m| == n
    decreases j, 0, n
  {
    if n == 0 then [] else Meanings(g, j, n - 1) + [Meaning(g, g.cells[j].deps[n - 1])]
  }

  /** Only values differ. */
  ghost predicate SameWiring<T>(g: State<T>, h: State<T>) {
    h.cells == g.cells && h.subs == g.subs && h.disposed == g.disposed && |h.value| == |g.value|
  }

  /** No value changed except downstream of `s`. */
  ghost predicate OnlyDownstream<T>(g: State<T>, h: State<T>, s: int)
    requires Layered(g) && SameWiring(g, h)
  {
    forall k | 0 <= k < |g.cells| && !Depends(g, k, s) :: h.value[k] == g.value[k]
  }

  // ---------- lemmas ----------

  lemma {:induction false} DependsSame<T>(g: State<T>, h: State<T>, k: int, s: int)
    requires Layered(g) && Layered(h) && h.cells == g.cells && 0 <= k < |g.cells|
    ensures Depends(g, k, s) <==> Depends(h, k, s)
    decreases k
  {
    if g.cells[k].Computed? {
      forall i | 0 <= i < |g.cells[k].deps| { DependsSame(g, h, g.cells[k].deps[i], s); }
    }
  }

  lemma {:induction false} DependsTrans<T>(g: State<T>, k: int, c: int, s: int)
    requires Layered(g) && 0 <= k < |g.cells| && 0 <= c < |g.cells| && Depends(g, k, c) && Depends(g, c, s)
    ensures Depends(g, k, s)
    decreases k
  {
    if k != c {
      var i :| 0 <= i < |g.cells[k].deps| && Depends(g, g.cells[k].deps[i], c);
      DependsTrans(g, g.cells[k].deps[i], c, s);
    }
  }

  /** A cell only depends on itself and on earlier cells. */
  lemma {:induction false} DependsEarlier<T>(g: State<T>, k: int, s: int)
    requires Layered(g) && 0 <= k < |g.cells| && Depends(g, k, s)
    ensures s <= k
    decreases k
  {
    if k != s {
      var i :| 0 <= i < |g.cells[k].deps| && Depends(g, g.cells[k].deps[i], s);
      DependsEarlier(g, g.cells[k].deps[i], s);
    }
  }

  lemma {:induction false} MeaningsAt<T>(g: State<T>, j: int, n: nat, i: nat)
    requires Layered(g) && 0 <= j < |g.cells| && g.cells[j].Computed? && i < n <= |g.cells[j].deps|
    ensures Meanings(g, j, n)[i] == Meaning(g, g.cells[j].deps[i])
  {
    if i < n - 1 { MeaningsAt(g, j, n - 1, i); }
  }

  /** When every live computed cell is consistent, the stored values are the reference meanings. */
  lemma {:induction false} CleanIsMeaning<T>(g: State<T>, j: nat)
    requires Valid(g) && j < |g.cells| && CleanExcept(g, {})
    ensures g.value[j] == Meaning(g, j)
    decreases j
  {
    if Live(g, j) {
      var deps := g.cells[j].deps;
      var m := Meanings(g, j, |deps|);
      forall i | 0 <= i < |deps| ensures m[i] == g.value[deps[i]] {
        CleanIsMeaning(g, deps[i]);
        MeaningsAt(g, j, |deps|, i);
      }
      assert Consistent(g, j);
      assert m == DepValues(g.value, deps);
    }
  }

  /** Consistency pins every value: whatever the subscription and notification order, two graphs of the same cells
      that agree on signals and disposed cells agree everywhere. */
  lemma {:induction false} CleanIsUnique<T>(g: State<T>, h: State<T>, j: nat)
    requires Valid(g) && Valid(h) && CleanExcept(g, {}) && CleanExcept(h, {})
    requires g.cells == h.cells && g.disposed == h.disposed && j < |g.cells|
    requires forall k | 0 <= k < |g.cells| && !Live(g, k) :: g.value[k] == h.value[k]
    ensures g.value[j] == h.value[j]
    decreases j
  {
    if Live(g, j) {
      var deps := g.cells[j].deps;
      forall i | 0 <= i < |deps| ensures g.value[deps[i]] == h.value[deps[i]] {
        CleanIsUnique(g, h, deps[i]);
      }
      assert Live(h, j) && Consistent(g, j) && Consistent(h, j);
      assert DepValues(g.value, deps) == DepValues(h.value, deps);
    }
  }

  /** Said in full: no dependent cell that is not disposed is ever behind the cells it is computed from. */
  lemma CleanInFull<T>(g: State<T>)
    requires Layered(g)
    ensures CleanExcept(g, {}) <==>
      forall j | 0 <= j < |g.cells| && g.cells[j].Computed? && j !in g.disposed ::
        var deps := g.cells[j].deps;
        g.value[j] == g.cells[j].fn(seq(|deps|, i requires 0 <= i < |deps| => g.value[deps[i]]))
  {
    forall j: nat | Live(g, j)
      ensures var deps := g.cells[j].deps;
        DepValues(g.value, deps) == seq(|deps|, i requires 0 <= i < |deps| => g.value[deps[i]])
    {
    }
    if !CleanExcept(g, {}) {
      var j: nat :| Live(g, j) && !Consistent(g, j);
    }
    forall j: nat | Live(g, j) ensures CleanExcept(g, {}) ==> Consistent(g, j) { }
  }

  /** What a set leaves is determined: the signal has its new value, the other signals and the disposed cells keep theirs,
      and the rest follows, in whatever order the subscribers were called. */
  lemma SetIsDetermined<T>(g: State<T>, s: nat, v: T, a: State<T>, b: State<T>)
    requires Valid(g) && s < |g.cells| && g.cells[s].Signal? && LeftBySet(g, s, v, a) && LeftBySet(g, s, v, b)
    ensures a == b
  {
    forall k | 0 <= k < |g.cells| ensures a.value[k] == b.value[k] {
      CleanIsUnique(a, b, k);
    }
  }

  ghost predicate LeftBySet<T>(g: State<T>, s: nat, v: T, h: State<T>)
    requires Layered(g) && s < |g.cells|
  {
    && Valid(h) && CleanExcept(h, {}) && SameWiring(g, h) && h.value[s] == v
    && forall k | 0 <= k < |g.cells| && k != s && (g.cells[k].Signal? || k in g.disposed) :: h.value[k] == g.value[k]
  }

  /** After one live or signal cell changed, only the cells subscribed to it can be inconsistent. */
  lemma ChangedOne<T>(g: State<T>, c: nat, v: T, j: nat)
    requires Valid(g) && c < |g.cells| && c !in g.disposed
    requires Live(g, j) && j != c && j !in g.subs[c] && Consistent(g, j)
    ensures Consistent(g.(value := g.value[c := v]), j)
  {
    var h := g.(value := g.value[c := v]);
    var deps := g.cells[j].deps;
    assert forall i | 0 <= i < |deps| :: deps[i] != c;
    assert DepValues(h.value, deps) == DepValues(g.value, deps);
  }

  lemma ChangedClean<T>(g: State<T>, c: nat, v: T, dirty: set<nat>)
    requires Valid(g) && c < |g.cells| && c !in g.disposed && CleanExcept(g, dirty)
    ensures var h := g.(value := g.value[c := v]);
      CleanExcept(h, dirty + {c} + set k | k in g.subs[c])
  {
    var h := g.(value := g.value[c := v]);
    forall j: nat | Live(h, j) && j !in dirty + {c} + set k | k in g.subs[c] ensures Consistent(h, j) {
      assert Live(g, j) && j !in g.subs[c];
      ChangedOne(g, c, v, j);
    }
  }

  lemma DownstreamTrans<T>(g: State<T>, h: State<T>, f: State<T>, c: int, s: int)
    requires Layered(g) && SameWiring(g, h) && SameWiring(h, f) && 0 <= c < |g.cells|
    requires OnlyDownstream(g, h, s) && OnlyDownstream(h, f, c) && Depends(g, c, s)
    ensures OnlyDownstream(g, f, s)
  {
    forall k | 0 <= k < |g.cells| && !Depends(g, k, s) ensures f.value[k] == g.value[k] {
      DependsSame(g, h, k, c);
      if Depends(g, k, c) { DependsTrans(g, k, c, s); }
    }
  }

  function CountAfter<T>(g: State<T>, cell: Cell<T>, k: nat, c: nat): nat {
    (if k < |g.subs| then Count(g.subs[k], c) else 0) + if c == |g.cells| && cell.Computed? then Count(cell.deps, k) else 0
  }

  /** Adding a cell that nothing reads yet, subscribed to its dependencies, keeps the graph valid. */
  lemma GrowValid<T>(g: State<T>, cell: Cell<T>, v: T, subs: seq<seq<nat>>)
    requires Valid(g) && |subs| == |g.cells| + 1
    requires cell.Computed? ==> forall i | 0 <= i < |cell.deps| :: cell.deps[i] < |g.cells|
    requires |g.cells| !in g.disposed
    requires forall k: nat, c | k < |subs| :: Count(subs[k], c) == CountAfter(g, cell, k, c)
    ensures Valid(State(g.cells + [cell], g.value + [v], subs, g.disposed))
  {
    var h := State(g.cells + [cell], g.value + [v], subs, g.disposed);
    AllCountsIn();
    hide Count;
    forall i: nat, k | i < |h.subs| && k in h.subs[i]
      ensures Live(h, k) && i in h.cells[k].deps && Count(h.subs[i], k) <= Count(h.cells[k].deps, i)
    {
      if k == |g.cells| {
        assert i < |g.subs| ==> forall x | x in g.subs[i] :: Live(g, x);
        assert !Live(g, k);
      } else {
        assert i < |g.subs| && k in g.subs[i] && Live(g, k);
      }
    }
    forall j, i | Live(h, j) && 0 <= i < |h.cells[j].deps| && h.cells[j].deps[i] !in h.disposed
      ensures j in h.subs[h.cells[j].deps[i]]
    {
      if j < |g.cells| {
        assert Live(g, j) && j in g.subs[g.cells[j].deps[i]];
      } else {
        assert cell.deps[i] in cell.deps;
      }
    }
  }

  /** A fresh cell leaves the others consistent. */
  lemma GrowClean<T>(g: State<T>, h: State<T>, cell: Cell<T>, v: T)
    requires Valid(g) && CleanExcept(g, {}) && Valid(h)
    requires h.cells == g.cells + [cell] && h.value == g.value + [v] && h.disposed == g.disposed
    requires cell.Computed? ==>
      (forall i | 0 <= i < |cell.deps| :: cell.deps[i] < |g.value|) && v == cell.fn(DepValues(g.value, cell.deps))
    ensures CleanExcept(h, {})
  {
    forall j: nat | Live(h, j) ensures Consistent(h, j) {
      if j < |g.cells| { assert Live(g, j) && Consistent(g, j); }
      assert DepValues(h.value, h.cells[j].deps) == DepValues(g.value, h.cells[j].deps);
    }
  }

  // ---------- the class ----------

  class Graph<T(==)> {
    var cells: seq<Cell<T>>
    var value: seq<T>
    var subs: seq<seq<nat>>
    var disposed: set<nat>

    ghost function Now(): State<T> reads this { State(cells, value, subs, disposed) }

    constructor ()
      ensures Valid(Now()) && CleanExcept(Now(), {}) && cells == []
    {
      cells, value, subs, disposed := [], [], [], {};
    }

    method NewSignal(initial: T) returns (id: nat)
      requires Valid(Now()) && CleanExcept(Now(), {})
      modifies this
      ensures Valid(Now()) && CleanExcept(Now(), {})
      ensures id == |old(cells)| && cells == old(cells) + [Signal] && value == old(value) + [initial] && disposed == old(disposed)
    {
      id := |cells|;
      ghost var g := Now();
      cells, value, subs := cells + [Signal], value + [initial], subs + [[]];
      assert id !in disposed;
      GrowValid(g, Signal, initial, subs);
      GrowClean(g, Now(), Signal, initial);
    }

    /** Evaluate once, then subscribe to each dependency in order. */
    method NewComputed(fn: seq<T> -> T, deps: seq<nat>) returns (id: nat)
      requires Valid(Now()) && CleanExcept(Now(), {}) && forall i | 0 <= i < |deps| :: deps[i] < |cells|
      modifies this
      ensures Valid(Now()) && CleanExcept(Now(), {})
      ensures id == |old(cells)| && cells == old(cells) + [Computed(fn, deps)] && disposed == old(disposed)
      ensures value == old(value) + [fn(DepValues(old(value), deps))]
    {
      id := |cells|;
      ghost var g := Now();
      var initial := fn(DepValues(value, deps));
      subs := Subscribe(subs + [[]], deps, id);
      cells, value := cells + [Computed(fn, deps)], value + [initial];
      assert id !in disposed;
      GrowValid(g, Computed(fn, deps), initial, subs);
      GrowClean(g, Now(), Computed(fn, deps), initial);
    }

    /** `set`: swap the value, then notify unless it is equal. */
    method Set(s: nat, v: T)
      requires Valid(Now()) && CleanExcept(Now(), {}) && s < |cells| && cells[s].Signal?
      modifies this`value
      ensures Valid(Now()) && CleanExcept(Now(), {}) && SameWiring(old(Now()), Now())
      ensures LeftBySet(old(Now()), s, v, Now())
      ensures OnlyDownstream(old(Now()), Now(), s)
    {
      if v == value[s] { return; }
      ghost var g := Now();
      ChangedClean(g, s, v, {});
      value := value[s := v];
      ghost var h := Now();
      assert CleanExcept(h, {} + set k | k in subs[s]);
      Notify(subs[s], s, {});
      assert Depends(g, s, s) && OnlyDownstream(g, h, s);
      DownstreamTrans(g, h, Now(), s, s);
    }

    /** `_notify`: call every subscriber, in order. */
    method Notify(list: seq<nat>, source: nat, ghost dirty: set<nat>)
      requires Valid(Now()) && source < |cells| && list == subs[source]
      requires CleanExcept(Now(), dirty + set k | k in list)
      modifies this`value
      ensures Valid(Now()) && CleanExcept(Now(), dirty) && SameWiring(old(Now()), Now())
      ensures OnlyDownstream(old(Now()), Now(), source) && value[source] == old(value)[source]
      ensures forall k | k in disposed :: value[k] == old(value)[k]
      decreases |cells| - source, 0
    {
      ghost var g := Now();
      for i := 0 to |list|
        invariant Valid(Now()) && SameWiring(g, Now())
        invariant CleanExcept(Now(), dirty + set k | k in list[i..])
        invariant OnlyDownstream(g, Now(), source) && value[source] == g.value[source]
        invariant forall k | k in disposed :: value[k] == g.value[k]
      {
        var c := list[i];
        ghost var rest := dirty + set k | k in list[i..];
        ghost var h := Now();
        SubscriberDepends(h, source, c);
        SubscriberDepends(g, source, c);
        Recompute(c, rest);
        DownstreamTrans(g, h, Now(), c, source);
        if Depends(h, source, c) { DependsEarlier(h, source, c); }
        assert forall k | k in rest - {c} :: k in dirty || k in list[i + 1..];
      }
    }

    /** `_recompute`: evaluate, and notify in turn if the value changed. */
    method Recompute(c: nat, ghost dirty: set<nat>)
      requires Valid(Now()) && Live(Now(), c) && CleanExcept(Now(), dirty)
      modifies this`value
      ensures Valid(Now()) && CleanExcept(Now(), dirty - {c}) && SameWiring(old(Now()), Now())
      ensures OnlyDownstream(old(Now()), Now(), c)
      ensures forall k | k in disposed :: value[k] == old(value)[k]
      decreases |cells| - c, 1
    {
      ghost var g := Now();
      var result := cells[c].fn(DepValues(value, cells[c].deps));
      if result != value[c] {
        ChangedClean(g, c, result, dirty);
        value := value[c := result];
        ghost var h := Now();
        assert DepValues(h.value, cells[c].deps) == DepValues(g.value, cells[c].deps);
        assert Consistent(h, c);
        assert CleanExcept(h, (dirty - {c}) + set k | k in subs[c]);
        Notify(subs[c], c, dirty - {c});
        assert Depends(g, c, c) && OnlyDownstream(g, h, c);
        DownstreamTrans(g, h, Now(), c, c);
      }
    }

    /** `dispose`: unsubscribe from every dependency and drop the subscribers; the value stays. */
    method Dispose(c: nat)
      requires Valid(Now()) && CleanExcept(Now(), {}) && c < |cells| && cells[c].Computed?
      modifies this
      ensures Valid(Now()) && CleanExcept(Now(), {})
      ensures cells == old(cells) && value == old(value) && disposed == old(disposed) + {c}
    {
      ghost var g := Now();
      subs := Unsubscribe(subs, cells[c].deps, c);
      DisposeKeeps(g, c, subs);
      subs := subs[c := []];
      disposed := disposed + {c};
    }
  }

  lemma DisposedGone<T>(g: State<T>, c: nat, subs: seq<seq<nat>>, i: nat, k: nat)
    requires Valid(g) && c < |g.cells| && g.cells[c].Computed? && |subs| == |g.subs| && i < |subs|
    requires k != c ==> Count(subs[i], k) == Count(g.subs[i], k)
    requires Count(subs[i], c) ==
      if Count(g.subs[i], c) > Count(g.cells[c].deps, i) then Count(g.subs[i], c) - Count(g.cells[c].deps, i) else 0
    ensures k in subs[i] <==> k in g.subs[i] && k != c
    ensures k in subs[i] ==> Live(g, k) && i in g.cells[k].deps && Count(subs[i], k) <= Count(g.cells[k].deps, i)
  {
    CountIn(subs[i], k);
    CountIn(g.subs[i], k);
    hide Count;
  }

  /** The subscriber lists that disposing `c` leaves, before its own list is cleared. */
  ghost predicate Released<T>(g: State<T>, c: nat, subs: seq<seq<nat>>)
    requires c < |g.cells| && g.cells[c].Computed?
  {
    && |subs| == |g.subs|
    && (forall k: nat, x | k < |subs| && x != c :: Count(subs[k], x) == Count(g.subs[k], x))
    && (forall k: nat | k < |subs| :: Count(subs[k], c) ==
          if Count(g.subs[k], c) > Count(g.cells[c].deps, k) then Count(g.subs[k], c) - Count(g.cells[c].deps, k) else 0)
  }

  lemma DisposeSubscribers<T>(g: State<T>, c: nat, subs: seq<seq<nat>>, h: State<T>)
    requires Valid(g) && c < |g.cells| && g.cells[c].Computed? && Released(g, c, subs)
    requires h == State(g.cells, g.value, subs[c := []], g.disposed + {c})
    ensures forall i, k | 0 <= i < |h.subs| && k in h.subs[i] ::
      Live(h, k) && i in h.cells[k].deps && Count(h.subs[i], k) <= Count(h.cells[k].deps, i)
  {
    hide Count, Wired;
    forall i: nat, k | i < |h.subs| && k in h.subs[i]
      ensures Live(h, k) && i in h.cells[k].deps && Count(h.subs[i], k) <= Count(h.cells[k].deps, i)
    {
      DisposedGone(g, c, subs, i, k);
    }
  }

  lemma DisposeDependencies<T>(g: State<T>, c: nat, subs: seq<seq<nat>>, h: State<T>, j: nat, i: nat)
    requires Valid(g) && c < |g.cells| && g.cells[c].Computed? && Released(g, c, subs)
    requires h == State(g.cells, g.value, subs[c := []], g.disposed + {c})
    requires Live(h, j) && i < |h.cells[j].deps| && h.cells[j].deps[i] !in h.disposed
    ensures h.cells[j].deps[i] < |h.subs| && j in h.subs[h.cells[j].deps[i]]
  {
    hide Count;
    assert Live(g, j) && j in g.subs[g.cells[j].deps[i]];
    DisposedGone(g, c, subs, g.cells[j].deps[i], j);
  }

  lemma DisposeWired<T>(g: State<T>, c: nat, subs: seq<seq<nat>>)
    requires Valid(g) && c < |g.cells| && g.cells[c].Computed? && Released(g, c, subs)
    ensures Valid(State(g.cells, g.value, subs[c := []], g.disposed + {c}))
  {
    var h := State(g.cells, g.value, subs[c := []], g.disposed + {c});
    DisposeSubscribers(g, c, subs, h);
    hide Count, Released;
    forall j, i | Live(h, j) && 0 <= i < |h.cells[j].deps| && h.cells[j].deps[i] !in h.disposed
      ensures j in h.subs[h.cells[j].deps[i]]
    {
      DisposeDependencies(g, c, subs, h, j, i);
    }
  }

  /** Dropping a cell's own subscribers and its callbacks at its dependencies leaves the rest wired and consistent. */
  lemma DisposeKeeps<T>(g: State<T>, c: nat, subs: seq<seq<nat>>)
    requires Valid(g) && CleanExcept(g, {}) && c < |g.cells| && g.cells[c].Computed? && Released(g, c, subs)
    ensures var h := State(g.cells, g.value, subs[c := []], g.disposed + {c}); Valid(h) && CleanExcept(h, {})
  {
    var h := State(g.cells, g.value, subs[c := []], g.disposed + {c});
    DisposeWired(g, c, subs);
    hide Wired, Released;
    forall j: nat | Live(h, j) ensures Consistent(h, j) {
      assert Live(g, j) && Consistent(g, j);
    }
  }

  lemma SubscriberDepends<T>(g: State<T>, source: nat, c: nat)
    requires Valid(g) && source < |g.cells| && c in g.subs[source]
    ensures Live(g, c) && source < c < |g.cells| && Depends(g, c, source)
  {
    var i :| 0 <= i < |g.cells[c].deps| && g.cells[c].deps[i] == source;
    assert Depends(g, g.cells[c].deps[i], source);
  }

  // ---------- subscriber lists ----------

  /** `list.remove(c)`: the first occurrence, if any. */
  function Remove(list: seq<nat>, c: nat): seq<nat> {
    if list == [] then []
    else if list[0] == c then list[1..]
    else [list[0]] + Remove(list[1..], c)
  }

  /** How often `c` occurs. */
  function Count(list: seq<nat>, c: nat): nat {
    if list == [] then 0 else Count(list[1..], c) + if list[0] == c then 1 else 0
  }

  lemma {:induction false} CountRemove(list: seq<nat>, c: nat, x: nat)
    ensures Count(Remove(list, c), x) == if x == c && Count(list, c) > 0 then Count(list, c) - 1 else Count(list, x)
  {
    if list != [] && list[0] != c {
      assert ([list[0]] + Remove(list[1..], c))[1..] == Remove(list[1..], c);
      CountRemove(list[1..], c, x);
    }
  }

  lemma {:induction false} CountAppend(list: seq<nat>, c: nat, x: nat)
    ensures Count(list + [c], x) == Count(list, x) + if x == c then 1 else 0
  {
    if list != [] {
      assert (list + [c])[1..] == list[1..] + [c];
      CountAppend(list[1..], c, x);
    }
  }

  lemma {:induction false} CountIn(list: seq<nat>, c: nat)
    ensures c in list <==> Count(list, c) > 0
  {
    if list != [] { CountIn(list[1..], c); }
  }

  lemma AllCountsIn()
    ensures forall list, c :: c in list <==> Count(list, c) > 0
  {
    forall list, c ensures c in list <==> Count(list, c) > 0 { CountIn(list, c); }
  }

  /** Append `id` to the subscribers of each dependency, in order. */
  method Subscribe(before: seq<seq<nat>>, deps: seq<nat>, id: nat) returns (subs: seq<seq<nat>>)
    requires forall i | 0 <= i < |deps| :: deps[i] < |before|
    ensures |subs| == |before|
    ensures forall k: nat, c | k < |subs| :: Count(subs[k], c) == Count(before[k], c) + if c == id then Count(deps, k) else 0
  {
    subs := before;
    assert forall k: nat :: Count(deps[..0], k) == 0;
    for i := 0 to |deps|
      invariant |subs| == |before|
      invariant forall k: nat, c | k < |subs| ::
        Count(subs[k], c) == Count(before[k], c) + if c == id then Count(deps[..i], k) else 0
    {
      assert deps[..i + 1] == deps[..i] + [deps[i]];
      forall k: nat { CountAppend(deps[..i], deps[i], k); }
      forall c { CountAppend(subs[deps[i]], id, c); }
      hide Count;
      subs := subs[deps[i] := subs[deps[i]] + [id]];
    }
    assert deps[..|deps|] == deps;
  }

  /** Remove one callback of `id` for each dependency entry. */
  method Unsubscribe(before: seq<seq<nat>>, deps: seq<nat>, id: nat) returns (subs: seq<seq<nat>>)
    requires forall i | 0 <= i < |deps| :: deps[i] < |before|
    ensures |subs| == |before|
    ensures forall k: nat, c | k < |subs| && c != id :: Count(subs[k], c) == Count(before[k], c)
    ensures forall k: nat | k < |subs| ::
      Count(subs[k], id) == if Count(before[k], id) > Count(deps, k) then Count(before[k], id) - Count(deps, k) else 0
  {
    subs := before;
    for i := 0 to |deps|
      invariant |subs| == |before|
      invariant forall k: nat, c | k < |subs| && c != id :: Count(subs[k], c) == Count(before[k], c)
      invariant forall k: nat | k < |subs| ::
        Count(subs[k], id) ==
        if Count(before[k], id) > Count(deps[..i], k) then Count(before[k], id) - Count(deps[..i], k) else 0
    {
      assert deps[..i + 1] == deps[..i] + [deps[i]];
      forall k: nat { CountAppend(deps[..i], deps[i], k); }
      forall c { CountRemove(subs[deps[i]], id, c); }
      hide Count, Remove;
      subs := subs[deps[i] := Remove(subs[deps[i]], id)];
    }
    assert deps[..|deps|] == deps;
  }
}
