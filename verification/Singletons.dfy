/**
 `Env`'s singletons: created on first use, deleted all at once, and created again
 by `initialize` from the list in which each creation registered itself.
 */
module Singletons {
  import opened Sequences

  /** Which singletons a constructor asks for, in order; `rank` falls along them. */
  datatype Graph = Graph(deps: map<string, seq<string>>, rank: map<string, nat>)

  predicate Acyclic(g: Graph) {
    forall t :: t in g.deps ==> t in g.rank && Below(g, g.deps[t], g.rank[t])
  }

  predicate Below(g: Graph, ts: seq<string>, bound: nat) {
    forall i :: 0 <= i < |ts| ==> ts[i] in g.deps && ts[i] in g.rank && g.rank[ts[i]] < bound
  }

  /** `known`: the static variable was initialised; `live`: its pointer is not null;
      `built`: every construction so far; `nullSeen`: some caller got a null pointer. */
  datatype State = State(creators: seq<string>, known: set<string>, live: set<string>, built: seq<string>,
    nullSeen: bool)

  /** `getOrCreateSingleton<t>()` */
  function Fetch(g: Graph, s: State, t: string): State
    requires Acyclic(g) && t in g.deps
    decreases g.rank[t], 2, 0
  {
    if t in s.known then (if t in s.live then s else s.(nullSeen := true))
    else
      var s1 := Create(g, s, t);
      s1.(known := s1.known + {t}, live := s1.live + {t})
  }

  /** `createSingleton<t>()`: the constructor first, the registration after it. */
  function Create(g: Graph, s: State, t: string): State
    requires Acyclic(g) && t in g.deps
    decreases g.rank[t], 1, 0
  {
    var s1 := FetchAll(g, s, g.deps[t], g.rank[t]);
    s1.(creators := s1.creators + [t], built := s1.built + [t])
  }

  function FetchAll(g: Graph, s: State, ts: seq<string>, bound: nat): State
    requires Acyclic(g) && Below(g, ts, bound)
    decreases bound, 0, |ts|
  {
    if ts == [] then s else FetchAll(g, Fetch(g, s, ts[0]), ts[1..], bound)
  }

  /** `getOrCreateSingleton<t>(true)` of a known singleton. */
  function Recreate(g: Graph, s: State, t: string): State
    requires Acyclic(g) && t in g.deps
  {
    var s1 := Create(g, s, t);
    s1.(live := s1.live + {t})
  }

  function RecreateAll(g: Graph, s: State, ts: seq<string>): State
    requires Acyclic(g) && forall i :: 0 <= i < |ts| ==> ts[i] in g.deps
    decreases |ts|
  {
    if ts == [] then s else RecreateAll(g, Recreate(g, s, ts[0]), ts[1..])
  }

  /** `initialize`: copy the list, clear it, run every entry. */
  function Initialize(g: Graph, s: State): State
    requires Acyclic(g) && forall i :: 0 <= i < |s.creators| ==> s.creators[i] in g.deps
  {
    RecreateAll(g, s.(creators := []), s.creators)
  }

  /** The cleanup handler deletes every instance. */
  function DeleteAll(s: State): State {
    s.(live := {})
  }

  // ---- the object ----

  class Env {
    const g: Graph
    var creators: seq<string>
    var known: set<string>
    var live: set<string>
    ghost var built: seq<string>
    ghost var nullSeen: bool

    ghost function Value(): State
      reads this
    {
      State(creators, known, live, built, nullSeen)
    }

    constructor (g: Graph)
      ensures this.g == g && Value() == State([], {}, {}, [], false)
    {
      this.g := g;
      creators, known, live, built, nullSeen := [], {}, {}, [], false;
    }

    method CreateSingleton(t: string)
      requires Acyclic(g) && t in g.deps
      modifies this
      ensures Value() == Create(g, old(Value()), t)
      decreases g.rank[t], 1
    {
      var ts := g.deps[t];
      for i := 0 to |ts|
        invariant FetchAll(g, Value(), ts[i..], g.rank[t]) == FetchAll(g, old(Value()), ts, g.rank[t])
      {
        assert ts[i..][0] == ts[i] && ts[i..][1..] == ts[i + 1..];
        var _ := GetOrCreateSingleton(ts[i], false);
      }
      creators := creators + [t];
      built := built + [t];
    }

    /** Gives whether the pointer is not null. */
    method GetOrCreateSingleton(t: string, create: bool) returns (there: bool)
      requires Acyclic(g) && t in g.deps
      requires create ==> t in known && t !in live
      modifies this
      ensures Value() == if create then Recreate(g, old(Value()), t) else Fetch(g, old(Value()), t)
      ensures there <==> t in live
      decreases g.rank[t], 2
    {
      if t !in known {
        CreateSingleton(t);
        known := known + {t};
        live := live + {t};
        return true;
      }
      if create {
        CreateSingleton(t);
        live := live + {t};
      }
      there := t in live;
      if !there {
        nullSeen := true;
      }
    }

    method Init()
      requires Acyclic(g) && Registered(g, Value()) && live == {}
      modifies this
      ensures Value() == Initialize(g, old(Value()))
    {
      var copy := creators;
      creators := [];
      ghost var start := Value();
      for i := 0 to |copy|
        invariant known == old(known) && forall k :: i <= k < |copy| ==> copy[k] !in live
        invariant RecreateAll(g, Value(), copy[i..]) == RecreateAll(g, start, copy)
      {
        assert copy[i..][0] == copy[i] && copy[i..][1..] == copy[i + 1..];
        KnownOnly(g, Value(), copy, i);
        var _ := GetOrCreateSingleton(copy[i], true);
      }
    }
  }

  // ---- the list ----

  /** The dependencies of each entry stand before it. */
  predicate DepsFirst(g: Graph, list: seq<string>) {
    forall i :: 0 <= i < |list| ==> list[i] in g.deps && AllIn(g.deps[list[i]], list[..i])
  }

  predicate AllIn(ts: seq<string>, list: seq<string>) {
    forall i :: 0 <= i < |ts| ==> ts[i] in list
  }

  /** The list names the known singletons once each. */
  ghost predicate Registered(g: Graph, s: State) {
    && Distinct(s.creators)
    && (forall t :: t in s.known <==> t in s.creators)
    && (forall i :: 0 <= i < |s.creators| ==> s.creators[i] in g.deps && AllIn(g.deps[s.creators[i]], s.creators))
  }

  /** The list is in dependency order as well, and nobody saw a null pointer. */
  ghost predicate Sound(g: Graph, s: State) {
    Registered(g, s) && DepsFirst(g, s.creators) && s.live <= s.known && !s.nullSeen
  }

  /** Everything registered from `s` to `s'` ranks below `bound`. */
  predicate Extends(g: Graph, s: State, s': State, bound: nat) {
    && s.creators <= s'.creators && s.known <= s'.known
    && (forall t :: t in s'.known && t !in s.known ==> t in g.rank && g.rank[t] < bound)
  }

  lemma {:induction false} AppendSound(g: Graph, s: State, t: string)
    requires Sound(g, s) && t in g.deps && t !in s.known && AllIn(g.deps[t], s.creators)
    ensures Sound(g, s.(creators := s.creators + [t], built := s.built + [t], known := s.known + {t},
      live := s.live + {t}))
  {
    var list := s.creators + [t];
    assert t !in s.creators;
    forall i | 0 <= i < |list| ensures list[i] in g.deps && AllIn(g.deps[list[i]], list[..i]) {
      if i < |s.creators| {
        assert list[i] == s.creators[i] && list[..i] == s.creators[..i];
      } else {
        assert list[..i] == s.creators;
      }
    }
    forall i | 0 <= i < |list| ensures AllIn(g.deps[list[i]], list) {
      assert AllIn(g.deps[list[i]], list[..i]);
    }
  }

  /** First use keeps the list sound and makes the singleton available. */
  lemma {:induction false} FetchSound(g: Graph, s: State, t: string)
    requires Acyclic(g) && t in g.deps && Sound(g, s) && s.live == s.known
    ensures var s' := Fetch(g, s, t);
      && Sound(g, s') && s'.live == s'.known && t in s'.known && Extends(g, s, s', g.rank[t] + 1)
    decreases g.rank[t], 2, 0
  {
    if t !in s.known {
      FetchAllSound(g, s, g.deps[t], g.rank[t]);
      AppendSound(g, FetchAll(g, s, g.deps[t], g.rank[t]), t);
    }
  }

  lemma {:induction false} FetchAllSound(g: Graph, s: State, ts: seq<string>, bound: nat)
    requires Acyclic(g) && Below(g, ts, bound) && Sound(g, s) && s.live == s.known
    ensures var s' := FetchAll(g, s, ts, bound);
      && Sound(g, s') && s'.live == s'.known && Extends(g, s, s', bound) && AllIn(ts, s'.creators)
    decreases bound, 0, |ts|
  {
    if ts != [] {
      var s1 := Fetch(g, s, ts[0]);
      FetchSound(g, s, ts[0]);
      FetchAllSound(g, s1, ts[1..], bound);
      var s' := FetchAll(g, s1, ts[1..], bound);
      forall i | 0 <= i < |ts| ensures ts[i] in s'.creators {
        if i > 0 { assert ts[i] == ts[1..][i - 1]; }
      }
    }
  }

  /** `u` is asked for when `t` is built: it is `t`, or one of its constructor's
      dependencies asks for it. */
  ghost predicate Needs(g: Graph, t: string, u: string)
    requires Acyclic(g) && t in g.deps
    decreases g.rank[t]
  {
    u == t || exists i :: 0 <= i < |g.deps[t]| && Needs(g, g.deps[t][i], u)
  }

  ghost predicate NeededBy(g: Graph, ts: seq<string>, u: string)
    requires Acyclic(g) && forall i :: 0 <= i < |ts| ==> ts[i] in g.deps
  {
    exists i :: 0 <= i < |ts| && Needs(g, ts[i], u)
  }

  /** From `s` to `s'` every construction was registered, and nothing else was. */
  predicate BuiltMore(s: State, s': State) {
    && s.creators <= s'.creators
    && s'.built == s.built + s'.creators[|s.creators|..]
  }

  lemma {:induction false} BuiltTwice(a: State, b: State, c: State)
    requires BuiltMore(a, b) && BuiltMore(b, c)
    ensures BuiltMore(a, c)
  {
    assert c.creators[|a.creators|..] == b.creators[|a.creators|..] + c.creators[|b.creators|..];
  }

  /** First use builds what the singleton needs and nothing else, each construction
      being registered. */
  lemma {:induction false} FetchBuilds(g: Graph, s: State, t: string)
    requires Acyclic(g) && t in g.deps && Sound(g, s) && s.live == s.known
    ensures var s' := Fetch(g, s, t);
      BuiltMore(s, s') && forall u :: u in s'.known && u !in s.known ==> Needs(g, t, u)
    decreases g.rank[t], 2, 0
  {
    if t !in s.known {
      var ts := g.deps[t];
      FetchAllBuilds(g, s, ts, g.rank[t]);
      FetchAllSound(g, s, ts, g.rank[t]);
      var s1 := FetchAll(g, s, ts, g.rank[t]);
      assert Below(g, ts, g.rank[t]);
      assert (s1.creators + [t])[|s.creators|..] == s1.creators[|s.creators|..] + [t];
    }
  }

  lemma {:induction false} FetchAllBuilds(g: Graph, s: State, ts: seq<string>, bound: nat)
    requires Acyclic(g) && Below(g, ts, bound) && Sound(g, s) && s.live == s.known
    ensures var s' := FetchAll(g, s, ts, bound);
      BuiltMore(s, s') && forall u :: u in s'.known && u !in s.known ==> NeededBy(g, ts, u)
    decreases bound, 0, |ts|
  {
    if ts == [] {
      assert s.built + [] == s.built;
    } else {
      var s1 := Fetch(g, s, ts[0]);
      var s' := FetchAll(g, s1, ts[1..], bound);
      FetchSound(g, s, ts[0]);
      FetchBuilds(g, s, ts[0]);
      FetchAllBuilds(g, s1, ts[1..], bound);
      BuiltTwice(s, s1, s');
      forall u | u in s'.known && u !in s.known ensures NeededBy(g, ts, u) {
        if u !in s1.known {
          var i :| 0 <= i < |ts[1..]| && Needs(g, ts[1..][i], u);
          assert Needs(g, ts[i + 1], u);
        }
      }
    }
  }

  // ---- initialize ----

  /** With known dependencies a constructor changes nothing, and gets a null
      pointer exactly when one of them is not live. */
  lemma {:induction false} FetchAllKnown(g: Graph, s: State, ts: seq<string>, bound: nat)
    requires Acyclic(g) && Below(g, ts, bound) && forall i :: 0 <= i < |ts| ==> ts[i] in s.known
    ensures FetchAll(g, s, ts, bound)
         == s.(nullSeen := s.nullSeen || exists i :: 0 <= i < |ts| && ts[i] !in s.live)
    decreases |ts|
  {
    if ts != [] {
      var s1 := Fetch(g, s, ts[0]);
      FetchAllKnown(g, s1, ts[1..], bound);
      if exists i :: 0 <= i < |ts| && ts[i] !in s.live {
        var i :| 0 <= i < |ts| && ts[i] !in s.live;
        if i > 0 { assert ts[1..][i - 1] !in s.live; }
      }
    }
  }

  lemma {:induction false} KnownOnly(g: Graph, s: State, copy: seq<string>, i: nat)
    requires Acyclic(g) && i < |copy| && Distinct(copy)
    requires forall k :: 0 <= k < |copy| ==> copy[k] in s.known && copy[k] in g.deps && AllIn(g.deps[copy[k]], copy)
    ensures Recreate(g, s, copy[i]) == s.(
      creators := s.creators + [copy[i]], built := s.built + [copy[i]], live := s.live + {copy[i]},
      nullSeen := s.nullSeen || exists k :: 0 <= k < |g.deps[copy[i]]| && g.deps[copy[i]][k] !in s.live)
  {
    var ts := g.deps[copy[i]];
    forall k | 0 <= k < |ts| ensures ts[k] in s.known {
      assert ts[k] in copy;
    }
    FetchAllKnown(g, s, ts, g.rank[copy[i]]);
  }

  /** After `i` entries of the list. */
  ghost predicate Rebuilt(g: Graph, start: State, copy: seq<string>, i: nat, s: State)
    requires i <= |copy|
  {
    && s.known == start.known && s.creators == copy[..i] && s.built == start.built + copy[..i]
    && (forall t :: t in s.live <==> t in copy[..i])
    && (s.nullSeen <==> !DepsFirst(g, copy[..i]))
  }

  lemma {:induction false} DepsFirstNext(g: Graph, copy: seq<string>, i: nat)
    requires i < |copy| && copy[i] in g.deps
    ensures DepsFirst(g, copy[..i + 1]) <==> DepsFirst(g, copy[..i]) && AllIn(g.deps[copy[i]], copy[..i])
  {
    var a, b := copy[..i], copy[..i + 1];
    assert b[i] == copy[i] && b[..i] == a;
    assert forall k :: 0 <= k < i ==> b[k] == a[k] && b[..k] == a[..k];
  }

  lemma {:induction false} RebuildFrom(g: Graph, start: State, copy: seq<string>, i: nat, s: State)
    requires Acyclic(g) && Distinct(copy) && i <= |copy|
    requires forall k :: 0 <= k < |copy| ==> copy[k] in start.known && copy[k] in g.deps && AllIn(g.deps[copy[k]], copy)
    requires Rebuilt(g, start, copy, i, s)
    ensures Rebuilt(g, start, copy, |copy|, RecreateAll(g, s, copy[i..]))
    decreases |copy| - i
  {
    if i < |copy| {
      var t := copy[i];
      assert copy[i..][0] == t && copy[i..][1..] == copy[i + 1..];
      KnownOnly(g, s, copy, i);
      DepsFirstNext(g, copy, i);
      assert copy[..i + 1] == copy[..i] + [t];
      assert (exists k :: 0 <= k < |g.deps[t]| && g.deps[t][k] !in s.live) <==> !AllIn(g.deps[t], copy[..i]);
      RebuildFrom(g, start, copy, i + 1, Recreate(g, s, t));
    }
  }

  /** What `initialize` does with any registered list: it builds every entry once,
      in the order of the list, registers the same list again, and hands a null
      pointer to some constructor exactly when the list is not in dependency order. */
  lemma {:induction false} InitializeMeans(g: Graph, s: State)
    requires Acyclic(g) && Registered(g, s) && s.live == {} && !s.nullSeen
    ensures var s' := Initialize(g, s);
      && s'.creators == s.creators && s'.built == s.built + s.creators
      && s'.known == s.known && s'.live == s.known
      && (s'.nullSeen <==> !DepsFirst(g, s.creators))
  {
    var copy, s0 := s.creators, s.(creators := []);
    assert copy[0..] == copy && copy[..0] == [] && copy[..|copy|] == copy;
    RebuildFrom(g, s0, copy, 0, s0);
  }

  // ---- whole lifetimes ----

  datatype Event = Use(t: string) | Restart

  ghost predicate Usable(g: Graph, es: seq<Event>) {
    forall i :: 0 <= i < |es| && es[i].Use? ==> es[i].t in g.deps
  }

  /** Uses on demand, and restarts: everything deleted, then `initialize`. */
  ghost function Live(g: Graph, s: State, es: seq<Event>): (r: State)
    requires Acyclic(g) && Usable(g, es)
    requires Sound(g, s) && s.live == s.known
    ensures Sound(g, r) && r.live == r.known
    decreases |es|
  {
    if es == [] then s
    else match es[0]
      case Use(t) => FetchSound(g, s, t); Live(g, Fetch(g, s, t), es[1..])
      case Restart =>
        InitializeMeans(g, DeleteAll(s));
        Live(g, Initialize(g, DeleteAll(s)), es[1..])
  }

  /** Over any lifetime no constructor and no caller ever sees a null pointer, the
      list is duplicate-free with every dependency before its user, and a restart
      builds each singleton exactly once and leaves the same list. */
  lemma {:induction false} LifetimeSound(g: Graph, es: seq<Event>)
    requires Acyclic(g) && Usable(g, es)
    ensures var s := Live(g, State([], {}, {}, [], false), es);
      && !s.nullSeen && s.live == s.known
      && Distinct(s.creators) && DepsFirst(g, s.creators)
      && (forall t :: t in s.known <==> t in s.creators)
      && var again := Initialize(g, DeleteAll(s));
         again.creators == s.creators && again.built == s.built + s.creators && !again.nullSeen
  {
    var s := Live(g, State([], {}, {}, [], false), es);
    InitializeMeans(g, DeleteAll(s));
  }
}
