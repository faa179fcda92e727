/** What a call of `getShared` gives its caller, and that it ends. */
module SharedCalls {
  import opened Wrappers
  import opened SharedInstances

  /** The states of a run, one more than its steps. */
  ghost predicate Trace(states: seq<State>, steps: seq<(nat, Action)>) {
    && |states| == |steps| + 1
    && (forall i {:trigger steps[i]} :: 0 <= i < |steps| ==>
         Enabled(states[i], steps[i].0, steps[i].1) && states[i + 1] == Next(states[i], steps[i].0, steps[i].1))
  }

  predicate Inside(s: State, t: nat) {
    t < |s.threads| && !s.threads[t].pc.Outside?
  }

  lemma {:induction false} TraceKeeps(states: seq<State>, steps: seq<(nat, Action)>, n: nat)
    requires Trace(states, steps) && n < |states| && Initial(states[0])
    ensures Inv(states[n]) && |states[n].threads| == |states[0].threads|
  {
    if n == 0 {
      assert forall t: nat, r :: !Holds(states[0], t, r);
    } else {
      TraceKeeps(states, steps, n - 1);
      StepKeeps(states[n - 1], steps[n - 1].0, steps[n - 1].1);
    }
  }

  /** In a call for `cls` that began at step `i`: what thread `t` found when it
      looked the class up under the read lock. */
  ghost predicate Looked(states: seq<State>, steps: seq<(nat, Action)>, t: nat, cls: Class, i: nat, n: nat,
                         got: Option<Inst>)
    requires |states| == |steps| + 1
  {
    exists k :: i < k < n <= |steps| && steps[k] == (t, Fetch) && got == Promote(states[k], cls)
  }

  /** Where the call stands before step `n`. */
  ghost predicate InCall(states: seq<State>, steps: seq<(nat, Action)>, t: nat, cls: Class, spawn: bool, i: nat, n: nat)
    requires |states| == |steps| + 1 && n < |states| && t < |states[n].threads|
  {
    var pc := states[n].threads[t].pc;
    && !pc.Outside? && pc.cls == cls
    && (pc.ReadLocked? || pc.Fetched? || pc.Unlocked? ==> pc.spawn == spawn)
    && (pc.Fetched? || pc.Unlocked? ==> Looked(states, steps, t, cls, i, n, pc.got))
    && (WritePc(pc) ==> spawn && Looked(states, steps, t, cls, i, n, None))
  }

  lemma {:induction false} LookedLater(states: seq<State>, steps: seq<(nat, Action)>, t: nat, cls: Class, i: nat,
                                       n: nat, got: Option<Inst>)
    requires |states| == |steps| + 1 && n < |steps| && Looked(states, steps, t, cls, i, n, got)
    ensures Looked(states, steps, t, cls, i, n + 1, got)
  {
  }

  lemma {:induction false} OthersStay(s: State, t: nat, u: nat, a: Action)
    requires Enabled(s, t, a) && u < |s.threads| && u != t
    ensures |Next(s, t, a).threads| == |s.threads| && Next(s, t, a).threads[u].pc == s.threads[u].pc
  {
  }

  lemma {:induction false} CallGoesOn(states: seq<State>, steps: seq<(nat, Action)>, t: nat, cls: Class, spawn: bool,
                                      i: nat, n: nat)
    requires Trace(states, steps) && i < n < |steps| && t < |states[n].threads|
    requires InCall(states, steps, t, cls, spawn, i, n) && Inside(states[n + 1], t)
    ensures InCall(states, steps, t, cls, spawn, i, n + 1)
  {
    var (u, a) := steps[n];
    var pc := states[n].threads[t].pc;
    if u != t {
      OthersStay(states[n], u, t, a);
      if pc.Fetched? || pc.Unlocked? {
        LookedLater(states, steps, t, cls, i, n, pc.got);
      } else if WritePc(pc) {
        LookedLater(states, steps, t, cls, i, n, None);
      }
    } else if pc.ReadLocked? {
      assert steps[n] == (t, Fetch) && Looked(states, steps, t, cls, i, n + 1, Promote(states[n], cls));
    } else if pc.Fetched? || pc.Unlocked? {
      LookedLater(states, steps, t, cls, i, n, pc.got);
    } else {
      LookedLater(states, steps, t, cls, i, n, None);
    }
  }

  /** A call: thread `t` enters with step `i`, leaves with step `n`, and is inside
      in between. */
  ghost predicate Call(states: seq<State>, steps: seq<(nat, Action)>, t: nat, cls: Class, spawn: bool, i: nat, n: nat) {
    && Trace(states, steps) && i < n < |steps| && t < |states[0].threads|
    && steps[i] == (t, LockForRead(cls, spawn))
    && (forall m :: i < m <= n ==> Inside(states[m], t))
    && !Inside(states[n + 1], t)
  }

  lemma {:induction false} Entering(s: State, t: nat, cls: Class, spawn: bool)
    requires Enabled(s, t, LockForRead(cls, spawn))
    ensures |Next(s, t, LockForRead(cls, spawn)).threads| == |s.threads|
    ensures Next(s, t, LockForRead(cls, spawn)).threads[t].pc == ReadLocked(cls, spawn)
  {
  }

  lemma {:induction false} CallBegins(states: seq<State>, steps: seq<(nat, Action)>, t: nat, cls: Class, spawn: bool,
                                      i: nat, n: nat)
    requires Call(states, steps, t, cls, spawn, i, n)
    ensures t < |states[i + 1].threads| && InCall(states, steps, t, cls, spawn, i, i + 1)
  {
    Entering(states[i], t, cls, spawn);
  }

  lemma {:induction false} CallStands(states: seq<State>, steps: seq<(nat, Action)>, t: nat, cls: Class, spawn: bool,
                                      i: nat, n: nat, m: nat)
    requires Call(states, steps, t, cls, spawn, i, n) && i < m <= n
    ensures t < |states[m].threads| && InCall(states, steps, t, cls, spawn, i, m)
    decreases m
  {
    if m == i + 1 {
      CallBegins(states, steps, t, cls, spawn, i, n);
    } else {
      CallStands(states, steps, t, cls, spawn, i, n, m - 1);
      assert Inside(states[m], t);
      CallGoesOn(states, steps, t, cls, spawn, i, m - 1);
    }
  }

  /** The last step of a call gives the caller the reference found, and the map
      records that one. */
  lemma {:induction false} LeavingGives(s: State, t: nat, u: nat, a: Action)
    requires Inv(s) && Inside(s, t) && Enabled(s, u, a) && !Inside(Next(s, u, a), t)
    ensures u == t && (a.Return? || a.UnlockWrite?)
    ensures var s', got := Next(s, u, a), Local(s.threads[t].pc);
      && t < |s'.threads|
      && s'.threads[t].held == s.threads[t].held + (if got.Some? then multiset{got.value} else multiset{})
      && (got.Some? ==> got.value.cls in s'.map_ && s'.map_[got.value.cls] == got.value)
  {
    if u != t {
      OthersStay(s, u, t, a);
    }
    if Local(s.threads[t].pc).Some? {
      var r := Local(s.threads[t].pc).value;
      assert Holds(s, t, r) && !BeingCreated(s, t, r);
    }
  }

  /** `got` is the live instance of the class, if there is one. */
  ghost predicate Finds(s: State, cls: Class, got: Option<Inst>) {
    && (got.Some? ==> got.value.cls == cls && Alive(s, got.value))
    && (got.None? ==> forall r :: Alive(s, r) ==> r.cls != cls)
  }

  lemma {:induction false} FetchFinds(s: State, t: nat)
    requires Inv(s) && Enabled(s, t, Fetch)
    ensures Finds(s, s.threads[t].pc.cls, Promote(s, s.threads[t].pc.cls))
  {
    var cls := s.threads[t].pc.cls;
    assert t in s.readers;
    PromotedIsRecorded(s, cls);
    if Promote(s, cls).None? {
      forall r | Alive(s, r) ensures r.cls != cls {
        var u :| Holds(s, u, r);
        NotCreating(s, u, r);
      }
    }
  }

  /** The class that is looked up is the one the call is for. */
  lemma {:induction false} FetchInCall(states: seq<State>, steps: seq<(nat, Action)>, t: nat, cls: Class, spawn: bool,
                                       i: nat, n: nat, k: nat)
    requires Call(states, steps, t, cls, spawn, i, n) && Initial(states[0])
    requires i < k < n && steps[k] == (t, Fetch)
    ensures Finds(states[k], cls, Promote(states[k], cls))
  {
    CallStands(states, steps, t, cls, spawn, i, n, k);
    TraceKeeps(states, steps, k);
    FetchFinds(states[k], t);
  }

  /** In every interleaving: a call that may spawn leaves its caller with exactly one
      reference more, of its class, and it is the one the map records then; a call
      that may not gives one exactly when an instance was alive as it looked, and
      whichever call found one gives that one. */
  lemma {:induction false} CallGives(states: seq<State>, steps: seq<(nat, Action)>, t: nat, cls: Class, spawn: bool,
                                     i: nat, n: nat)
    returns (k: nat, found: Option<Inst>, given: Option<Inst>)
    requires Call(states, steps, t, cls, spawn, i, n) && Initial(states[0])
    ensures i < k < n && steps[k] == (t, Fetch) && Finds(states[k], cls, found)
    ensures t < |states[n].threads| == |states[n + 1].threads|
    ensures states[n + 1].threads[t].held
         == states[n].threads[t].held + (if given.Some? then multiset{given.value} else multiset{})
    ensures given.Some? ==>
      given.value.cls == cls && cls in states[n + 1].map_ && states[n + 1].map_[cls] == given.value
    ensures found.Some? ==> given == found
    ensures found.None? ==> (given.Some? <==> spawn)
  {
    CallStands(states, steps, t, cls, spawn, i, n, n);
    TraceKeeps(states, steps, n);
    TraceKeeps(states, steps, n + 1);
    var (u, a) := steps[n];
    var pc := states[n].threads[t].pc;
    LeavingGives(states[n], t, u, a);
    given := Local(pc);
    found := if WritePc(pc) then None else pc.got;
    k :| i < k < n && steps[k] == (t, Fetch) && found == Promote(states[k], cls);
    FetchInCall(states, steps, t, cls, spawn, i, n, k);
  }

  /** Inside a call nothing but a gift from another thread changes what a thread has. */
  lemma {:induction false} InsideKeeps(s: State, t: nat, u: nat, a: Action)
    requires Enabled(s, u, a) && Inside(Next(s, u, a), t) && t < |s.threads|
    requires !(a.Share? && a.u == t)
    ensures Next(s, u, a).threads[t].held == s.threads[t].held
  {
  }

  // ---- calls end ----

  /** Steps still to come in a call. */
  function Remaining(pc: Pc): nat {
    match pc
    case Outside => 0
    case Inserted(_, _) => 1
    case Created(_, _) => 2
    case Rechecked(_, _) => 3
    case WriteLocked(_) => 4
    case Unlocked(_, _, _) => 5
    case Fetched(_, _, _) => 6
    case ReadLocked(_, _) => 7
  }

  lemma {:induction false} CallAdvances(s: State, t: nat, a: Action)
    requires Enabled(s, t, a) && Inside(s, t)
    ensures t < |Next(s, t, a).threads| && Remaining(Next(s, t, a).threads[t].pc) < Remaining(s.threads[t].pc)
  {
  }

  ghost predicate CanGoOn(s: State, t: nat) {
    Inside(s, t) && exists a :: Enabled(s, t, a)
  }

  lemma {:induction false} GoesOn(s: State, t: nat, a: Action)
    requires Inside(s, t) && Enabled(s, t, a)
    ensures CanGoOn(s, t)
  {
  }

  /** Who is in a locked section can go on. */
  lemma {:induction false} LockedGoesOn(s: State, t: nat)
    requires Inside(s, t) && !s.threads[t].pc.Unlocked?
    ensures CanGoOn(s, t)
  {
    match s.threads[t].pc
    case ReadLocked(_, _) => GoesOn(s, t, Fetch);
    case Fetched(_, _, _) => GoesOn(s, t, UnlockRead);
    case WriteLocked(_) => GoesOn(s, t, Recheck);
    case Rechecked(_, got) => GoesOn(s, t, if got.Some? then UnlockWrite else Create);
    case Created(_, _) => GoesOn(s, t, Insert);
    case Inserted(_, _) => GoesOn(s, t, UnlockWrite);
  }

  /** There is no deadlock: while a thread is inside a call, some thread inside a
      call can go on, and every step inside brings its call nearer to its end. */
  lemma {:induction false} NeverStuck(s: State, t: nat) returns (u: nat)
    requires Inv(s) && Inside(s, t)
    ensures CanGoOn(s, u)
  {
    u := t;
    if !s.threads[t].pc.Unlocked? {
      LockedGoesOn(s, t);
    } else if s.threads[t].pc.got.Some? || !s.threads[t].pc.spawn {
      GoesOn(s, t, Return);
    } else if s.writer.Some? {
      u := s.writer.value;
      LockedGoesOn(s, u);
    } else if s.readers != {} {
      u :| u in s.readers;
      LockedGoesOn(s, u);
    } else {
      GoesOn(s, t, LockForWrite);
    }
  }

  // ---- every instance is a new one ----

  /** All instances that are known have been numbered. */
  ghost predicate Numbered(s: State) {
    && (forall t: nat, r :: Holds(s, t, r) ==> r.serial < s.next)
    && (forall c :: c in s.map_ ==> s.map_[c].serial < s.next)
  }

  lemma {:induction false} NumberedKeeps(s: State, t: nat, a: Action)
    requires Numbered(s) && Inv(s) && Enabled(s, t, a)
    ensures Numbered(Next(s, t, a)) && s.next <= Next(s, t, a).next
  {
    var s' := Next(s, t, a);
    forall u: nat, r | Holds(s', u, r) ensures r.serial < s'.next {
      NumberedReference(s, t, a, u, r);
    }
    forall c | c in s'.map_ ensures s'.map_[c].serial < s'.next {
      if a.Insert? && c == s.threads[t].pc.cls {
        assert Holds(s, t, s.threads[t].pc.inst);
      }
    }
  }

  /** Where a reference comes from. */
  lemma {:induction false} NumberedReference(s: State, t: nat, a: Action, u: nat, r: Inst)
    requires Numbered(s) && Inv(s) && Enabled(s, t, a) && Holds(Next(s, t, a), u, r)
    ensures r.serial < Next(s, t, a).next
  {
    if a.Create? && u == t && r == Inst(s.threads[t].pc.cls, s.next) {
    } else if a.Share? && u == a.u && r == a.r {
      assert Holds(s, t, r);
    } else if a.Fetch? && u == t && Promote(s, s.threads[t].pc.cls) == Some(r) {
      assert r == s.map_[s.threads[t].pc.cls];
    } else if a.Recheck? && u == t && Promote(s, s.threads[t].pc.cls) == Some(r) {
      assert r == s.map_[s.threads[t].pc.cls];
    } else {
      OldReference(s, t, a, u, r);
    }
  }

  lemma {:induction false} OthersReference(s: State, t: nat, a: Action, u: nat, r: Inst)
    requires Enabled(s, t, a) && Holds(Next(s, t, a), u, r) && u != t
    requires !(a.Share? && u == a.u && r == a.r)
    ensures Holds(s, u, r)
  {
  }

  lemma {:induction false} GivenReference(s: State, t: nat, a: Action, r: Inst)
    requires Enabled(s, t, a) && Holds(Next(s, t, a), t, r)
    requires a.Return? || a.UnlockWrite? || a.Release? || a.Share?
    requires !(a.Share? && t == a.u && r == a.r)
    ensures Holds(s, t, r)
  {
    if a.Return? || a.UnlockWrite? {
      HeldHas(s.threads[t], Local(s.threads[t].pc));
    }
  }

  lemma {:induction false} OldReference(s: State, t: nat, a: Action, u: nat, r: Inst)
    requires Inv(s) && Enabled(s, t, a) && Holds(Next(s, t, a), u, r)
    requires !(a.Create? && u == t && r == Inst(s.threads[t].pc.cls, s.next))
    requires !(a.Share? && u == a.u && r == a.r)
    requires !((a.Fetch? || a.Recheck?) && u == t && Promote(s, s.threads[t].pc.cls) == Some(r))
    ensures Holds(s, u, r)
  {
    if u != t {
      OthersReference(s, t, a, u, r);
    } else if a.Return? || a.UnlockWrite? || a.Release? || a.Share? {
      GivenReference(s, t, a, r);
    }
  }

  lemma {:induction false} TraceNumbered(states: seq<State>, steps: seq<(nat, Action)>, n: nat)
    requires Trace(states, steps) && n < |states| && Initial(states[0])
    ensures Numbered(states[n])
  {
    TraceKeeps(states, steps, n);
    if n == 0 {
      assert forall t: nat, r :: !Holds(states[0], t, r);
    } else {
      TraceNumbered(states, steps, n - 1);
      TraceKeeps(states, steps, n - 1);
      NumberedKeeps(states[n - 1], steps[n - 1].0, steps[n - 1].1);
    }
  }

  /** What is created is none of the instances that anybody has or the map records,
      so that equal references mean one instance. */
  lemma {:induction false} CreatedIsNew(states: seq<State>, steps: seq<(nat, Action)>, n: nat)
    requires Trace(states, steps) && n < |steps| && Initial(states[0]) && steps[n].1.Create?
    ensures var t, s, s' := steps[n].0, states[n], states[n + 1];
      && t < |s.threads| && t < |s'.threads| && s'.threads[t].pc.Created?
      && var i := s'.threads[t].pc.inst;
      && i.cls == s.threads[t].pc.cls
      && (forall u: nat, r :: Holds(s, u, r) ==> r != i) && (forall c :: c in s.map_ ==> s.map_[c] != i)
      && i.serial < s'.next
  {
    TraceNumbered(states, steps, n);
  }

  /** A thread may give a reference up or share it, one at a time. */
  lemma {:induction false} HandsOver(s: State, t: nat, u: nat, r: Inst)
    requires t < |s.threads| && u < |s.threads| && s.threads[t].pc.Outside? && r in s.threads[t].held
    ensures Enabled(s, t, Release(r)) && Enabled(s, t, Share(u, r))
    ensures Next(s, t, Release(r)).threads[t].held + multiset{r} == s.threads[t].held
    ensures Next(s, t, Share(u, r)).threads[u].held == s.threads[u].held + multiset{r}
  {
  }
}
