/**
 `Env::getShared`: one weak reference per class in a map under a read-write lock,
 looked up under the read lock and, to create an instance, again under the write
 lock.  Any number of threads take one step at a time in any order.
 */
module SharedInstances {
  import opened Wrappers

  type Class = string

  datatype Inst = Inst(cls: Class, serial: nat)

  /** Where a thread stands inside `getShared`; `got` is its local reference. */
  datatype Pc =
    | Outside
    | ReadLocked(cls: Class, spawn: bool)
    | Fetched(cls: Class, spawn: bool, got: Option<Inst>)
    | Unlocked(cls: Class, spawn: bool, got: Option<Inst>)
    | WriteLocked(cls: Class)
    | Rechecked(cls: Class, got: Option<Inst>)
    | Created(cls: Class, inst: Inst)
    | Inserted(cls: Class, inst: Inst)

  /** `held` are the strong references the thread was given and still has. */
  datatype Thread = Thread(pc: Pc, held: multiset<Inst>)

  datatype State = State(threads: seq<Thread>, map_: map<Class, Inst>, readers: set<nat>, writer: Option<nat>,
    next: nat)

  function Local(pc: Pc): Option<Inst> {
    match pc
    case Fetched(_, _, got) => got
    case Unlocked(_, _, got) => got
    case Rechecked(_, got) => got
    case Created(_, i) => Some(i)
    case Inserted(_, i) => Some(i)
    case _ => None
  }

  predicate Has(th: Thread, r: Inst) {
    r in th.held || Local(th.pc) == Some(r)
  }

  predicate Holds(s: State, t: nat, r: Inst) {
    t < |s.threads| && Has(s.threads[t], r)
  }

  /** Some strong reference keeps the instance alive. */
  ghost predicate Alive(s: State, r: Inst) {
    exists t :: Holds(s, t, r)
  }

  /** The weak reference turned into a strong one, if the instance is alive. */
  ghost function Promote(s: State, cls: Class): Option<Inst> {
    if cls in s.map_ && Alive(s, s.map_[cls]) then Some(s.map_[cls]) else None
  }

  function Held(th: Thread, got: Option<Inst>): Thread {
    Thread(Outside, th.held + (match got case Some(r) => multiset{r} case None => multiset{}))
  }

  // ---- one step of thread t ----

  ghost function Move(s: State, t: nat, pc: Pc): State
    requires t < |s.threads|
  {
    s.(threads := s.threads[t := s.threads[t].(pc := pc)])
  }

  datatype Action =
    | LockForRead(cls: Class, spawn: bool)
    | Fetch
    | UnlockRead
    | Return
    | LockForWrite
    | Recheck
    | Create
    | Insert
    | UnlockWrite
    | Release(r: Inst)
    | Share(u: nat, r: Inst)

  ghost predicate Enabled(s: State, t: nat, a: Action) {
    t < |s.threads| &&
    var pc := s.threads[t].pc;
    match a
    case LockForRead(_, _) => pc.Outside? && s.writer.None?
    case Fetch => pc.ReadLocked?
    case UnlockRead => pc.Fetched?
    case Return => pc.Unlocked? && (pc.got.Some? || !pc.spawn)
    case LockForWrite => pc.Unlocked? && pc.got.None? && pc.spawn && s.writer.None? && s.readers == {}
    case Recheck => pc.WriteLocked?
    case Create => pc.Rechecked? && pc.got.None?
    case Insert => pc.Created?
    case UnlockWrite => pc.Inserted? || (pc.Rechecked? && pc.got.Some?)
    case Release(r) => pc.Outside? && r in s.threads[t].held
    case Share(u, r) => pc.Outside? && r in s.threads[t].held && u < |s.threads|
  }

  ghost function Next(s: State, t: nat, a: Action): State
    requires Enabled(s, t, a)
  {
    var th := s.threads[t];
    match a
    case LockForRead(cls, spawn) => Move(s, t, ReadLocked(cls, spawn)).(readers := s.readers + {t})
    case Fetch => Move(s, t, Fetched(th.pc.cls, th.pc.spawn, Promote(s, th.pc.cls)))
    case UnlockRead => Move(s, t, Unlocked(th.pc.cls, th.pc.spawn, th.pc.got)).(readers := s.readers - {t})
    case Return => s.(threads := s.threads[t := Held(th, th.pc.got)])
    case LockForWrite => Move(s, t, WriteLocked(th.pc.cls)).(writer := Some(t))
    case Recheck => Move(s, t, Rechecked(th.pc.cls, Promote(s, th.pc.cls)))
    case Create => Move(s, t, Created(th.pc.cls, Inst(th.pc.cls, s.next))).(next := s.next + 1)
    case Insert => Move(s, t, Inserted(th.pc.cls, th.pc.inst)).(map_ := s.map_[th.pc.cls := th.pc.inst])
    case UnlockWrite => s.(threads := s.threads[t := Held(th, Local(th.pc))], writer := None)
    case Release(r) => s.(threads := s.threads[t := th.(held := th.held - multiset{r})])
    case Share(u, r) => s.(threads := s.threads[u := s.threads[u].(held := s.threads[u].held + multiset{r})])
  }

  // ---- the invariant ----

  predicate WritePc(pc: Pc) {
    pc.WriteLocked? || pc.Rechecked? || pc.Created? || pc.Inserted?
  }

  predicate ReadPc(pc: Pc) {
    pc.ReadLocked? || pc.Fetched?
  }

  /** The locks are held exactly by the threads in the locked sections, and never
      for reading and writing at once. */
  ghost predicate Locks(s: State) {
    && (forall t: nat :: t < |s.threads| ==> (s.writer == Some(t) <==> WritePc(s.threads[t].pc)))
    && (forall t: nat :: t in s.readers <==> t < |s.threads| && ReadPc(s.threads[t].pc))
    && (s.writer.Some? ==> s.readers == {} && s.writer.value < |s.threads|)
  }

  /** Map entries and local references carry their class. */
  ghost predicate Typed(s: State) {
    && (forall c :: c in s.map_ ==> s.map_[c].cls == c)
    && (forall t: nat :: t < |s.threads| ==> TypedPc(s.threads[t].pc))
  }

  predicate TypedPc(pc: Pc) {
    Local(pc).Some? ==> !pc.Outside? && Local(pc).value.cls == pc.cls
  }

  predicate BeingCreated(s: State, t: nat, r: Inst) {
    t < |s.threads| && s.threads[t].pc == Created(r.cls, r)
  }

  /** Every strong reference is the one in the map, but for a reference whose
      creator has not inserted it yet. */
  ghost predicate Recorded(s: State) {
    forall t: nat, r :: Holds(s, t, r) ==> (r.cls in s.map_ && s.map_[r.cls] == r) || BeingCreated(s, t, r)
  }

  predicate FoundDead(pc: Pc, cls: Class) {
    pc.Rechecked? && pc.got.None? && pc.cls == cls
  }

  /** While an instance is being created nobody else has one of its class. */
  ghost predicate Exclusive(s: State) {
    && (forall t: nat, u: nat, r :: t < |s.threads| && Holds(s, u, r) ==> !FoundDead(s.threads[t].pc, r.cls))
    && (forall t: nat, u: nat, r ::
      t < |s.threads| && Holds(s, u, r) && s.threads[t].pc.Created? && s.threads[t].pc.cls == r.cls ==>
          u == t && s.threads[t].pc.inst == r)
  }

  ghost predicate Inv(s: State) {
    Locks(s) && Typed(s) && Recorded(s) && Exclusive(s)
  }

  // ---- preservation ----

  /** Steps that only move the thread or give up references. */
  predicate Plain(a: Action) {
    a.LockForRead? || a.UnlockRead? || a.Return? || a.LockForWrite? || a.UnlockWrite? || a.Release?
  }

  /** What such a step does to its thread. */
  ghost predicate OnlyLess(s: State, s': State, t: nat)
    requires t < |s.threads|
  {
    && |s'.threads| == |s.threads| && s'.map_ == s.map_
    && (forall u: nat :: u < |s.threads| && u != t ==> s'.threads[u] == s.threads[u])
    && (forall r :: Has(s'.threads[t], r) ==> Has(s.threads[t], r))
    && !s.threads[t].pc.Created? && !s'.threads[t].pc.Created? && !s'.threads[t].pc.Rechecked?
    && TypedPc(s'.threads[t].pc)
  }

  lemma {:induction false} HeldHas(th: Thread, got: Option<Inst>)
    requires Local(th.pc) == got
    ensures forall r :: Has(Held(th, got), r) ==> Has(th, r)
  {
  }

  lemma {:induction false} ReturnReferences(s: State, t: nat, a: Action)
    requires Inv(s) && Enabled(s, t, a) && (a.Return? || a.UnlockWrite?)
    ensures OnlyLess(s, Next(s, t, a), t)
  {
    HeldHas(s.threads[t], Local(s.threads[t].pc));
  }

  lemma {:induction false} MoveReferences(s: State, t: nat, a: Action)
    requires Inv(s) && Enabled(s, t, a) && (a.LockForRead? || a.UnlockRead? || a.LockForWrite?)
    ensures OnlyLess(s, Next(s, t, a), t)
  {
  }

  lemma {:induction false} PlainReferences(s: State, t: nat, a: Action)
    requires Inv(s) && Enabled(s, t, a) && Plain(a)
    ensures OnlyLess(s, Next(s, t, a), t)
  {
    if a.Return? || a.UnlockWrite? {
      ReturnReferences(s, t, a);
    } else if !a.Release? {
      MoveReferences(s, t, a);
    }
  }

  lemma {:induction false} PlainKeeps(s: State, s': State, t: nat)
    requires Inv(s) && t < |s.threads| && OnlyLess(s, s', t)
    ensures Typed(s') && Recorded(s') && Exclusive(s')
  {
    forall u: nat, r | Holds(s', u, r) ensures Holds(s, u, r) {}
    forall u: nat, r | Holds(s', u, r) ensures (r.cls in s'.map_ && s'.map_[r.cls] == r) || BeingCreated(s', u, r) {
      assert Holds(s, u, r);
    }
  }

  /** A step that stays in its section. */
  lemma {:induction false} LocksStay(s: State, s': State, t: nat)
    requires Locks(s) && t < |s.threads| && |s'.threads| == |s.threads|
    requires s'.readers == s.readers && s'.writer == s.writer
    requires forall u: nat :: u < |s.threads| && u != t ==> s'.threads[u].pc == s.threads[u].pc
    requires ReadPc(s'.threads[t].pc) == ReadPc(s.threads[t].pc)
    requires WritePc(s'.threads[t].pc) == WritePc(s.threads[t].pc)
    ensures Locks(s')
  {
  }

  lemma {:induction false} LocksChange(s: State, t: nat, a: Action)
    requires Locks(s) && Enabled(s, t, a)
    requires a.LockForRead? || a.UnlockRead? || a.LockForWrite? || a.UnlockWrite?
    ensures Locks(Next(s, t, a))
  {
    var s' := Next(s, t, a);
    assert forall u: nat :: u < |s.threads| && u != t ==> s'.threads[u] == s.threads[u];
    match a
    case LockForRead(_, _) =>
    case UnlockRead =>
    case LockForWrite =>
    case UnlockWrite => assert WritePc(s.threads[t].pc);
  }

  lemma {:induction false} LocksKept(s: State, t: nat, a: Action)
    requires Locks(s) && Enabled(s, t, a)
    ensures Locks(Next(s, t, a))
  {
    if a.LockForRead? || a.UnlockRead? || a.LockForWrite? || a.UnlockWrite? {
      LocksChange(s, t, a);
    } else {
      LocksStay(s, Next(s, t, a), t);
    }
  }

  lemma {:induction false} NotCreating(s: State, u: nat, r: Inst)
    requires Locks(s) && s.writer != Some(u)
    ensures !BeingCreated(s, u, r)
  {
  }

  lemma {:induction false} PromotedIsRecorded(s: State, cls: Class)
    requires Inv(s)
    ensures Promote(s, cls).Some? ==>
      cls in s.map_ && Promote(s, cls).value == s.map_[cls] && s.map_[cls].cls == cls
    ensures Promote(s, cls).None? ==> forall t: nat, r :: Holds(s, t, r) && r.cls == cls ==> BeingCreated(s, t, r)
  {
    if Promote(s, cls).None? {
      forall t: nat, r | Holds(s, t, r) && r.cls == cls ensures BeingCreated(s, t, r) {
        if cls in s.map_ && s.map_[cls] == r {
          assert Alive(s, r);
        }
      }
    }
  }

  /** A promotion, under either lock, when no other thread is in the write section. */
  lemma {:induction false} PromoteKeeps(s: State, s': State, t: nat, cls: Class)
    requires Inv(s) && t < |s.threads| && |s'.threads| == |s.threads| && s'.map_ == s.map_
    requires forall u: nat :: u < |s.threads| && u != t ==> s'.threads[u] == s.threads[u] && !WritePc(s.threads[u].pc)
    requires Local(s'.threads[t].pc) == Promote(s, cls) && s'.threads[t].held == s.threads[t].held
    requires Local(s.threads[t].pc).None? && !s'.threads[t].pc.Created?
    requires !s'.threads[t].pc.Outside? && s'.threads[t].pc.cls == cls
    ensures Typed(s') && Recorded(s') && Exclusive(s')
  {
    PromotedIsRecorded(s, cls);
    forall u: nat, r | Holds(s', u, r) ensures Holds(s, u, r) || Promote(s, cls) == Some(r) {}
    forall u: nat, r | Holds(s', u, r) ensures r.cls in s'.map_ && s'.map_[r.cls] == r {
      if Promote(s, cls) != Some(r) {
        assert Holds(s, u, r) && !BeingCreated(s, u, r);
      }
    }
    forall w: nat, u: nat, r | w < |s'.threads| && Holds(s', u, r) ensures !FoundDead(s'.threads[w].pc, r.cls) {
      if u != t {
        NotCreating(s, u, r);
      }
    }
  }

  lemma {:induction false} CreateKeeps(s: State, t: nat)
    requires Inv(s) && Enabled(s, t, Create)
    ensures Inv(Next(s, t, Create))
  {
    LocksKept(s, t, Create);
    var s', i := Next(s, t, Create), Inst(s.threads[t].pc.cls, s.next);
    assert FoundDead(s.threads[t].pc, i.cls);
    forall u: nat, r | Holds(s', u, r) ensures Holds(s, u, r) || (u == t && r == i) {}
    forall u: nat, r | Holds(s', u, r) ensures (r.cls in s'.map_ && s'.map_[r.cls] == r) || BeingCreated(s', u, r) {
      if u != t {
        NotCreating(s, u, r);
      }
    }
  }

  lemma {:induction false} InsertKeeps(s: State, t: nat)
    requires Inv(s) && Enabled(s, t, Insert)
    ensures Inv(Next(s, t, Insert))
  {
    LocksKept(s, t, Insert);
    var s', i := Next(s, t, Insert), s.threads[t].pc.inst;
    assert Holds(s, t, i);
    forall u: nat, r | Holds(s', u, r) ensures Holds(s, u, r) {}
    forall u: nat, r | Holds(s', u, r) ensures r.cls in s'.map_ && s'.map_[r.cls] == r {
      assert Holds(s, u, r);
      if u != t {
        NotCreating(s, u, r);
      }
    }
  }

  lemma {:induction false} ShareKeeps(s: State, t: nat, u: nat, r: Inst)
    requires Inv(s) && Enabled(s, t, Share(u, r))
    ensures Inv(Next(s, t, Share(u, r)))
  {
    LocksKept(s, t, Share(u, r));
    var s' := Next(s, t, Share(u, r));
    assert Holds(s, t, r) && !BeingCreated(s, t, r);
    forall w: nat, q | Holds(s', w, q) ensures Holds(s, w, q) || q == r {}
    forall w: nat | w < |s.threads| ensures s'.threads[w].pc == s.threads[w].pc {}
  }

  lemma {:induction false} StepKeeps(s: State, t: nat, a: Action)
    requires Inv(s) && Enabled(s, t, a)
    ensures Inv(Next(s, t, a))
  {
    LocksKept(s, t, a);
    if Plain(a) {
      PlainReferences(s, t, a);
      PlainKeeps(s, Next(s, t, a), t);
    } else {
      match a
      case Fetch =>
        assert t in s.readers;
        PromoteKeeps(s, Next(s, t, a), t, s.threads[t].pc.cls);
      case Recheck => PromoteKeeps(s, Next(s, t, a), t, s.threads[t].pc.cls);
      case Create => CreateKeeps(s, t);
      case Insert => InsertKeeps(s, t);
      case Share(u, r) => ShareKeeps(s, t, u, r);
    }
  }

  // ---- all runs ----

  /** Any number of threads outside, no instance, no lock taken. */
  ghost predicate Initial(s: State) {
    && (forall t: nat :: t < |s.threads| ==> s.threads[t] == Thread(Outside, multiset{}))
    && s.map_ == map[] && s.readers == {} && s.writer.None?
  }

  /** An interleaving: which thread takes which step. */
  ghost predicate IsRun(s: State, steps: seq<(nat, Action)>, final: State)
    decreases |steps|
  {
    if steps == [] then final == s
    else Enabled(s, steps[0].0, steps[0].1) && IsRun(Next(s, steps[0].0, steps[0].1), steps[1..], final)
  }

  lemma {:induction false} RunKeeps(s: State, steps: seq<(nat, Action)>, final: State)
    requires Inv(s) && IsRun(s, steps, final)
    ensures Inv(final)
    decreases |steps|
  {
    if steps != [] {
      StepKeeps(s, steps[0].0, steps[0].1);
      RunKeeps(Next(s, steps[0].0, steps[0].1), steps[1..], final);
    }
  }

  /** In every interleaving of any number of threads, all live strong references of
      one class refer to one instance, and it is the one the map records whenever
      the write lock is free. */
  lemma {:induction false} NeverSplit(s: State, steps: seq<(nat, Action)>, final: State)
    requires Initial(s) && IsRun(s, steps, final)
    ensures forall t: nat, u: nat, r, q :: Holds(final, t, r) && Holds(final, u, q) && r.cls == q.cls ==> r == q
    ensures final.writer.None? ==>
      forall t: nat, r :: Holds(final, t, r) ==> r.cls in final.map_ && final.map_[r.cls] == r
  {
    assert forall t: nat, r :: !Holds(s, t, r);
    RunKeeps(s, steps, final);
    forall t: nat, u: nat, r, q | Holds(final, t, r) && Holds(final, u, q) && r.cls == q.cls ensures r == q {
      if BeingCreated(final, t, r) {
        assert final.threads[t].pc.inst == q;
      }
    }
    if final.writer.None? {
      forall t: nat, r | Holds(final, t, r) ensures r.cls in final.map_ && final.map_[r.cls] == r {
        NotCreating(final, t, r);
      }
    }
  }
}
