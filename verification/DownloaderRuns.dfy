/** Whole runs of the downloader: conservation, order, one signal per request. */
module DownloaderRuns {
  import opened Sequences
  import opened Wrappers
  import opened Downloader
  import opened Lines

  function Ids(rs: seq<Request>): seq<nat> {
    if rs == [] then [] else [rs[0].id] + Ids(rs[1..])
  }

  function SignalIds(ss: seq<Signal>): seq<nat> {
    if ss == [] then [] else [ss[0].id] + SignalIds(ss[1..])
  }

  /** The numbers below `n` in order, without the dropped ones. */
  function Kept(n: nat, dropped: seq<nat>): seq<nat> {
    if n == 0 then []
    else if n - 1 in dropped then Kept(n - 1, dropped)
    else Kept(n - 1, dropped) + [n - 1]
  }

  function Without(s: seq<nat>, id: nat): seq<nat> {
    if s == [] then [] else if s[0] == id then Without(s[1..], id) else [s[0]] + Without(s[1..], id)
  }

  /** The signalled requests are the started ones, in the same order, but for the
      one still in flight. */
  predicate FinishedInOrder(s: State) {
    var done := SignalIds(s.h.finished);
    match s.current
    case None => s.h.started == done
    case Some(r) =>
      if r.running then s.h.started == done + [r.request.id]
      else s.h.started == done
  }

  /** Between any two statements, also while a signal is being emitted. */
  predicate Inv(s: State) {
    var dropped := SignalIds(s.h.dropped);
    && s.h.started + Ids(s.pending) == Kept(|s.h.asked|, dropped)
    && FinishedInOrder(s)
    && Dropped(|s.h.asked|, dropped)
  }

  /** Different numbers below `n`, and the kept ones are the others. */
  predicate Dropped(n: nat, dropped: seq<nat>) {
    && Distinct(dropped)
    && (forall i :: 0 <= i < |dropped| ==> dropped[i] < n)
    && |Kept(n, dropped)| + |dropped| == n
  }

  /** No signal is being emitted: the slot is free or its reply is running, and
      it is not free while requests wait. */
  predicate Quiescent(s: State) {
    && (s.current.Some? ==> s.current.value.running)
    && (s.pending != [] ==> s.current.Some?)
  }

  // ---- sequences of numbers ----

  lemma {:induction false} IdsAppend(a: seq<Request>, b: seq<Request>)
    ensures Ids(a + b) == Ids(a) + Ids(b)
  {
    if a == [] {
      assert a + b == b;
    } else {
      assert (a + b)[1..] == a[1..] + b;
      IdsAppend(a[1..], b);
    }
  }

  lemma {:induction false} SignalIdsAppend(a: seq<Signal>, b: seq<Signal>)
    ensures SignalIds(a + b) == SignalIds(a) + SignalIds(b)
  {
    if a == [] {
      assert a + b == b;
    } else {
      assert (a + b)[1..] == a[1..] + b;
      SignalIdsAppend(a[1..], b);
    }
  }

  lemma {:induction false} WithoutAppend(a: seq<nat>, b: seq<nat>, id: nat)
    ensures Without(a + b, id) == Without(a, id) + Without(b, id)
  {
    if a == [] {
      assert a + b == b;
    } else {
      assert (a + b)[1..] == a[1..] + b;
      WithoutAppend(a[1..], b, id);
    }
  }

  lemma {:induction false} WithoutAbsent(s: seq<nat>, id: nat)
    requires forall i :: 0 <= i < |s| ==> s[i] != id
    ensures Without(s, id) == s
  {
    if s != [] {
      WithoutAbsent(s[1..], id);
    }
  }

  /** Kept numbers are increasing, below `n` and not dropped. */
  lemma {:induction false} KeptFacts(n: nat, dropped: seq<nat>)
    ensures forall i :: 0 <= i < |Kept(n, dropped)| ==> Kept(n, dropped)[i] < n && Kept(n, dropped)[i] !in dropped
    ensures forall i, j :: 0 <= i < j < |Kept(n, dropped)| ==> Kept(n, dropped)[i] < Kept(n, dropped)[j]
  {
    if n > 0 {
      KeptFacts(n - 1, dropped);
    }
  }

  lemma {:induction false} KeptWithout(n: nat, dropped: seq<nat>, id: nat)
    ensures Kept(n, dropped + [id]) == Without(Kept(n, dropped), id)
  {
    if n > 0 {
      KeptWithout(n - 1, dropped, id);
      assert n - 1 in dropped + [id] <==> n - 1 in dropped || n - 1 == id;
      if n - 1 !in dropped {
        WithoutAppend(Kept(n - 1, dropped), [n - 1], id);
        assert [n - 1][1..] == [];
      }
    }
  }

  // ---- one operation ----

  lemma {:induction false} StartKeeps(s: State)
    requires Inv(s)
    ensures Inv(StartIfPending(s))
    ensures s.current.None? ==> Quiescent(StartIfPending(s))
  {
    if s.current.None? && s.pending != [] {
      var id, rest := s.pending[0].id, Ids(s.pending[1..]);
      assert (s.h.started + [id]) + rest == s.h.started + ([id] + rest);
    }
  }

  lemma {:induction false} EnqueueKeeps(s: State, url: string)
    requires Inv(s)
    ensures Inv(s.(pending := s.pending + [Request(|s.h.asked|, url)], h := s.h.(asked := s.h.asked + [url])))
  {
    var r := Request(|s.h.asked|, url);
    IdsAppend(s.pending, [r]);
    assert Ids([r]) == [r.id] by { assert [r][1..] == []; }
    var dropped := SignalIds(s.h.dropped);
    assert r.id !in dropped;
    assert s.h.started + (Ids(s.pending) + [r.id]) == (s.h.started + Ids(s.pending)) + [r.id];
  }

  lemma {:induction false} ScheduleKeeps(s: State, url: string)
    requires Inv(s)
    ensures Inv(Schedule(s, url))
    ensures Quiescent(s) ==> Quiescent(Schedule(s, url))
    ensures s.current.Some? ==> Schedule(s, url).current == s.current
  {
    EnqueueKeeps(s, url);
    StartKeeps(s.(pending := s.pending + [Request(|s.h.asked|, url)], h := s.h.(asked := s.h.asked + [url])));
  }

  lemma {:induction false} WithoutMiddle(pre: seq<nat>, id: nat, post: seq<nat>)
    requires forall i :: 0 <= i < |pre| ==> pre[i] != id
    requires forall i :: 0 <= i < |post| ==> post[i] != id
    ensures Without(pre + ([id] + post), id) == pre + post
  {
    WithoutAppend(pre, [id] + post, id);
    WithoutAppend([id], post, id);
    assert [id][1..] == [];
    WithoutAbsent(pre, id);
    WithoutAbsent(post, id);
  }

  /** One kept number is dropped. */
  lemma {:induction false} KeptRemove(n: nat, dropped: seq<nat>, pre: seq<nat>, id: nat, post: seq<nat>)
    requires Kept(n, dropped) == pre + ([id] + post)
    ensures Kept(n, dropped + [id]) == pre + post
    ensures id < n && id !in dropped
  {
    var kept := Kept(n, dropped);
    KeptFacts(n, dropped);
    assert kept[|pre|] == id;
    forall i | 0 <= i < |pre| ensures pre[i] != id { assert pre[i] == kept[i]; }
    forall i | 0 <= i < |post| ensures post[i] != id { assert post[i] == kept[|pre| + 1 + i]; }
    KeptWithout(n, dropped, id);
    WithoutMiddle(pre, id, post);
  }

  lemma {:induction false} DroppedAppend(n: nat, dropped: seq<nat>, id: nat)
    requires Dropped(n, dropped) && id < n && id !in dropped
    requires |Kept(n, dropped + [id])| == |Kept(n, dropped)| - 1
    ensures Dropped(n, dropped + [id])
  {
  }

  /** Erasing a URL's requests from the rest of the queue; `pre` is what precedes it. */
  lemma {:induction false} EraseKeeps(n: nat, dropped: seq<nat>, pre: seq<nat>, rs: seq<Request>, url: string)
    requires Kept(n, dropped) == pre + Ids(rs) && Dropped(n, dropped)
    ensures Kept(n, dropped + SignalIds(Removals(rs, url))) == pre + Ids(Erase(rs, url))
    ensures Dropped(n, dropped + SignalIds(Removals(rs, url)))
    decreases |rs|
  {
    if rs == [] {
      assert dropped + [] == dropped;
    } else {
      var id, rest := rs[0].id, rs[1..];
      if rs[0].url == url {
        KeptRemove(n, dropped, pre, id, Ids(rest));
        DroppedAppend(n, dropped, id);
        EraseKeeps(n, dropped + [id], pre, rest, url);
        assert Removals(rs, url)[1..] == Removals(rest, url);
        Assoc(dropped, [id], SignalIds(Removals(rest, url)));
      } else {
        Assoc(pre, [id], Ids(rest));
        EraseKeeps(n, dropped, pre + [id], rest, url);
        assert Erase(rs, url)[1..] == Erase(rest, url);
        Assoc(pre, [id], Ids(Erase(rest, url)));
      }
    }
  }

  lemma {:induction false} DropKeeps(s: State, url: string)
    requires Inv(s)
    ensures Inv(Drop(s, url)) && Drop(s, url).current == s.current
    ensures Quiescent(s) ==> Quiescent(Drop(s, url))
  {
    EraseKeeps(|s.h.asked|, SignalIds(s.h.dropped), s.h.started, s.pending, url);
    SignalIdsAppend(s.h.dropped, Removals(s.pending, url));
  }

  lemma {:induction false} EmitKeeps(s: State, kind: Kind)
    requires Inv(s) && s.current.Some? && s.current.value.running
    ensures Inv(Emit(s, kind))
  {
    var sig := Signal(s.current.value.request.id, s.current.value.request.url, kind);
    SignalIdsAppend(s.h.finished, [sig]);
    assert SignalIds([sig]) == [sig.id] by { assert [sig][1..] == []; }
  }

  /** Handlers leave the finished reply in its slot. */
  lemma {:induction false} ReactKeeps(s: State, cs: seq<Command>)
    requires Inv(s) && s.current.Some? && !s.current.value.running
    ensures Inv(ReactAll(s, cs)) && ReactAll(s, cs).current == s.current
    decreases |cs|
  {
    if cs != [] {
      match cs[0] {
        case Download(url) => ScheduleKeeps(s, url);
        case Abort(url) => DropKeeps(s, url);
      }
      ReactKeeps(React(s, cs[0]), cs[1..]);
    }
  }

  lemma {:induction false} FinishKeeps(s: State, kind: Kind, cs: seq<Command>)
    requires Inv(s) && Quiescent(s) && s.current.Some?
    ensures Inv(Finish(s, kind, cs)) && Quiescent(Finish(s, kind, cs))
  {
    EmitKeeps(s, kind);
    ReactKeeps(Emit(s, kind), cs);
    StartKeeps(ReactAll(Emit(s, kind), cs).(current := None));
  }

  // ---- runs ----

  /** What can happen between two quiescent states. */
  datatype Event =
    | Asked(url: string)
    | Cancelled(url: string, handlers: seq<Command>)
    | Replied(kind: Kind, handlers: seq<Command>)

  function Next(s: State, e: Event): State {
    match e
    case Asked(url) => Schedule(s, url)
    case Cancelled(url, cs) => Aborting(s, url, cs)
    case Replied(kind, cs) => if s.current.Some? then Finish(s, kind, cs) else s
  }

  function Play(s: State, es: seq<Event>): State
    decreases |es|
  {
    if es == [] then s else Play(Next(s, es[0]), es[1..])
  }

  lemma {:induction false} NextKeeps(s: State, e: Event)
    requires Inv(s) && Quiescent(s)
    ensures Inv(Next(s, e)) && Quiescent(Next(s, e))
  {
    match e
    case Asked(url) =>
      ScheduleKeeps(s, url);
    case Cancelled(url, cs) =>
      if InFlight(s, url) {
        FinishKeeps(s, Failed(Aborted), cs);
        DropKeeps(Finish(s, Failed(Aborted), cs), url);
      } else {
        DropKeeps(s, url);
      }
    case Replied(kind, cs) =>
      if s.current.Some? {
        FinishKeeps(s, kind, cs);
      }
  }

  lemma {:induction false} PlayKeeps(s: State, es: seq<Event>)
    requires Inv(s) && Quiescent(s)
    ensures Inv(Play(s, es)) && Quiescent(Play(s, es))
    decreases |es|
  {
    if es != [] {
      NextKeeps(s, es[0]);
      PlayKeeps(Next(s, es[0]), es[1..]);
    }
  }

  /** After any run: every scheduled request has been signalled, is in flight or
      waits, and exactly one of these; starts follow the schedule but for the
      requests dropped from the queue, finishes follow the starts; and while
      requests wait the slot is busy. */
  lemma {:induction false} Conservation(es: seq<Event>)
    ensures var s := Play(INIT, es);
      var dropped := SignalIds(s.h.dropped);
      && |s.h.asked| == |s.h.finished| + |s.h.dropped| + |s.pending| + (if s.current.Some? then 1 else 0)
      && s.h.started + Ids(s.pending) == Kept(|s.h.asked|, dropped)
      && s.h.started == SignalIds(s.h.finished) + (if s.current.Some? then [s.current.value.request.id] else [])
      && Distinct(SignalIds(s.h.finished) + dropped)
      && (s.pending != [] ==> s.current.Some?)
  {
    PlayKeeps(INIT, es);
    var s := Play(INIT, es);
    var n, done, dropped := |s.h.asked|, SignalIds(s.h.finished), SignalIds(s.h.dropped);
    Lengths(s.pending, s.h.finished);
    Lengths(s.pending, s.h.dropped);
    PrefixNoDup(n, dropped, done, Kept(n, dropped)[|done|..]);
  }

  lemma {:induction false} PrefixNoDup(n: nat, dropped: seq<nat>, done: seq<nat>, rest: seq<nat>)
    requires Kept(n, dropped) == done + rest && Distinct(dropped)
    ensures Distinct(done + dropped)
  {
    KeptFacts(n, dropped);
    forall i | 0 <= i < |done| ensures done[i] == Kept(n, dropped)[i] {}
  }

  lemma {:induction false} Lengths(rs: seq<Request>, ss: seq<Signal>)
    ensures |Ids(rs)| == |rs| && |SignalIds(ss)| == |ss|
  {
    if rs != [] {
      Lengths(rs[1..], ss);
    } else if ss != [] {
      Lengths(rs, ss[1..]);
    }
  }

  // ---- abort ----

  /** The URL has a request in flight or in the queue. */
  predicate Outstanding(s: State, url: string) {
    (s.current.Some? && s.current.value.request.url == url) || Waiting(s, url)
  }

  /** What waits when the request in flight was cut off and its handlers are done. */
  function WaitingAfter(s: State, cs: seq<Command>): seq<Request>
    requires s.current.Some?
  {
    ReactAll(Emit(s, Failed(Aborted)), cs).pending
  }

  /** What an abort leaves of its URL: exactly one request, started by the abort
      itself, when the request in flight was for it and the next one in the queue,
      after all its handlers have asked for, is for it as well; otherwise none. */
  lemma {:induction false} AbortLeaves(s: State, url: string, cs: seq<Command>)
    requires Inv(s) && Quiescent(s)
    ensures Outstanding(Aborting(s, url, cs), url)
       <==> InFlight(s, url) && WaitingAfter(s, cs) != [] && WaitingAfter(s, cs)[0].url == url
    ensures !Waiting(Aborting(s, url, cs), url)
  {
    if InFlight(s, url) {
      RemovalsOf(Finish(s, Failed(Aborted), cs).pending, url);
    } else {
      RemovalsOf(s.pending, url);
    }
  }

  /** Without handlers the next one in the queue decides. */
  lemma {:induction false} AbortLeavesAlone(s: State, url: string)
    requires Inv(s) && Quiescent(s)
    ensures Outstanding(Aborting(s, url, []), url)
       <==> InFlight(s, url) && s.pending != [] && s.pending[0].url == url
  {
    AbortLeaves(s, url, []);
  }
}
