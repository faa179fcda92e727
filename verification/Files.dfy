/**
 The updatable files on top of the downloader: each file has at most one update
 running, and hears of its end through the downloader's signals.
 */
module Files {
  import opened Wrappers
  import opened Downloader
  import opened DownloaderRuns

  /** `cached`: there is a cache folder, which also holds the dirty marker. */
  datatype File = File(named: bool, cached: bool, url: string, running: bool, connected: bool, dirty: bool)

  datatype System = System(d: State, files: seq<File>)

  /** What a receiver of `fireUpdated` or `fireNoUpdateAvailable` may do. */
  datatype Reaction = Update(f: nat) | MarkDirty(f: nat)

  function Started(file: File): File {
    if !file.running && file.named then file.(running := true, connected := true) else file
  }

  function Marked(file: File): File {
    if file.named && file.cached then file.(dirty := true) else file
  }

  /** The end of an update; `clear` when the file is now known to be up to date. */
  function CleanedUp(file: File, clear: bool): File {
    file.(connected := false, dirty := file.dirty && !(clear && file.cached), running := false)
  }

  function UpdateFile(j: System, f: nat): System {
    if f < |j.files| && !j.files[f].running && j.files[f].named
    then System(Schedule(j.d, j.files[f].url), j.files[f := Started(j.files[f])])
    else j
  }

  function DoReaction(j: System, r: Reaction): System {
    match r
    case Update(f) => UpdateFile(j, f)
    case MarkDirty(f) => if f < |j.files| then j.(files := j.files[f := Marked(j.files[f])]) else j
  }

  function DoAll(j: System, rs: seq<Reaction>): System
    decreases |rs|
  {
    if rs == [] then j else DoAll(DoReaction(j, rs[0]), rs[1..])
  }

  /** What a file does with a terminal signal for its own URL; `written` tells
      whether downloaded data could be stored. */
  function OnSignal(j: System, f: nat, kind: Kind, written: bool, rs: seq<Reaction>): System
    requires f < |j.files|
  {
    var j1 := if (kind.Success? && written) || kind.Unnecessary? then DoAll(j, rs) else j;
    if f < |j1.files| then j1.(files := j1.files[f := CleanedUp(j1.files[f], !kind.Failed?)]) else j1
  }

  /** The signal reaches the files from the `k`-th on that were connected when it
      was emitted and still are. */
  function Dispatch(j: System, start: seq<File>, k: nat, url: string, kind: Kind, written: bool,
                    rs: seq<Reaction>): System
    decreases |start| - k
  {
    if k >= |start| then j
    else
      var j1 := if k < |j.files| && start[k].connected && j.files[k].connected && j.files[k].url == url
                then OnSignal(j, k, kind, written, rs) else j;
      Dispatch(j1, start, k + 1, url, kind, written, rs)
  }

  /** The reply in flight finishes. */
  function Finished(j: System, kind: Kind, written: bool, rs: seq<Reaction>): System
    requires j.d.current.Some?
  {
    var d := Emit(j.d, kind);
    var signal := d.h.finished[|d.h.finished| - 1];
    var j1 := Dispatch(j.(d := d), j.files, 0, signal.url, signal.kind, written, rs);
    j1.(d := StartIfPending(j1.d.(current := None)))
  }

  /** The signals of the requests erased from the queue. */
  function TellDropped(j: System, signals: seq<Signal>): System
    decreases |signals|
  {
    if signals == [] then j
    else TellDropped(Dispatch(j, j.files, 0, signals[0].url, signals[0].kind, false, []), signals[1..])
  }

  function AbortUrl(j: System, url: string): System {
    var j1 := if InFlight(j.d, url) then Finished(j, Failed(Aborted), false, []) else j;
    TellDropped(j1.(d := Drop(j1.d, url)), Removals(j1.d.pending, url))
  }

  datatype Happening =
    | Updating(f: nat)
    | Marking(f: nat)
    | Finishing(kind: Kind, written: bool, rs: seq<Reaction>)
    | Aborting(url: string)

  function Happen(j: System, e: Happening): System {
    match e
    case Updating(f) => UpdateFile(j, f)
    case Marking(f) => DoReaction(j, MarkDirty(f))
    case Finishing(kind, written, rs) => if j.d.current.Some? then Finished(j, kind, written, rs) else j
    case Aborting(url) => AbortUrl(j, url)
  }

  function Evolve(j: System, es: seq<Happening>): System
    decreases |es|
  {
    if es == [] then j else Evolve(Happen(j, es[0]), es[1..])
  }

  // ---- the joint invariant ----

  /** URLs of the requests not signalled yet. */
  function Queued(rs: seq<Request>): multiset<string> {
    if rs == [] then multiset{} else multiset{rs[0].url} + Queued(rs[1..])
  }

  function Unanswered(d: State): multiset<string> {
    match d.current
    case None => Queued(d.pending)
    case Some(r) => One(r.running, r.request.url) + Queued(d.pending)
  }

  function One(b: bool, u: string): multiset<string> {
    if b then multiset{u} else multiset{}
  }

  /** URLs of the files whose update runs. */
  function RunningUrls(files: seq<File>): multiset<string> {
    if files == [] then multiset{}
    else RunningUrls(files[..|files| - 1]) + One(files[|files| - 1].running, files[|files| - 1].url)
  }

  /** No two files that can be updated have the same URL. */
  predicate DistinctUrls(files: seq<File>) {
    forall i, k :: 0 <= i < k < |files| && files[i].named && files[k].named ==> files[i].url != files[k].url
  }

  predicate SameUrls(a: seq<File>, b: seq<File>) {
    |a| == |b| &&
    forall i :: 0 <= i < |a| ==> a[i].url == b[i].url && a[i].named == b[i].named && a[i].cached == b[i].cached
  }

  /** Connected files are the ones whose update runs, and these have names. */
  predicate ConnectedRuns(files: seq<File>) {
    forall i :: 0 <= i < |files| ==> (files[i].connected <==> files[i].running) && (files[i].running ==> files[i].named)
  }

  /** Exactly the running files' URLs, plus `extra`, are unanswered. */
  predicate Balanced(j: System, extra: multiset<string>) {
    && Inv(j.d) && DistinctUrls(j.files) && ConnectedRuns(j.files)
    && RunningUrls(j.files) == Unanswered(j.d) + extra
  }

  lemma {:induction false} Exchange(a: multiset<string>, b: multiset<string>, c: multiset<string>,
                                    d: multiset<string>, l: multiset<string>)
    requires a + b == c + d
    ensures a + l + b == c + l + d
  {
    assert a + l + b == a + b + l;
    assert c + l + d == c + d + l;
  }

  lemma {:induction false} RunningLast(files: seq<File>, x: File)
    ensures RunningUrls(files + [x]) == RunningUrls(files) + One(x.running, x.url)
  {
    assert (files + [x])[..|files|] == files;
  }

  lemma {:induction false} RunningUpdate(files: seq<File>, f: nat, x: File)
    requires f < |files| && x.url == files[f].url
    ensures RunningUrls(files[f := x]) + One(files[f].running, x.url) == RunningUrls(files) + One(x.running, x.url)
  {
    var init, last := files[..|files| - 1], files[|files| - 1];
    assert files == init + [last];
    if f == |files| - 1 {
      assert files[f := x] == init + [x];
      LastUpdate(init, last, x);
    } else {
      assert files[f := x] == init[f := x] + [last];
      RunningUpdate(init, f, x);
      EarlierUpdate(init, init[f := x], last, One(files[f].running, x.url), One(x.running, x.url));
    }
  }

  lemma {:induction false} LastUpdate(init: seq<File>, last: File, x: File)
    ensures RunningUrls(init + [x]) + One(last.running, last.url) == RunningUrls(init + [last]) + One(x.running, x.url)
  {
    RunningLast(init, last);
    RunningLast(init, x);
    Commute(RunningUrls(init), One(x.running, x.url), One(last.running, last.url));
  }

  lemma {:induction false} EarlierUpdate(a: seq<File>, b: seq<File>, last: File, before: multiset<string>,
                                         after: multiset<string>)
    requires RunningUrls(b) + before == RunningUrls(a) + after
    ensures RunningUrls(b + [last]) + before == RunningUrls(a + [last]) + after
  {
    RunningLast(a, last);
    RunningLast(b, last);
    Exchange(RunningUrls(b), before, RunningUrls(a), after, One(last.running, last.url));
  }

  lemma {:induction false} Commute(a: multiset<string>, b: multiset<string>, c: multiset<string>)
    ensures a + b + c == a + c + b
  {
  }

  lemma {:induction false} RunningSame(files: seq<File>, f: nat, x: File)
    requires f < |files| && x.url == files[f].url && x.running == files[f].running
    ensures RunningUrls(files[f := x]) == RunningUrls(files)
  {
    RunningUpdate(files, f, x);
    var one := One(x.running, x.url);
    assert RunningUrls(files[f := x]) == RunningUrls(files[f := x]) + one - one;
    assert RunningUrls(files) == RunningUrls(files) + one - one;
  }

  lemma {:induction false} RunningStarts(files: seq<File>, f: nat, x: File)
    requires f < |files| && x.url == files[f].url && x.running && !files[f].running
    ensures RunningUrls(files[f := x]) == RunningUrls(files) + multiset{x.url}
  {
    RunningUpdate(files, f, x);
    assert RunningUrls(files[f := x]) + multiset{} == RunningUrls(files[f := x]);
  }

  lemma {:induction false} RunningStops(files: seq<File>, f: nat, x: File)
    requires f < |files| && x.url == files[f].url && !x.running && files[f].running
    ensures RunningUrls(files) == RunningUrls(files[f := x]) + multiset{x.url}
  {
    RunningUpdate(files, f, x);
    assert RunningUrls(files) + multiset{} == RunningUrls(files);
  }

  lemma {:induction false} DistinctUpdate(files: seq<File>, f: nat, x: File)
    requires DistinctUrls(files) && f < |files|
    requires x.url == files[f].url && x.named == files[f].named && x.cached == files[f].cached
    ensures DistinctUrls(files[f := x]) && SameUrls(files, files[f := x])
    ensures ConnectedRuns(files) && x.connected == x.running && (x.running ==> x.named) ==> ConnectedRuns(files[f := x])
  {
  }

  lemma {:induction false} RunningMember(files: seq<File>, f: nat)
    requires f < |files| && files[f].running
    ensures files[f].url in RunningUrls(files)
  {
    if f < |files| - 1 {
      assert files[..|files| - 1][f] == files[f];
      RunningMember(files[..|files| - 1], f);
    }
  }

  lemma {:induction false} RunningCount(files: seq<File>, u: string)
    requires DistinctUrls(files) && ConnectedRuns(files)
    ensures RunningUrls(files)[u] <= 1
    ensures u in RunningUrls(files) ==> exists f :: 0 <= f < |files| && files[f].url == u && files[f].running
  {
    if files != [] {
      var n, init := |files| - 1, files[..|files| - 1];
      RunningCount(init, u);
      if u in RunningUrls(init) {
        var f :| 0 <= f < |init| && init[f].url == u && init[f].running;
        assert files[f] == init[f];
      } else if u in RunningUrls(files) {
        assert files[n].url == u && files[n].running;
      }
    }
  }

  lemma {:induction false} QueuedAppend(a: seq<Request>, b: seq<Request>)
    ensures Queued(a + b) == Queued(a) + Queued(b)
  {
    if a == [] {
      assert a + b == b;
    } else {
      assert (a + b)[1..] == a[1..] + b;
      QueuedAppend(a[1..], b);
    }
  }

  lemma {:induction false} ScheduleAdds(d: State, url: string)
    ensures Unanswered(Schedule(d, url)) == Unanswered(d) + multiset{url}
  {
    var r := Request(|d.h.asked|, url);
    QueuedAppend(d.pending, [r]);
    assert Queued([r]) == multiset{url} by { assert [r][1..] == []; }
    StartMoves(d.(pending := d.pending + [r], h := d.h.(asked := d.h.asked + [url])));
  }

  lemma {:induction false} StartMoves(d: State)
    ensures Unanswered(StartIfPending(d)) == Unanswered(d)
  {
  }

  lemma {:induction false} UpdateBalances(j: System, f: nat, extra: multiset<string>)
    requires Balanced(j, extra)
    ensures Balanced(UpdateFile(j, f), extra) && SameUrls(j.files, UpdateFile(j, f).files)
    ensures Quiescent(j.d) ==> Quiescent(UpdateFile(j, f).d)
    ensures j.d.current.Some? ==> UpdateFile(j, f).d.current == j.d.current
    ensures forall i :: 0 <= i < |j.files| && j.files[i].running ==> UpdateFile(j, f).files[i] == j.files[i]
  {
    if f < |j.files| && !j.files[f].running && j.files[f].named {
      ScheduleKeeps(j.d, j.files[f].url);
      ScheduleAdds(j.d, j.files[f].url);
      RunningStarts(j.files, f, Started(j.files[f]));
      DistinctUpdate(j.files, f, Started(j.files[f]));
      assert Unanswered(j.d) + extra + multiset{j.files[f].url} == Unanswered(j.d) + multiset{j.files[f].url} + extra;
    }
  }

  lemma {:induction false} MarkBalances(j: System, f: nat, extra: multiset<string>)
    requires Balanced(j, extra)
    ensures var k := DoReaction(j, MarkDirty(f));
      && Balanced(k, extra) && SameUrls(j.files, k.files) && k.d == j.d
      && forall i :: 0 <= i < |j.files| && j.files[i].running ==> k.files[i].running && k.files[i].connected
  {
    if f < |j.files| {
      RunningSame(j.files, f, Marked(j.files[f]));
      DistinctUpdate(j.files, f, Marked(j.files[f]));
    }
  }

  /** Reactions keep the balance, the reply in the slot and every running update. */
  lemma {:induction false} ReactionsBalance(j: System, rs: seq<Reaction>, extra: multiset<string>)
    requires Balanced(j, extra) && j.d.current.Some?
    ensures var k := DoAll(j, rs);
      && Balanced(k, extra) && SameUrls(j.files, k.files) && k.d.current == j.d.current
      && forall i :: 0 <= i < |j.files| && j.files[i].running ==> k.files[i].running && k.files[i].connected
    decreases |rs|
  {
    if rs != [] {
      match rs[0] {
        case Update(f) => UpdateBalances(j, f, extra);
        case MarkDirty(f) => MarkBalances(j, f, extra);
      }
      ReactionsBalance(DoReaction(j, rs[0]), rs[1..], extra);
    }
  }

  lemma {:induction false} EndBalances(j: System, f: nat, x: File)
    requires f < |j.files| && j.files[f].running && Balanced(j, multiset{j.files[f].url})
    requires x.url == j.files[f].url && x.named == j.files[f].named && x.cached == j.files[f].cached
    requires !x.running && !x.connected
    ensures Balanced(j.(files := j.files[f := x]), multiset{})
    ensures SameUrls(j.files, j.files[f := x])
  {
    RunningStops(j.files, f, x);
    DistinctUpdate(j.files, f, x);
    var one := multiset{x.url};
    assert RunningUrls(j.files[f := x]) == RunningUrls(j.files[f := x]) + one - one == Unanswered(j.d) + one - one;
    assert Unanswered(j.d) + one - one == Unanswered(j.d) == Unanswered(j.d) + multiset{};
  }

  /** The file the signal is for: its update ends. */
  lemma {:induction false} SignalBalances(j: System, f: nat, kind: Kind, written: bool, rs: seq<Reaction>)
    requires f < |j.files| && j.files[f].running && (j.d.current.Some? || kind.Failed?)
    requires Balanced(j, multiset{j.files[f].url})
    ensures var k := OnSignal(j, f, kind, written, rs);
      && Balanced(k, multiset{}) && SameUrls(j.files, k.files) && k.d.current == j.d.current
      && !k.files[f].running && (!kind.Failed? && k.files[f].cached ==> !k.files[f].dirty)
      && (kind.Failed? ==> k.d == j.d)
  {
    var extra := multiset{j.files[f].url};
    if !kind.Failed? {
      ReactionsBalance(j, rs, extra);
    }
    var j1 := if (kind.Success? && written) || kind.Unnecessary? then DoAll(j, rs) else j;
    EndBalances(j1, f, CleanedUp(j1.files[f], !kind.Failed?));
  }

  /** With different URLs the signal reaches one file only. */
  lemma {:induction false} DispatchNobody(j: System, start: seq<File>, k: nat, url: string, kind: Kind,
                                          written: bool, rs: seq<Reaction>)
    requires |start| == |j.files|
    requires forall i :: k <= i < |j.files| ==> !start[i].connected || j.files[i].url != url
    ensures Dispatch(j, start, k, url, kind, written, rs) == j
    decreases |start| - k
  {
    if k < |start| {
      DispatchNobody(j, start, k + 1, url, kind, written, rs);
    }
  }

  lemma {:induction false} DispatchBalances(j: System, start: seq<File>, k: nat, f: nat, kind: Kind, written: bool,
                                            rs: seq<Reaction>)
    requires |start| == |j.files| && k <= f < |j.files| && start[f].connected
    requires forall i :: 0 <= i < |start| && start[i].connected ==> j.files[i].named
    requires j.files[f].running && (j.d.current.Some? || kind.Failed?)
    requires Balanced(j, multiset{j.files[f].url})
    ensures Dispatch(j, start, k, j.files[f].url, kind, written, rs) == OnSignal(j, f, kind, written, rs)
    decreases f - k
  {
    if k < f {
      DispatchSkips(j, start, k, j.files[f].url, kind, written, rs);
      DispatchBalances(j, start, k + 1, f, kind, written, rs);
    } else {
      DispatchOwner(j, start, f, kind, written, rs);
    }
  }

  lemma {:induction false} DispatchOwner(j: System, start: seq<File>, f: nat, kind: Kind, written: bool,
                                         rs: seq<Reaction>)
    requires |start| == |j.files| && f < |j.files| && start[f].connected
    requires forall i :: 0 <= i < |start| && start[i].connected ==> j.files[i].named
    requires j.files[f].running && (j.d.current.Some? || kind.Failed?)
    requires Balanced(j, multiset{j.files[f].url})
    ensures Dispatch(j, start, f, j.files[f].url, kind, written, rs) == OnSignal(j, f, kind, written, rs)
  {
    SignalBalances(j, f, kind, written, rs);
    RestHearsNothing(j, start, f, kind, written, rs);
  }

  lemma {:induction false} DispatchSkips(j: System, start: seq<File>, k: nat, url: string, kind: Kind,
                                         written: bool, rs: seq<Reaction>)
    requires k < |start| == |j.files|
    requires !(start[k].connected && j.files[k].url == url)
    ensures Dispatch(j, start, k, url, kind, written, rs) == Dispatch(j, start, k + 1, url, kind, written, rs)
  {
  }

  lemma {:induction false} RestHearsNothing(j: System, start: seq<File>, f: nat, kind: Kind, written: bool,
                                            rs: seq<Reaction>)
    requires |start| == |j.files| && f < |j.files| && DistinctUrls(j.files) && j.files[f].named
    requires forall i :: 0 <= i < |start| && start[i].connected ==> j.files[i].named
    requires SameUrls(j.files, OnSignal(j, f, kind, written, rs).files)
    ensures var j1 := OnSignal(j, f, kind, written, rs);
      Dispatch(j1, start, f + 1, j.files[f].url, kind, written, rs) == j1
  {
    var j1 := OnSignal(j, f, kind, written, rs);
    forall i | f < i < |j1.files| ensures !start[i].connected || j1.files[i].url != j.files[f].url {
      assert j1.files[i].url == j.files[i].url;
    }
    DispatchNobody(j1, start, f + 1, j.files[f].url, kind, written, rs);
  }

  /** The file whose update a URL is unanswered for. */
  lemma {:induction false} Owner(j: System, url: string) returns (f: nat)
    requires Balanced(j, multiset{}) && url in Unanswered(j.d)
    ensures f < |j.files| && j.files[f].url == url && j.files[f].running
  {
    assert url in RunningUrls(j.files);
    RunningCount(j.files, url);
    f :| 0 <= f < |j.files| && j.files[f].url == url && j.files[f].running;
  }

  lemma {:induction false} OwnerRuns(j: System, f: nat)
    requires Balanced(j, multiset{}) && f < |j.files| && j.files[f].named && j.files[f].url in Unanswered(j.d)
    ensures j.files[f].running
  {
    var i := Owner(j, j.files[f].url);
  }

  lemma {:induction false} StoppedUrl(j: System, f: nat)
    requires Balanced(j, multiset{}) && f < |j.files| && j.files[f].named && !j.files[f].running
    ensures Unanswered(j.d)[j.files[f].url] == 0
  {
    if j.files[f].url in Unanswered(j.d) {
      OwnerRuns(j, f);
    }
  }

  lemma {:induction false} EmitMoves(d: State, kind: Kind)
    requires d.current.Some? && d.current.value.running
    ensures Unanswered(d) == Unanswered(Emit(d, kind)) + multiset{d.current.value.request.url}
  {
  }

  /** The emission reaches the owner of the finished reply and nobody else. */
  lemma {:induction false} EmissionBalances(j: System, f: nat, kind: Kind, written: bool, rs: seq<Reaction>)
    requires Balanced(j, multiset{}) && Quiescent(j.d) && j.d.current.Some?
    requires f < |j.files| && j.files[f].running && j.files[f].url == j.d.current.value.request.url
    ensures var j0 := j.(d := Emit(j.d, kind));
      var k := Dispatch(j0, j.files, 0, j.files[f].url, kind, written, rs);
      && k == OnSignal(j0, f, kind, written, rs)
      && Balanced(k, multiset{}) && SameUrls(j.files, k.files) && k.d.current == j0.d.current
      && !k.files[f].running && (!kind.Failed? && k.files[f].cached ==> !k.files[f].dirty)
  {
    EmitKeeps(j.d, kind);
    EmitMoves(j.d, kind);
    var j0 := j.(d := Emit(j.d, kind));
    assert Balanced(j0, multiset{j0.files[f].url});
    DispatchBalances(j0, j.files, 0, f, kind, written, rs);
    SignalBalances(j0, f, kind, written, rs);
  }

  lemma {:induction false} FinishBalances(j: System, kind: Kind, written: bool, rs: seq<Reaction>)
    requires Balanced(j, multiset{}) && Quiescent(j.d) && j.d.current.Some?
    ensures var k := Finished(j, kind, written, rs);
      && Balanced(k, multiset{}) && Quiescent(k.d) && SameUrls(j.files, k.files)
      && Unanswered(k.d)[j.d.current.value.request.url] == 0
  {
    var url := j.d.current.value.request.url;
    var f := Owner(j, url);
    EmissionBalances(j, f, kind, written, rs);
    var j1 := Dispatch(j.(d := Emit(j.d, kind)), j.files, 0, url, kind, written, rs);
    var d1 := j1.d.(current := None);
    StartKeeps(d1);
    StartMoves(d1);
    StoppedUrl(j1, f);
  }

  lemma {:induction false} QueuedErase(rs: seq<Request>, url: string)
    ensures Queued(Erase(rs, url)) == Queued(rs)[url := 0]
  {
    if rs != [] {
      QueuedErase(rs[1..], url);
      if rs[0].url != url {
        assert Erase(rs, url)[1..] == Erase(rs[1..], url);
      }
    }
  }

  lemma {:induction false} QueuedRemovals(rs: seq<Request>, url: string)
    ensures |Removals(rs, url)| == Queued(rs)[url]
  {
    if rs != [] {
      QueuedRemovals(rs[1..], url);
    }
  }

  lemma {:induction false} RemovalsCount(rs: seq<Request>, url: string)
    ensures |Removals(rs, url)| == Queued(rs)[url]
    ensures Queued(Erase(rs, url)) == Queued(rs)[url := 0]
  {
    QueuedRemovals(rs, url);
    QueuedErase(rs, url);
  }

  lemma {:induction false} ZeroOut(m: multiset<string>, u: string)
    requires m[u] <= 1
    ensures m == m[u := 0] + One(m[u] == 1, u)
  {
  }

  lemma {:induction false} DropMoves(d: State, url: string)
    requires Quiescent(d) && !InFlight(d, url)
    ensures |Removals(d.pending, url)| == Unanswered(d)[url]
    ensures Unanswered(d)[url] <= 1 ==> Unanswered(d) == Unanswered(Drop(d, url)) + One(Unanswered(d)[url] == 1, url)
  {
    RemovalsCount(d.pending, url);
    if Unanswered(d)[url] <= 1 {
      var q := Queued(d.pending);
      ZeroOut(q, url);
      if d.current.Some? {
        var one := One(d.current.value.running, d.current.value.request.url);
        assert one + (q[url := 0] + One(q[url] == 1, url)) == one + q[url := 0] + One(q[url] == 1, url);
      }
    }
  }

  lemma {:induction false} DropBalances(j: System, url: string)
    requires Balanced(j, multiset{}) && Quiescent(j.d) && !InFlight(j.d, url)
    ensures var k := TellDropped(j.(d := Drop(j.d, url)), Removals(j.d.pending, url));
      && Balanced(k, multiset{}) && Quiescent(k.d) && SameUrls(j.files, k.files)
  {
    DropKeeps(j.d, url);
    DropMoves(j.d, url);
    RunningCount(j.files, url);
    var j1 := j.(d := Drop(j.d, url));
    if url in Unanswered(j.d) {
      var f := Owner(j, url);
      assert Balanced(j1, multiset{j1.files[f].url});
      DispatchBalances(j1, j1.files, 0, f, Failed(Aborted), false, []);
      SignalBalances(j1, f, Failed(Aborted), false, []);
      TellOnce(j1, j.d.pending, url);
    } else {
      assert Balanced(j1, multiset{});
    }
  }

  lemma {:induction false} RemovalSignals(rs: seq<Request>, url: string)
    ensures forall i :: 0 <= i < |Removals(rs, url)| ==>
      Removals(rs, url)[i].url == url && Removals(rs, url)[i].kind == Failed(Aborted)
  {
    if rs != [] {
      RemovalSignals(rs[1..], url);
    }
  }

  lemma {:induction false} TellOnce(j: System, rs: seq<Request>, url: string)
    requires |Removals(rs, url)| == 1
    ensures TellDropped(j, Removals(rs, url)) == Dispatch(j, j.files, 0, url, Failed(Aborted), false, [])
  {
    RemovalSignals(rs, url);
    assert Removals(rs, url)[1..] == [];
  }

  lemma {:induction false} AbortBalances(j: System, url: string)
    requires Balanced(j, multiset{}) && Quiescent(j.d)
    ensures var k := AbortUrl(j, url);
      Balanced(k, multiset{}) && Quiescent(k.d) && SameUrls(j.files, k.files)
  {
    if InFlight(j.d, url) {
      FinishBalances(j, Failed(Aborted), false, []);
      DropBalances(Finished(j, Failed(Aborted), false, []), url);
    } else {
      DropBalances(j, url);
    }
  }

  lemma {:induction false} HappenBalances(j: System, e: Happening)
    requires Balanced(j, multiset{}) && Quiescent(j.d)
    ensures Balanced(Happen(j, e), multiset{}) && Quiescent(Happen(j, e).d) && SameUrls(j.files, Happen(j, e).files)
  {
    match e
    case Updating(f) => UpdateBalances(j, f, multiset{});
    case Marking(f) => MarkBalances(j, f, multiset{});
    case Finishing(kind, written, rs) =>
      if j.d.current.Some? {
        FinishBalances(j, kind, written, rs);
      }
    case Aborting(url) => AbortBalances(j, url);
  }

  lemma {:induction false} EvolveBalances(j: System, es: seq<Happening>)
    requires Balanced(j, multiset{}) && Quiescent(j.d)
    ensures Balanced(Evolve(j, es), multiset{}) && Quiescent(Evolve(j, es).d)
    decreases |es|
  {
    if es != [] {
      HappenBalances(j, es[0]);
      EvolveBalances(Happen(j, es[0]), es[1..]);
    }
  }

  predicate Idle(files: seq<File>) {
    forall i :: 0 <= i < |files| ==> !files[i].running && !files[i].connected
  }

  lemma {:induction false} IdleRuns(files: seq<File>)
    requires Idle(files)
    ensures RunningUrls(files) == multiset{}
  {
    if files != [] {
      IdleRuns(files[..|files| - 1]);
    }
  }

  /** What is unanswered is what is being updated: a file's update runs exactly
      while its URL is unanswered, which it then is exactly once, nothing else is
      unanswered, and when the downloader has nothing in flight no update runs. */
  predicate Matched(j: System) {
    && (forall f :: 0 <= f < |j.files| ==>
          if j.files[f].named then Unanswered(j.d)[j.files[f].url] == (if j.files[f].running then 1 else 0)
          else !j.files[f].running)
    && (forall u :: u in Unanswered(j.d) ==>
      exists f :: 0 <= f < |j.files| && j.files[f].url == u && j.files[f].running)
    && (j.d.current.None? ==> j.d.pending == [] && Idle(j.files))
  }

  lemma {:induction false} BalancedOne(j: System, f: nat)
    requires Balanced(j, multiset{}) && f < |j.files| && j.files[f].named
    ensures Unanswered(j.d)[j.files[f].url] == if j.files[f].running then 1 else 0
  {
    if j.files[f].running {
      RunningMember(j.files, f);
      RunningCount(j.files, j.files[f].url);
    } else {
      StoppedUrl(j, f);
    }
  }

  lemma {:induction false} BalancedMatches(j: System)
    requires Balanced(j, multiset{}) && Quiescent(j.d)
    ensures Matched(j)
  {
    forall f | 0 <= f < |j.files| && j.files[f].named
      ensures Unanswered(j.d)[j.files[f].url] == if j.files[f].running then 1 else 0
    {
      BalancedOne(j, f);
    }
    forall u | u in Unanswered(j.d)
      ensures exists f :: 0 <= f < |j.files| && j.files[f].url == u && j.files[f].running
    {
      var f := Owner(j, u);
    }
    if j.d.current.None? {
      NothingRuns(j);
    }
  }

  lemma {:induction false} NothingRuns(j: System)
    requires Balanced(j, multiset{}) && Unanswered(j.d) == multiset{}
    ensures Idle(j.files)
  {
    forall f | 0 <= f < |j.files| ensures !j.files[f].running {
      if j.files[f].running {
        RunningMember(j.files, f);
      }
    }
  }

  /** After any run in which only the files' updates download, their URLs being
      different, the match holds. */
  lemma {:induction false} UpdatesMatchDownloads(files: seq<File>, es: seq<Happening>)
    requires DistinctUrls(files) && Idle(files)
    ensures Matched(Evolve(System(INIT, files), es))
  {
    IdleRuns(files);
    EvolveBalances(System(INIT, files), es);
    BalancedMatches(Evolve(System(INIT, files), es));
  }

  /** The dirty marker goes when the server has answered and stays when not. */
  lemma {:induction false} DirtyAfter(j: System, kind: Kind, written: bool, rs: seq<Reaction>, f: nat)
    requires Balanced(j, multiset{}) && Quiescent(j.d) && j.d.current.Some?
    requires f < |j.files| && j.files[f].named && j.files[f].url == j.d.current.value.request.url
    ensures var k := Finished(j, kind, written, rs);
      && |k.files| == |j.files| && !k.files[f].running
      && (!kind.Failed? && k.files[f].cached ==> !k.files[f].dirty)
      && (kind.Failed? ==> forall i :: 0 <= i < |j.files| ==> k.files[i].dirty == j.files[i].dirty)
  {
    OwnerRuns(j, f);
    EmissionBalances(j, f, kind, written, rs);
  }

  // ---- shared URLs ----

  predicate Hears(j: System, start: seq<File>, i: nat, url: string)
    requires i < |start| == |j.files|
  {
    start[i].connected && j.files[i].connected && j.files[i].url == url
  }

  /** An answer "not modified" without reactions ends the update of every file that
      is connected and has the URL, and changes nothing else. */
  lemma {:induction false} DispatchEnds(j: System, start: seq<File>, k: nat, url: string)
    requires |start| == |j.files| && k <= |start|
    ensures var r := Dispatch(j, start, k, url, Unnecessary, false, []);
      && r.d == j.d && |r.files| == |j.files|
      && (forall i :: 0 <= i < k ==> r.files[i] == j.files[i])
      && (forall i :: k <= i < |j.files| ==>
            r.files[i] == if Hears(j, start, i, url) then CleanedUp(j.files[i], true) else j.files[i])
    decreases |start| - k
  {
    if k < |start| {
      var j1 := if Hears(j, start, k, url) then OnSignal(j, k, Unnecessary, false, []) else j;
      assert DoAll(j, []) == j;
      DispatchEnds(j1, start, k + 1, url);
    }
  }

  /** Two updates of one URL: one request in flight, one in the queue. */
  lemma {:induction false} TwoUpdates(files: seq<File>, a: nat, b: nat)
    requires Idle(files) && a < b < |files| && files[a].named && files[b].named && files[a].url == files[b].url
    ensures var u := files[a].url;
      var j := UpdateFile(UpdateFile(System(INIT, files), a), b);
      && j.d.current == Some(Reply(Request(0, u), true)) && j.d.pending == [Request(1, u)]
      && j.files == files[a := Started(files[a])][b := Started(files[b])]
  {
  }

  lemma {:induction false} AnswerEndsBoth(files: seq<File>, a: nat, b: nat)
    requires Idle(files) && a < b < |files| && files[a].named && files[b].named && files[a].url == files[b].url
    ensures var j := UpdateFile(UpdateFile(System(INIT, files), a), b);
      && j.d.current.Some?
      && var k := Finished(j, Unnecessary, false, []);
         Idle(k.files) && Unanswered(k.d) == multiset{files[a].url}
  {
    TwoUpdates(files, a, b);
    var u := files[a].url;
    var j := UpdateFile(UpdateFile(System(INIT, files), a), b);
    DispatchEnds(j.(d := Emit(j.d, Unnecessary)), j.files, 0, u);
    assert [Request(1, u)][1..] == [];
  }

  function Both(a: nat, b: nat): seq<Happening> {
    [Updating(a), Updating(b), Finishing(Unnecessary, false, [])]
  }

  lemma {:induction false} BothEvolve(j: System, a: nat, b: nat)
    requires UpdateFile(UpdateFile(j, a), b).d.current.Some?
    ensures Evolve(j, Both(a, b)) == Finished(UpdateFile(UpdateFile(j, a), b), Unnecessary, false, [])
  {
    var es := Both(a, b);
    assert es[1..] == [Updating(b), Finishing(Unnecessary, false, [])];
    assert es[1..][1..] == [Finishing(Unnecessary, false, [])];
    assert es[1..][1..][1..] == [];
    var j1, j2 := UpdateFile(j, a), UpdateFile(UpdateFile(j, a), b);
    assert Evolve(j, es) == Evolve(j1, es[1..]) == Evolve(j2, es[1..][1..]);
    assert Evolve(j2, es[1..][1..]) == Evolve(Finished(j2, Unnecessary, false, []), []);
  }

  /** Two files that share a URL break the match: the first answer ends both
      updates, and the second request is left to nobody. */
  lemma {:induction false} SharedUrlBreaksMatch(files: seq<File>, a: nat, b: nat)
    requires Idle(files) && a < b < |files| && files[a].named && files[b].named && files[a].url == files[b].url
    ensures var j := Evolve(System(INIT, files), Both(a, b));
      Idle(j.files) && Unanswered(j.d) == multiset{files[a].url} && !Matched(j)
  {
    AnswerEndsBoth(files, a, b);
    BothEvolve(System(INIT, files), a, b);
    assert files[a].url in multiset{files[a].url};
  }

  /** The match holds after every run exactly when no two files that can be
      updated share a URL. */
  lemma {:induction false} MatchExactly(files: seq<File>)
    requires Idle(files)
    ensures (forall es :: Matched(Evolve(System(INIT, files), es))) <==> DistinctUrls(files)
  {
    if DistinctUrls(files) {
      forall es ensures Matched(Evolve(System(INIT, files), es)) {
        UpdatesMatchDownloads(files, es);
      }
    } else {
      var a, b :| 0 <= a < b < |files| && files[a].named && files[b].named && files[a].url == files[b].url;
      SharedUrlBreaksMatch(files, a, b);
    }
  }
}
