/** What becomes of a file's update and of its dirty marker, event by event. */
module FileMarkers {
  import opened Wrappers
  import opened Downloader
  import opened DownloaderRuns
  import opened Files

  predicate CanMark(file: File) {
    file.named && file.cached
  }

  /** The receivers of a file's own signal are called. */
  predicate Announced(kind: Kind, written: bool) {
    (kind.Success? && written) || kind.Unnecessary?
  }

  lemma {:induction false} DirtyUpdate(j: System, g: nat, f: nat)
    requires f < |j.files|
    ensures |UpdateFile(j, g).files| == |j.files|
    ensures UpdateFile(j, g).files[f].dirty == j.files[f].dirty
    ensures CanMark(UpdateFile(j, g).files[f]) == CanMark(j.files[f])
  {
  }

  lemma {:induction false} DirtyMark(j: System, g: nat, f: nat)
    requires f < |j.files|
    ensures var k := DoReaction(j, MarkDirty(g));
      && |k.files| == |j.files| && CanMark(k.files[f]) == CanMark(j.files[f])
      && (k.files[f].dirty <==> j.files[f].dirty || (g == f && CanMark(j.files[f])))
  {
  }

  /** Receivers mark what they name and change no other marker. */
  lemma {:induction false} DirtyReactions(j: System, rs: seq<Reaction>, f: nat)
    requires f < |j.files|
    ensures var k := DoAll(j, rs);
      && |k.files| == |j.files| && CanMark(k.files[f]) == CanMark(j.files[f])
      && (k.files[f].dirty <==> j.files[f].dirty || (MarkDirty(f) in rs && CanMark(j.files[f])))
    decreases |rs|
  {
    if rs != [] {
      match rs[0] {
        case Update(g) => DirtyUpdate(j, g, f);
        case MarkDirty(g) => DirtyMark(j, g, f);
      }
      DirtyReactions(DoReaction(j, rs[0]), rs[1..], f);
      assert rs == [rs[0]] + rs[1..];
    }
  }

  lemma {:induction false} DirtySignal(j: System, g: nat, kind: Kind, written: bool, rs: seq<Reaction>, f: nat)
    requires f < |j.files| && g < |j.files|
    ensures var k := OnSignal(j, g, kind, written, rs);
      && |k.files| == |j.files|
      && (f == g && !kind.Failed? && j.files[f].cached ==> !k.files[f].dirty)
      && (f != g && CanMark(j.files[f]) && Announced(kind, written) && MarkDirty(f) in rs ==> k.files[f].dirty)
      && (f != g && !(CanMark(j.files[f]) && Announced(kind, written) && MarkDirty(f) in rs) ==>
           k.files[f].dirty == j.files[f].dirty)
      && (kind.Failed? ==> k.files[f].dirty == j.files[f].dirty)
  {
    DirtyReactions(j, rs, f);
    DirtyReactions(j, rs, g);
    CachedReactions(j, rs, f);
  }

  lemma {:induction false} CachedReactions(j: System, rs: seq<Reaction>, f: nat)
    requires f < |j.files|
    ensures |DoAll(j, rs).files| == |j.files| && DoAll(j, rs).files[f].cached == j.files[f].cached
    decreases |rs|
  {
    if rs != [] {
      CachedReactions(DoReaction(j, rs[0]), rs[1..], f);
    }
  }

  lemma {:induction false} DirtyDispatchFailed(j: System, start: seq<File>, k: nat, url: string, f: nat)
    requires f < |j.files| && |start| == |j.files|
    ensures var r := Dispatch(j, start, k, url, Failed(Aborted), false, []);
      |r.files| == |j.files| && r.files[f].dirty == j.files[f].dirty
    decreases |start| - k
  {
    if k < |start| {
      var j1 := if k < |j.files| && start[k].connected && j.files[k].connected && j.files[k].url == url
                then OnSignal(j, k, Failed(Aborted), false, []) else j;
      DirtyDispatchFailed(j1, start, k + 1, url, f);
    }
  }

  lemma {:induction false} DirtyTold(j: System, rs: seq<Request>, url: string, f: nat)
    requires f < |j.files|
    ensures var r := TellDropped(j, Removals(rs, url));
      |r.files| == |j.files| && r.files[f].dirty == j.files[f].dirty
    decreases |rs|
  {
    if rs != [] {
      if rs[0].url == url {
        var s := Removals(rs, url);
        DirtyDispatchFailed(j, j.files, 0, url, f);
        assert s[1..] == Removals(rs[1..], url);
        DirtyTold(Dispatch(j, j.files, 0, s[0].url, s[0].kind, false, []), rs[1..], url, f);
      } else {
        DirtyTold(j, rs[1..], url, f);
      }
    }
  }

  /** The reply in flight is for file `g`, whose update it ends. */
  lemma {:induction false} DirtyFinished(j: System, kind: Kind, written: bool, rs: seq<Reaction>, g: nat)
    requires Balanced(j, multiset{}) && Quiescent(j.d) && j.d.current.Some?
    requires g < |j.files| && j.files[g].running && j.files[g].url == j.d.current.value.request.url
    ensures var k := Finished(j, kind, written, rs);
      && |k.files| == |j.files| && !k.files[g].running
      && k.files == OnSignal(j.(d := Emit(j.d, kind)), g, kind, written, rs).files
  {
    EmissionBalances(j, g, kind, written, rs);
  }

  /** The marker goes when the server has answered, comes when somebody marks the
      file, and nothing else touches it. */
  function DirtyNext(j: System, e: Happening, f: nat): bool
    requires f < |j.files|
  {
    match e
    case Marking(g) => j.files[f].dirty || (g == f && CanMark(j.files[f]))
    case Finishing(kind, written, rs) =>
      if j.d.current.None? then j.files[f].dirty
      else if j.files[f].running && j.files[f].url == j.d.current.value.request.url then
        j.files[f].dirty && (kind.Failed? || !j.files[f].cached)
      else j.files[f].dirty || (CanMark(j.files[f]) && Announced(kind, written) && MarkDirty(f) in rs)
    case _ => j.files[f].dirty
  }

  /** A file without a cache folder has no marker. */
  predicate MarkersStored(files: seq<File>) {
    forall i :: 0 <= i < |files| && files[i].dirty ==> CanMark(files[i])
  }

  lemma {:induction false} OwnerOf(j: System) returns (g: nat)
    requires Balanced(j, multiset{}) && Quiescent(j.d) && j.d.current.Some?
    ensures g < |j.files| && j.files[g].running && j.files[g].url == j.d.current.value.request.url
  {
    assert j.d.current.value.request.url in Unanswered(j.d);
    g := Owner(j, j.d.current.value.request.url);
  }

  lemma {:induction false} DirtyFinishing(j: System, kind: Kind, written: bool, rs: seq<Reaction>, f: nat)
    requires Balanced(j, multiset{}) && Quiescent(j.d) && j.d.current.Some? && MarkersStored(j.files)
    requires f < |j.files|
    ensures |Finished(j, kind, written, rs).files| == |j.files|
    ensures Finished(j, kind, written, rs).files[f].dirty == DirtyNext(j, Finishing(kind, written, rs), f)
  {
    var g := OwnerOf(j);
    DirtyFinished(j, kind, written, rs, g);
    DirtySignal(j.(d := Emit(j.d, kind)), g, kind, written, rs, f);
    DirtyReactions(j.(d := Emit(j.d, kind)), rs, f);
    assert f != g && j.files[f].running ==> j.files[f].url != j.files[g].url;
  }

  lemma {:induction false} DirtyAborting(j: System, url: string, f: nat)
    requires Balanced(j, multiset{}) && Quiescent(j.d) && MarkersStored(j.files) && f < |j.files|
    ensures |AbortUrl(j, url).files| == |j.files| && AbortUrl(j, url).files[f].dirty == j.files[f].dirty
  {
    if InFlight(j.d, url) {
      DirtyFinishing(j, Failed(Aborted), false, [], f);
      var j1 := Finished(j, Failed(Aborted), false, []);
      DirtyTold(j1.(d := Drop(j1.d, url)), j1.d.pending, url, f);
    } else {
      DirtyTold(j.(d := Drop(j.d, url)), j.d.pending, url, f);
    }
  }

  /** Event by event, the marker of every file is what `DirtyNext` tells. */
  lemma {:induction false} DirtyExactly(j: System, e: Happening, f: nat)
    requires Balanced(j, multiset{}) && Quiescent(j.d) && MarkersStored(j.files) && f < |j.files|
    ensures |Happen(j, e).files| == |j.files|
    ensures Happen(j, e).files[f].dirty == DirtyNext(j, e, f)
  {
    match e
    case Updating(g) => DirtyUpdate(j, g, f);
    case Marking(g) => DirtyMark(j, g, f);
    case Finishing(kind, written, rs) =>
      if j.d.current.Some? {
        DirtyFinishing(j, kind, written, rs, f);
      }
    case Aborting(url) => DirtyAborting(j, url, f);
  }

  lemma {:induction false} MarkerKept(j: System, e: Happening, f: nat)
    requires Balanced(j, multiset{}) && Quiescent(j.d) && MarkersStored(j.files) && f < |j.files|
    requires SameUrls(j.files, Happen(j, e).files) && Happen(j, e).files[f].dirty
    ensures CanMark(Happen(j, e).files[f])
  {
    DirtyExactly(j, e, f);
    assert j.files[f].dirty ==> CanMark(j.files[f]);
  }

  lemma {:induction false} MarkersKept(j: System, e: Happening)
    requires Balanced(j, multiset{}) && Quiescent(j.d) && MarkersStored(j.files)
    ensures MarkersStored(Happen(j, e).files)
  {
    HappenBalances(j, e);
    forall i: nat | i < |Happen(j, e).files| && Happen(j, e).files[i].dirty ensures CanMark(Happen(j, e).files[i]) {
      MarkerKept(j, e, i);
    }
  }

  lemma {:induction false} EvolveMarkers(j: System, es: seq<Happening>)
    requires Balanced(j, multiset{}) && Quiescent(j.d) && MarkersStored(j.files)
    ensures Balanced(Evolve(j, es), multiset{}) && Quiescent(Evolve(j, es).d) && MarkersStored(Evolve(j, es).files)
    ensures SameUrls(j.files, Evolve(j, es).files)
    decreases |es|
  {
    if es != [] {
      HappenBalances(j, es[0]);
      MarkersKept(j, es[0]);
      EvolveMarkers(Happen(j, es[0]), es[1..]);
    }
  }

  // ---- updates begin and end ----

  /** An update begins when it is asked for, by anybody or by the receivers of a
      file's own signal, and ends with the answer or with an abort for its URL. */
  function RunningNext(j: System, e: Happening, f: nat): bool
    requires f < |j.files|
  {
    match e
    case Updating(g) => j.files[f].running || (g == f && j.files[f].named)
    case Marking(_) => j.files[f].running
    case Finishing(kind, written, rs) =>
      if j.d.current.None? then j.files[f].running
      else if j.files[f].running then j.files[f].url != j.d.current.value.request.url
      else Announced(kind, written) && Update(f) in rs && j.files[f].named
    case Aborting(url) => j.files[f].running && j.files[f].url != url
  }

  lemma {:induction false} RunningReactions(j: System, rs: seq<Reaction>, f: nat)
    requires f < |j.files|
    ensures var k := DoAll(j, rs);
      && |k.files| == |j.files| && k.files[f].named == j.files[f].named && k.files[f].url == j.files[f].url
      && (k.files[f].running <==> j.files[f].running || (Update(f) in rs && j.files[f].named))
    decreases |rs|
  {
    if rs != [] {
      RunningReactions(DoReaction(j, rs[0]), rs[1..], f);
      assert rs == [rs[0]] + rs[1..];
    }
  }

  lemma {:induction false} RunningFinishing(j: System, kind: Kind, written: bool, rs: seq<Reaction>, f: nat)
    requires Balanced(j, multiset{}) && Quiescent(j.d) && j.d.current.Some? && f < |j.files|
    ensures |Finished(j, kind, written, rs).files| == |j.files|
    ensures Finished(j, kind, written, rs).files[f].running == RunningNext(j, Finishing(kind, written, rs), f)
  {
    var g := OwnerOf(j);
    DirtyFinished(j, kind, written, rs, g);
    RunningReactions(j.(d := Emit(j.d, kind)), rs, f);
    RunningReactions(j.(d := Emit(j.d, kind)), rs, g);
    assert f != g && j.files[f].named && j.files[g].named ==> j.files[f].url != j.files[g].url;
  }

  lemma {:induction false} RunningDispatchFailed(j: System, start: seq<File>, k: nat, url: string, f: nat)
    requires f < |j.files| && |start| == |j.files|
    requires j.files[f].running ==> j.files[f].connected && start[f].connected
    ensures var r := Dispatch(j, start, k, url, Failed(Aborted), false, []);
      && |r.files| == |j.files| && r.files[f].url == j.files[f].url
      && (r.files[f].running ==> r.files[f].connected)
      && (r.files[f].running <==> j.files[f].running && (f < k || j.files[f].url != url))
    decreases |start| - k
  {
    if k < |start| {
      var j1 := if start[k].connected && j.files[k].connected && j.files[k].url == url
                then OnSignal(j, k, Failed(Aborted), false, []) else j;
      RunningDispatchFailed(j1, start, k + 1, url, f);
    }
  }

  lemma {:induction false} RunningTold(j: System, rs: seq<Request>, url: string, f: nat)
    requires f < |j.files| && (j.files[f].running ==> j.files[f].connected)
    ensures var r := TellDropped(j, Removals(rs, url));
      && |r.files| == |j.files|
      && (r.files[f].running <==> j.files[f].running && (j.files[f].url != url || Removals(rs, url) == []))
    decreases |rs|
  {
    if rs != [] {
      if rs[0].url == url {
        var s := Removals(rs, url);
        RunningDispatchFailed(j, j.files, 0, url, f);
        assert s[1..] == Removals(rs[1..], url);
        RunningTold(Dispatch(j, j.files, 0, s[0].url, s[0].kind, false, []), rs[1..], url, f);
      } else {
        RunningTold(j, rs[1..], url, f);
      }
    }
  }

  lemma {:induction false} RunningCutOff(j: System, url: string, f: nat)
    requires Balanced(j, multiset{}) && Quiescent(j.d) && f < |j.files|
    requires InFlight(j.d, url) && j.files[f].url != url
    ensures |AbortUrl(j, url).files| == |j.files|
    ensures AbortUrl(j, url).files[f].running == j.files[f].running
  {
    FinishBalances(j, Failed(Aborted), false, []);
    RunningFinishing(j, Failed(Aborted), false, [], f);
    var j1 := Finished(j, Failed(Aborted), false, []);
    RunningTold(j1.(d := Drop(j1.d, url)), j1.d.pending, url, f);
  }

  lemma {:induction false} RunningDropped(j: System, url: string, f: nat)
    requires Balanced(j, multiset{}) && f < |j.files| && !InFlight(j.d, url) && j.files[f].url != url
    ensures |AbortUrl(j, url).files| == |j.files|
    ensures AbortUrl(j, url).files[f].running == j.files[f].running
  {
    RunningTold(j.(d := Drop(j.d, url)), j.d.pending, url, f);
  }

  lemma {:induction false} RunningAborting(j: System, url: string, f: nat)
    requires Balanced(j, multiset{}) && Quiescent(j.d) && f < |j.files|
    ensures |AbortUrl(j, url).files| == |j.files|
    ensures AbortUrl(j, url).files[f].running == RunningNext(j, Aborting(url), f)
  {
    if j.files[f].url == url {
      AbortEnds(j, url, f);
    } else if InFlight(j.d, url) {
      RunningCutOff(j, url, f);
    } else {
      RunningDropped(j, url, f);
    }
  }

  /** Event by event, which updates run is what `RunningNext` tells. */
  lemma {:induction false} RunningExactly(j: System, e: Happening, f: nat)
    requires Balanced(j, multiset{}) && Quiescent(j.d) && f < |j.files|
    ensures |Happen(j, e).files| == |j.files|
    ensures Happen(j, e).files[f].running == RunningNext(j, e, f)
  {
    match e
    case Updating(_) =>
    case Marking(_) =>
    case Finishing(kind, written, rs) =>
      if j.d.current.Some? {
        RunningFinishing(j, kind, written, rs, f);
      }
    case Aborting(url) => RunningAborting(j, url, f);
  }

  /** After an abort no update of the URL runs, and none of its requests is left. */
  lemma {:induction false} AbortEnds(j: System, url: string, f: nat)
    requires Balanced(j, multiset{}) && Quiescent(j.d) && f < |j.files| && j.files[f].url == url
    ensures |AbortUrl(j, url).files| == |j.files| && !AbortUrl(j, url).files[f].running
    ensures Unanswered(AbortUrl(j, url).d)[url] == 0
  {
    AbortBalances(j, url);
    var k := AbortUrl(j, url);
    AbortUnanswered(j, url);
    if k.files[f].running {
      RunningMember(k.files, f);
    }
  }

  lemma {:induction false} FailureKeepsQueue(j: System, start: seq<File>, k: nat, url: string)
    ensures Dispatch(j, start, k, url, Failed(Aborted), false, []).d == j.d
    decreases |start| - k
  {
    if k < |start| {
      var j1 := if k < |j.files| && start[k].connected && j.files[k].connected && j.files[k].url == url
                then OnSignal(j, k, Failed(Aborted), false, []) else j;
      FailureKeepsQueue(j1, start, k + 1, url);
    }
  }

  lemma {:induction false} TellingKeepsQueue(j: System, signals: seq<Signal>)
    requires forall i :: 0 <= i < |signals| ==> signals[i].kind == Failed(Aborted)
    ensures TellDropped(j, signals).d == j.d
    decreases |signals|
  {
    if signals != [] {
      FailureKeepsQueue(j, j.files, 0, signals[0].url);
      TellingKeepsQueue(Dispatch(j, j.files, 0, signals[0].url, signals[0].kind, false, []), signals[1..]);
    }
  }

  lemma {:induction false} AbortUnanswered(j: System, url: string)
    requires Balanced(j, multiset{}) && Quiescent(j.d)
    ensures Unanswered(AbortUrl(j, url).d)[url] == 0
  {
    if InFlight(j.d, url) {
      FinishBalances(j, Failed(Aborted), false, []);
    }
    var d := if InFlight(j.d, url) then Finished(j, Failed(Aborted), false, []).d else j.d;
    RemovalSignals(d.pending, url);
    RemovalsCount(d.pending, url);
    var j1 := if InFlight(j.d, url) then Finished(j, Failed(Aborted), false, []) else j;
    TellingKeepsQueue(j1.(d := Drop(d, url)), Removals(d.pending, url));
  }

  /** At any point of any run, whatever happens next begins and ends the updates, and
      sets and clears the markers, that it should. */
  lemma {:induction false} NextInRuns(files: seq<File>, es: seq<Happening>, e: Happening, f: nat)
    requires DistinctUrls(files) && Idle(files) && MarkersStored(files) && f < |files|
    ensures var j := Evolve(System(INIT, files), es);
      && |j.files| == |Happen(j, e).files| == |files|
      && Happen(j, e).files[f].dirty == DirtyNext(j, e, f)
      && Happen(j, e).files[f].running == RunningNext(j, e, f)
  {
    IdleRuns(files);
    EvolveMarkers(System(INIT, files), es);
    DirtyExactly(Evolve(System(INIT, files), es), e, f);
    RunningExactly(Evolve(System(INIT, files), es), e, f);
  }
}
