/** What the downloader's signals say: for whom they are, and how a request ended. */
module DownloaderSignals {
  import opened Wrappers
  import opened Lines
  import opened Downloader
  import opened DownloaderRuns

  // ---- every signal is about its own request ----

  /** Number `id` was given to a request for `url`. */
  predicate AskedFor(asked: seq<string>, id: nat, url: string) {
    id < |asked| && asked[id] == url
  }

  predicate Named(asked: seq<string>, rs: seq<Request>) {
    forall i :: 0 <= i < |rs| ==> AskedFor(asked, rs[i].id, rs[i].url)
  }

  predicate Truthful(asked: seq<string>, ss: seq<Signal>) {
    forall i :: 0 <= i < |ss| ==> AskedFor(asked, ss[i].id, ss[i].url)
  }

  /** All requests and signals carry the URL asked for, and what was dropped from
      the queue was told to be aborted. */
  predicate Recorded(s: State) {
    && Named(s.h.asked, s.pending)
    && (s.current.Some? ==> AskedFor(s.h.asked, s.current.value.request.id, s.current.value.request.url))
    && Truthful(s.h.asked, s.h.finished) && Truthful(s.h.asked, s.h.dropped)
    && (forall i :: 0 <= i < |s.h.dropped| ==> s.h.dropped[i].kind == Failed(Aborted))
  }

  function Kinds(ss: seq<Signal>): seq<Kind> {
    if ss == [] then [] else [ss[0].kind] + Kinds(ss[1..])
  }

  lemma {:induction false} KindsAppend(a: seq<Signal>, b: seq<Signal>)
    ensures Kinds(a + b) == Kinds(a) + Kinds(b)
  {
    if a == [] {
      assert a + b == b;
    } else {
      assert (a + b)[1..] == a[1..] + b;
      KindsAppend(a[1..], b);
    }
  }

  /** The URLs that handlers ask for. */
  function Downloads(cs: seq<Command>): seq<string> {
    if cs == [] then []
    else (if cs[0].Download? then [cs[0].url] else []) + Downloads(cs[1..])
  }

  /** An operation that finishes nothing: what was asked grows by `more`. */
  predicate Extends(s: State, s': State, more: seq<string>) {
    Recorded(s') && s'.h.asked == s.h.asked + more && s'.h.finished == s.h.finished
  }

  lemma {:induction false} StartRecords(s: State)
    requires Recorded(s)
    ensures Extends(s, StartIfPending(s), [])
  {
    assert s.h.asked + [] == s.h.asked;
    if s.current.None? && s.pending != [] {
      assert AskedFor(s.h.asked, s.pending[0].id, s.pending[0].url);
    }
  }

  lemma {:induction false} ScheduleRecords(s: State, url: string)
    requires Recorded(s)
    ensures Extends(s, Schedule(s, url), [url])
  {
    var r := Request(|s.h.asked|, url);
    var s1 := s.(pending := s.pending + [r], h := s.h.(asked := s.h.asked + [url]));
    assert AskedFor(s1.h.asked, r.id, url);
    assert Recorded(s1);
    StartRecords(s1);
    assert (s.h.asked + [url]) + [] == s.h.asked + [url];
  }

  lemma {:induction false} ErasedRecords(asked: seq<string>, rs: seq<Request>, url: string)
    requires Named(asked, rs)
    ensures Named(asked, Erase(rs, url)) && Truthful(asked, Removals(rs, url))
    ensures forall i :: 0 <= i < |Removals(rs, url)| ==> Removals(rs, url)[i].kind == Failed(Aborted)
  {
    if rs != [] {
      assert AskedFor(asked, rs[0].id, rs[0].url);
      ErasedRecords(asked, rs[1..], url);
    }
  }

  lemma {:induction false} DropRecords(s: State, url: string)
    requires Recorded(s)
    ensures Extends(s, Drop(s, url), [])
  {
    ErasedRecords(s.h.asked, s.pending, url);
    assert s.h.asked + [] == s.h.asked;
  }

  lemma {:induction false} ReactRecords(s: State, cs: seq<Command>)
    requires Recorded(s)
    ensures Extends(s, ReactAll(s, cs), Downloads(cs))
    decreases |cs|
  {
    if cs == [] {
      assert s.h.asked + [] == s.h.asked;
    } else {
      match cs[0] {
        case Download(url) => ScheduleRecords(s, url);
        case Abort(url) => DropRecords(s, url);
      }
      ReactRecords(React(s, cs[0]), cs[1..]);
      Assoc(s.h.asked, if cs[0].Download? then [cs[0].url] else [], Downloads(cs[1..]));
    }
  }

  /** The end of a reply: one signal, about its request, of its kind. */
  lemma {:induction false} FinishTells(s: State, kind: Kind, cs: seq<Command>)
    requires Recorded(s) && s.current.Some?
    ensures var r, s' := s.current.value.request, Finish(s, kind, cs);
      && Recorded(s') && s'.h.asked == s.h.asked + Downloads(cs)
      && s'.h.finished == s.h.finished + [Signal(r.id, r.url, kind)]
  {
    ReactRecords(Emit(s, kind), cs);
    var s1 := ReactAll(Emit(s, kind), cs).(current := None);
    StartRecords(s1);
    assert s1.h.asked + [] == s1.h.asked;
  }

  // ---- runs ----

  /** How the requests ended, told from the events. */
  function Told(s: State, es: seq<Event>): seq<Kind>
    decreases |es|
  {
    if es == [] then []
    else
      (match es[0]
       case Asked(_) => []
       case Cancelled(url, _) => if InFlight(s, url) then [Failed(Aborted)] else []
       case Replied(kind, _) => if s.current.Some? then [kind] else [])
      + Told(Next(s, es[0]), es[1..])
  }

  /** The URLs asked for, by callers and by handlers of finished replies. */
  function AskedIn(s: State, es: seq<Event>): seq<string>
    decreases |es|
  {
    if es == [] then []
    else
      (match es[0]
       case Asked(url) => [url]
       case Cancelled(url, cs) => if InFlight(s, url) then Downloads(cs) else []
       case Replied(_, cs) => if s.current.Some? then Downloads(cs) else [])
      + AskedIn(Next(s, es[0]), es[1..])
  }

  lemma {:induction false} NextTells(s: State, e: Event)
    requires Recorded(s)
    ensures Recorded(Next(s, e))
    ensures Kinds(Next(s, e).h.finished) == Kinds(s.h.finished) + Told(s, [e])
    ensures Next(s, e).h.asked == s.h.asked + AskedIn(s, [e])
  {
    assert [e][1..] == [] && s.h.asked + [] == s.h.asked;
    assert Kinds(s.h.finished) + [] == Kinds(s.h.finished);
    match e
    case Asked(url) => ScheduleRecords(s, url);
    case Cancelled(url, cs) =>
      if InFlight(s, url) {
        FinishTells(s, Failed(Aborted), cs);
        KindsOne(s.h.finished, s.current.value.request, Failed(Aborted));
        var s1 := Finish(s, Failed(Aborted), cs);
        DropRecords(s1, url);
        assert s1.h.asked + [] == s1.h.asked;
      } else {
        DropRecords(s, url);
      }
    case Replied(kind, cs) =>
      if s.current.Some? {
        FinishTells(s, kind, cs);
        KindsOne(s.h.finished, s.current.value.request, kind);
      }
  }

  lemma {:induction false} KindsOne(ss: seq<Signal>, r: Request, kind: Kind)
    ensures Kinds(ss + [Signal(r.id, r.url, kind)]) == Kinds(ss) + [kind]
  {
    var sig := Signal(r.id, r.url, kind);
    KindsAppend(ss, [sig]);
    assert [sig][1..] == [];
  }

  lemma {:induction false} PlayTells(s: State, es: seq<Event>)
    requires Recorded(s)
    ensures Recorded(Play(s, es))
    ensures Kinds(Play(s, es).h.finished) == Kinds(s.h.finished) + Told(s, es)
    ensures Play(s, es).h.asked == s.h.asked + AskedIn(s, es)
    decreases |es|
  {
    if es == [] {
      assert Kinds(s.h.finished) + [] == Kinds(s.h.finished) && s.h.asked + [] == s.h.asked;
    } else {
      NextTells(s, es[0]);
      ToldThenRest(s, es);
      AskedThenRest(s, es);
      PlayTells(Next(s, es[0]), es[1..]);
      Assoc(Kinds(s.h.finished), Told(s, [es[0]]), Told(Next(s, es[0]), es[1..]));
      Assoc(s.h.asked, AskedIn(s, [es[0]]), AskedIn(Next(s, es[0]), es[1..]));
    }
  }

  lemma {:induction false} ToldThenRest(s: State, es: seq<Event>)
    requires es != []
    ensures Told(s, es) == Told(s, [es[0]]) + Told(Next(s, es[0]), es[1..])
  {
    var one := [es[0]];
    assert one[1..] == [] && Told(Next(s, es[0]), []) == [];
  }

  lemma {:induction false} AskedThenRest(s: State, es: seq<Event>)
    requires es != []
    ensures AskedIn(s, es) == AskedIn(s, [es[0]]) + AskedIn(Next(s, es[0]), es[1..])
  {
    var one := [es[0]];
    assert one[1..] == [] && AskedIn(Next(s, es[0]), []) == [];
  }

  /** After any run: every signal is about a request for its URL, finished replies
      were told in order as they ended, and the requests are those asked for. */
  lemma {:induction false} SignalsTell(es: seq<Event>)
    ensures var s := Play(INIT, es);
      && Recorded(s)
      && Kinds(s.h.finished) == Told(INIT, es)
      && s.h.asked == AskedIn(INIT, es)
  {
    PlayTells(INIT, es);
    assert [] + AskedIn(INIT, es) == AskedIn(INIT, es);
    assert [] + Told(INIT, es) == Told(INIT, es);
  }

  // ---- what waits when handlers are done ----

  function Urls(rs: seq<Request>): seq<string> {
    if rs == [] then [] else [rs[0].url] + Urls(rs[1..])
  }

  /** Of what waited before, that which no handler aborts. */
  function Spared(urls: seq<string>, cs: seq<Command>): seq<string> {
    if urls == [] then []
    else (if Abort(urls[0]) in cs then [] else [urls[0]]) + Spared(urls[1..], cs)
  }

  /** What handlers ask for and no later one aborts. */
  function StillAsked(cs: seq<Command>): seq<string> {
    if cs == [] then []
    else
      (if cs[0].Download? && Abort(cs[0].url) !in cs[1..] then [cs[0].url] else [])
      + StillAsked(cs[1..])
  }

  lemma {:induction false} UrlsAppend(a: seq<Request>, b: seq<Request>)
    ensures Urls(a + b) == Urls(a) + Urls(b)
  {
    if a == [] {
      assert a + b == b;
    } else {
      assert (a + b)[1..] == a[1..] + b;
      UrlsAppend(a[1..], b);
    }
  }

  lemma {:induction false} SparedAppend(a: seq<string>, b: seq<string>, cs: seq<Command>)
    ensures Spared(a + b, cs) == Spared(a, cs) + Spared(b, cs)
  {
    if a == [] {
      assert a + b == b;
    } else {
      assert (a + b)[1..] == a[1..] + b;
      SparedAppend(a[1..], b, cs);
    }
  }

  lemma {:induction false} SparedByNone(urls: seq<string>)
    ensures Spared(urls, []) == urls
  {
    if urls != [] {
      SparedByNone(urls[1..]);
    }
  }

  lemma {:induction false} SparedAfterDownload(urls: seq<string>, u: string, cs: seq<Command>)
    ensures Spared(urls, [Download(u)] + cs) == Spared(urls, cs)
  {
    if urls != [] {
      SparedAfterDownload(urls[1..], u, cs);
    }
  }

  lemma {:induction false} SparedAfterAbort(rs: seq<Request>, u: string, cs: seq<Command>)
    ensures Spared(Urls(rs), [Abort(u)] + cs) == Spared(Urls(Erase(rs, u)), cs)
  {
    if rs != [] {
      SparedAfterAbort(rs[1..], u, cs);
      if rs[0].url != u {
        assert Erase(rs, u)[1..] == Erase(rs[1..], u);
      }
    }
  }

  /** A download that a handler asks for, and the handlers behind it. */
  lemma {:induction false} DownloadDecides(urls: seq<string>, u: string, rest: seq<Command>)
    ensures Spared(urls + [u], rest) + StillAsked(rest)
         == Spared(urls, [Download(u)] + rest) + StillAsked([Download(u)] + rest)
  {
    SparedAppend(urls, [u], rest);
    assert [u][1..] == [];
    SparedAfterDownload(urls, u, rest);
    Assoc(Spared(urls, rest), Spared([u], rest), StillAsked(rest));
  }

  lemma {:induction false} ScheduledUrls(s: State, u: string)
    requires s.current.Some?
    ensures Urls(Schedule(s, u).pending) == Urls(s.pending) + [u]
  {
    var r := Request(|s.h.asked|, u);
    UrlsAppend(s.pending, [r]);
    assert Urls([r]) == [u] by { assert [r][1..] == []; }
  }

  /** During an emission, with the slot taken, the queue loses what a handler aborts
      and gains what one asks for, unless a later one aborts it again. */
  lemma {:induction false} HandlersDecide(s: State, cs: seq<Command>)
    requires s.current.Some?
    ensures Urls(ReactAll(s, cs).pending) == Spared(Urls(s.pending), cs) + StillAsked(cs)
    decreases |cs|
  {
    if cs == [] {
      SparedByNone(Urls(s.pending));
      assert Urls(s.pending) + [] == Urls(s.pending);
    } else {
      HandlersDecide(React(s, cs[0]), cs[1..]);
      assert cs == [cs[0]] + cs[1..];
      match cs[0] {
        case Download(u) =>
          ScheduledUrls(s, u);
          DownloadDecides(Urls(s.pending), u, cs[1..]);
        case Abort(u) => SparedAfterAbort(s.pending, u, cs[1..]);
      }
    }
  }
}
