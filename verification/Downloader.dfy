/**
 The downloader: one reply in flight, a queue behind it, abort, and handlers
 that call back while a signal is being emitted.

 Every request carries a serial number; the history records which URLs were asked
 for, and which requests were started, finished and dropped from the queue.
 */
module Downloader {
  import opened Wrappers

  datatype Request = Request(id: nat, url: string)

  /** A reply stops running before its `finished` signal is delivered. */
  datatype Reply = Reply(request: Request, running: bool)

  datatype Code = Aborted | FileNotFound | OtherNetworkError | ReplyError

  datatype Kind = Success | Unnecessary | Failed(code: Code)

  datatype Signal = Signal(id: nat, url: string, kind: Kind)

  datatype History = History(asked: seq<string>, started: seq<nat>, finished: seq<Signal>, dropped: seq<Signal>)

  datatype State = State(current: Option<Reply>, pending: seq<Request>, h: History)

  /** What a handler, or anybody else, may ask for. */
  datatype Command = Download(url: string) | Abort(url: string)

  const INIT := State(None, [], History([], [], [], []))

  const OK := 200
  const NOT_MODIFIED := 304
  const NOT_FOUND := 404

  /** The one terminal signal of a finished reply: abortion outranks everything, data
      count only with status 200 and without an error, and an error is no success. */
  function Verdict(aborted: bool, status: int, hasError: bool, noData: bool): (k: Kind)
    ensures k == Failed(Aborted) <==> aborted
    ensures k.Success? <==> !aborted && status == OK && !hasError && !noData
    ensures k.Unnecessary? <==> !aborted && status == NOT_MODIFIED
    ensures k == Failed(FileNotFound) <==> !aborted && status == NOT_FOUND
    ensures k == Failed(OtherNetworkError) <==> !aborted && !hasError && status !in {OK, NOT_MODIFIED, NOT_FOUND}
  {
    if aborted then Failed(Aborted)
    else if status == OK then (if !hasError && !noData then Success else Failed(ReplyError))
    else if status == NOT_MODIFIED then Unnecessary
    else if status == NOT_FOUND then Failed(FileNotFound)
    else if hasError then Failed(ReplyError)
    else Failed(OtherNetworkError)
  }

  function StartIfPending(s: State): State {
    if s.current.Some? || s.pending == [] then s
    else s.(current := Some(Reply(s.pending[0], true)), pending := s.pending[1..],
            h := s.h.(started := s.h.started + [s.pending[0].id]))
  }

  function Schedule(s: State, url: string): State {
    StartIfPending(s.(pending := s.pending + [Request(|s.h.asked|, url)],
                      h := s.h.(asked := s.h.asked + [url])))
  }

  function Erase(rs: seq<Request>, url: string): seq<Request> {
    if rs == [] then []
    else if rs[0].url == url then Erase(rs[1..], url)
    else [rs[0]] + Erase(rs[1..], url)
  }

  function Removals(rs: seq<Request>, url: string): seq<Signal> {
    if rs == [] then []
    else if rs[0].url == url then [Signal(rs[0].id, url, Failed(Aborted))] + Removals(rs[1..], url)
    else Removals(rs[1..], url)
  }

  /** Abort's second part: take the URL's requests out of the queue, one failure each. */
  function Drop(s: State, url: string): State {
    s.(pending := Erase(s.pending, url), h := s.h.(dropped := s.h.dropped + Removals(s.pending, url)))
  }

  function Emit(s: State, kind: Kind): State
    requires s.current.Some?
  {
    var r := s.current.value.request;
    s.(current := Some(Reply(r, false)), h := s.h.(finished := s.h.finished + [Signal(r.id, r.url, kind)]))
  }

  /** A command that arrives while a signal is emitted: the slot is still taken. */
  function React(s: State, c: Command): State {
    match c
    case Download(url) => Schedule(s, url)
    case Abort(url) => Drop(s, url)
  }

  function ReactAll(s: State, cs: seq<Command>): State
    decreases |cs|
  {
    if cs == [] then s else ReactAll(React(s, cs[0]), cs[1..])
  }

  /** The reply finishes: signal, handlers, then the guard frees the slot. */
  function Finish(s: State, kind: Kind, cs: seq<Command>): State
    requires s.current.Some?
  {
    StartIfPending(ReactAll(Emit(s, kind), cs).(current := None))
  }

  predicate InFlight(s: State, url: string) {
    s.current.Some? && s.current.value.running && s.current.value.request.url == url
  }

  function Aborting(s: State, url: string, cs: seq<Command>): State {
    Drop(if InFlight(s, url) then Finish(s, Failed(Aborted), cs) else s, url)
  }

  predicate HasUrl(rs: seq<Request>, url: string) {
    rs != [] && (rs[0].url == url || HasUrl(rs[1..], url))
  }

  predicate Waiting(s: State, url: string) {
    HasUrl(s.pending, url)
  }

  // ---- the object ----

  class DownloaderObject {
    var current: Option<Reply>
    var pending: seq<Request>
    /** The reply's property "aborted". */
    var aborted: bool
    ghost var h: History

    ghost function Value(): State
      reads this
    {
      State(current, pending, h)
    }

    var serial: nat

    ghost predicate Valid()
      reads this
    {
      serial == |h.asked|
    }

    constructor ()
      ensures Value() == INIT && Valid() && !aborted
    {
      current, pending, serial, aborted := None, [], 0, false;
      h := History([], [], [], []);
    }

    method StartDownloadIfPending()
      requires Valid()
      modifies this
      ensures Valid() && Value() == StartIfPending(old(Value()))
      ensures aborted == (old(aborted) && (old(current.Some?) || old(pending) == []))
    {
      if current.Some? {
        return;
      }
      if pending == [] {
        return;
      }
      var request := pending[0];
      pending := pending[1..];
      current, aborted := Some(Reply(request, true)), false;
      h := h.(started := h.started + [request.id]);
    }

    method ScheduleDownload(url: string)
      requires Valid()
      modifies this
      ensures Valid() && Value() == Schedule(old(Value()), url)
      ensures !old(aborted) ==> !aborted
    {
      pending := pending + [Request(serial, url)];
      serial := serial + 1;
      h := h.(asked := h.asked + [url]);
      StartDownloadIfPending();
    }

    method EraseIf(url: string) returns (removed: nat)
      requires Valid()
      modifies this
      ensures Valid() && Value() == Drop(old(Value()), url) && aborted == old(aborted)
      ensures removed == |Removals(old(pending), url)|
    {
      removed := 0;
      var kept: seq<Request> := [];
      ghost var signals: seq<Signal> := [];
      for i := 0 to |pending|
        invariant Valid() && Value() == old(Value()) && aborted == old(aborted)
        invariant kept + Erase(pending[i..], url) == Erase(pending, url)
        invariant signals + Removals(pending[i..], url) == Removals(pending, url)
        invariant removed == |signals|
      {
        assert pending[i..][0] == pending[i] && pending[i..][1..] == pending[i + 1..];
        if pending[i].url == url {
          removed := removed + 1;
          signals := signals + [Signal(pending[i].id, url, Failed(Code.Aborted))];
        } else {
          kept := kept + [pending[i]];
        }
      }
      pending := kept;
      h := h.(dropped := h.dropped + signals);
    }

    method HandleAll(cs: seq<Command>)
      requires Valid()
      modifies this
      ensures Valid() && Value() == ReactAll(old(Value()), cs)
      ensures !old(aborted) ==> !aborted
    {
      for i := 0 to |cs|
        invariant Valid() && ReactAll(Value(), cs[i..]) == ReactAll(old(Value()), cs)
        invariant !old(aborted) ==> !aborted
      {
        assert cs[i..][0] == cs[i] && cs[i..][1..] == cs[i + 1..];
        match cs[i] {
          case Download(url) =>
            ScheduleDownload(url);
          case Abort(url) =>
            var _ := EraseIf(url);
        }
      }
    }

    /** Which signal the reply's end leads to, and with which code. */
    method Outcome(status: int, hasError: bool, noData: bool) returns (kind: Kind)
      ensures kind == Verdict(aborted, status, hasError, noData)
    {
      if aborted {
        return Failed(Code.Aborted);
      }
      if status == OK {
        if !hasError && !noData {
          return Success;
        }
        return Failed(ReplyError);
      }
      if status == NOT_MODIFIED {
        return Unnecessary;
      }
      if status == NOT_FOUND {
        return Failed(FileNotFound);
      }
      if hasError {
        return Failed(ReplyError);
      }
      return Failed(OtherNetworkError);
    }

    /** `handlers` is what the receivers of the signal ask for during the emission. */
    method OnNetworkReplyFinished(status: int, hasError: bool, noData: bool, handlers: seq<Command>)
      requires Valid() && current.Some?
      modifies this
      ensures Valid() && !aborted
      ensures Value() == Finish(old(Value()), Verdict(old(aborted), status, hasError, noData), handlers)
      ensures var r := old(current.value.request);
        h.finished == old(h.finished) + [Signal(r.id, r.url, Verdict(old(aborted), status, hasError, noData))]
    {
      var kind := Outcome(status, hasError, noData);
      var r := current.value.request;
      current := Some(Reply(r, false));
      h := h.(finished := h.finished + [Signal(r.id, r.url, kind)]);
      ReactsFinished(Value(), handlers);
      HandleAll(handlers);
      current, aborted := None, false;
      StartDownloadIfPending();
    }

    /** `status` and the flags are those of the reply that is cut off. */
    method AbortUrl(url: string, status: int, hasError: bool, noData: bool,
                    handlers: seq<Command>) returns (done: bool)
      requires Valid() && !aborted
      modifies this
      ensures Valid() && !aborted && Value() == Aborting(old(Value()), url, handlers)
      ensures done <==> old(InFlight(Value(), url) || Waiting(Value(), url))
      ensures old(InFlight(Value(), url)) ==>
        h.finished == old(h.finished) + [Signal(old(current.value.request.id), url, Failed(Code.Aborted))]
      ensures !old(InFlight(Value(), url)) ==> h.finished == old(h.finished) && current == old(current)
    {
      var running := false;
      if current.Some? && current.value.running && current.value.request.url == url {
        aborted := true;
        OnNetworkReplyFinished(status, hasError, noData, handlers);
        running := true;
      }
      ghost var before := pending;
      var removed := EraseIf(url);
      RemovalsOf(before, url);
      done := running || removed > 0;
    }
  }

  /** Handlers neither finish a reply nor touch the one in its slot. */
  lemma {:induction false} ReactsFinished(s: State, cs: seq<Command>)
    requires s.current.Some?
    ensures ReactAll(s, cs).h.finished == s.h.finished && ReactAll(s, cs).current == s.current
    decreases |cs|
  {
    if cs != [] {
      ReactsFinished(React(s, cs[0]), cs[1..]);
    }
  }

  lemma {:induction false} RemovalsOf(rs: seq<Request>, url: string)
    ensures |Removals(rs, url)| > 0 <==> HasUrl(rs, url)
    ensures !HasUrl(Erase(rs, url), url)
  {
    if rs != [] {
      RemovalsOf(rs[1..], url);
      if rs[0].url != url {
        assert Erase(rs, url)[1..] == Erase(rs[1..], url);
      }
    }
  }
}
