/** The streams that parse without an error, and what they give: a grammar. */
module PatchGrammar {
  import opened Lines
  import opened Strings
  import opened Wrappers
  import opened Hunks
  import opened PatchLines
  import opened PatchParser
  import opened PatchSpelling
  import opened ParserFacts
  import opened WellFormed

  // ---- the grammar ----

  /** The lines of one hunk. */
  datatype HunkForm = HunkForm(head: string, body: seq<string>)

  /** The lines of one patch; `skipped` are source names that a later one replaces. */
  datatype PatchForm = PatchForm(header: seq<string>, skipped: seq<string>, source: string, target: string,
    hunks: seq<HunkForm>)

  function OfHunk(t: HunkForm): seq<string> {
    [t.head] + t.body
  }

  function OfHunks(ts: seq<HunkForm>): seq<string> {
    if ts == [] then [] else OfHunks(ts[..|ts| - 1]) + OfHunk(ts[|ts| - 1])
  }

  function BeforeTarget(t: PatchForm): seq<string> {
    t.header + (t.skipped + [t.source])
  }

  function OfPatch(t: PatchForm): seq<string> {
    (BeforeTarget(t) + [t.target]) + OfHunks(t.hunks)
  }

  function OfPatches(ts: seq<PatchForm>): seq<string> {
    if ts == [] then [] else OfPatches(ts[..|ts| - 1]) + OfPatch(ts[|ts| - 1])
  }

  predicate BodyLines(body: seq<string>, text: seq<string>) {
    |body| == |text| && forall i :: 0 <= i < |body| ==> BodySpelled(body[i], text[i])
  }

  /** The lines the header declares, complete with the last one and not before. */
  predicate Complete(h: Hunk) {
    h.text != [] && Met(h, h.text) && forall n :: 0 < n < |h.text| ==> !Met(h, h.text[..n])
  }

  ghost predicate SpellsHunk(t: HunkForm, h: Hunk) {
    HeaderSpelled(t.head, h.(text := [])) && BodyLines(t.body, h.text) && Complete(h)
  }

  ghost predicate SpellsHunks(ts: seq<HunkForm>, hunks: seq<Hunk>) {
    |ts| == |hunks| && forall k :: 0 <= k < |ts| ==> SpellsHunk(ts[k], hunks[k])
  }

  /** Lines before a patch: none starts a source name, and the first one behind a
      hunk starts no other hunk. */
  predicate HeaderLines(header: seq<string>, first: bool) {
    && (forall i :: 0 <= i < |header| ==> !IsSource(header[i]))
    && (!first && header != [] ==> !HunkStart(header[0]))
  }

  ghost predicate NamesSource(line: string, name: string) {
    IsSource(line) && NameSpelled(line, name)
  }

  ghost predicate HasSource(line: string) {
    exists name :: NamesSource(line, name)
  }

  ghost predicate Skippable(lines: seq<string>) {
    forall i :: 0 <= i < |lines| ==> HasSource(lines[i])
  }

  ghost predicate SpellsNames(t: PatchForm, q: Patch, first: bool) {
    && q.header == t.header && HeaderLines(t.header, first) && Skippable(t.skipped)
    && q.source.Some? && NamesSource(t.source, q.source.value)
    && IsTarget(t.target) && NameSpelled(t.target, q.target)
  }

  ghost predicate SpellsPatch(t: PatchForm, q: Patch, first: bool) {
    SpellsNames(t, q, first) && q.hunks != [] && SpellsHunks(t.hunks, q.hunks)
  }

  ghost predicate Spells(ts: seq<PatchForm>, items: seq<Patch>) {
    |ts| == |items| && forall i :: 0 <= i < |ts| ==> SpellsPatch(ts[i], items[i], i == 0)
  }

  /** The patches, and lines behind the last hunk that belong to none. */
  ghost predicate SpellsStream(lines: seq<string>, ts: seq<PatchForm>, trail: seq<string>, items: seq<Patch>) {
    lines == OfPatches(ts) + trail && Spells(ts, items) && HeaderLines(trail, false)
  }

  // ---- where the parser stands ----

  function Only(headscan: bool, filenames: bool, hunkhead: bool, hunkbody: bool, hunkparsed: bool): Flags {
    Flags(headscan, filenames, hunkhead, hunkbody, false, hunkparsed)
  }

  predicate Quiet(s: State) {
    s.errors == 0 && s.tgtname.None?
  }

  /** Among header lines; `done` are the patches so far. */
  predicate AtScan(s: State, done: seq<Patch>, header: seq<string>) {
    && Quiet(s) && s.f == Only(true, false, false, false, false) && s.srcname.None?
    && s.header == header && Flush(s) == done && (s.p.None? <==> done == [])
  }

  predicate AtNames(s: State, done: seq<Patch>, header: seq<string>, name: string) {
    && Quiet(s) && s.f == Only(false, true, false, false, false) && s.srcname == Some(name) && !s.scanning
    && s.header == header && Flush(s) == done && (s.p.None? <==> done == [])
  }

  predicate InPatch(s: State, done: seq<Patch>, q: Patch) {
    Quiet(s) && s.srcname.None? && !s.scanning && s.header == [] && s.items == done && s.p == Some(q)
  }

  predicate AtHead(s: State, done: seq<Patch>, q: Patch) {
    InPatch(s, done, q) && q.hunks == [] && s.f == Only(false, false, true, false, false)
  }

  predicate Behind(s: State, done: seq<Patch>, q: Patch) {
    InPatch(s, done, q) && q.hunks != [] && s.f == Only(false, false, false, false, true)
  }

  predicate AtBody(s: State, done: seq<Patch>, q: Patch, h: Hunk) {
    && InPatch(s, done, q) && s.f == Only(false, false, false, true, false) && s.hunk == h
    && s.srcSeen == |SourceSide(h.text)| && s.tgtSeen == |TargetSide(h.text)|
  }

  // ---- one line ----

  lemma {:induction false} ScanStep(s: State, done: seq<Patch>, header: seq<string>, line: string)
    requires AtScan(s, done, header)
    ensures !IsSource(line) ==> AtScan(Step(s, line), done, header + [line])
    ensures IsSource(line) ==>
      if FileName(line).Some? then AtNames(Step(s, line), done, header, FileName(line).value)
      else Step(s, line).errors > 0
  {
    if IsSource(line) {
      SourceIsNoHeader(line);
    }
  }

  lemma {:induction false} NamesStep(s: State, done: seq<Patch>, header: seq<string>, name: string, line: string)
    requires AtNames(s, done, header, name)
    ensures IsSource(line) ==>
      if FileName(line).Some? then AtNames(Step(s, line), done, header, FileName(line).value)
      else Step(s, line).errors > 0
    ensures !IsSource(line) ==>
      if IsTarget(line) && FileName(line).Some?
      then AtHead(Step(s, line), done, Patch(Some(name), FileName(line).value, header, []))
      else Step(s, line).errors > 0
  {
    if IsSource(line) {
      SourceIsNoHeader(line);
    }
  }

  lemma {:induction false} HeadStep(s: State, done: seq<Patch>, q: Patch, line: string)
    requires AtHead(s, done, q)
    ensures match ParseHeader(line)
      case Some(h) => AtBody(Step(s, line), done, q, h)
      case None => Step(s, line).errors > 0
  {
    HeaderIsEmpty(line);
  }

  lemma {:induction false} HeaderIsEmpty(line: string)
    ensures ParseHeader(line).Some? ==> ParseHeader(line).value.text == []
  {
  }

  lemma {:induction false} BehindStep(s: State, done: seq<Patch>, q: Patch, line: string)
    requires Behind(s, done, q)
    ensures HunkStart(line) ==> AtBody(Step(s, line), done, q, ParseHeader(line).value)
    ensures IsSource(line) ==>
      if FileName(line).Some? then AtNames(Step(s, line), done + [q], [], FileName(line).value)
      else Step(s, line).errors > 0
    ensures !HunkStart(line) && !IsSource(line) ==> AtScan(Step(s, line), done + [q], [line])
  {
    HeaderIsEmpty(line);
    if IsSource(line) {
      SourceIsNoHeader(line);
    }
    assert [] + [line] == [line];
  }

  /** Both counts are still within what the header declares. */
  predicate Within(h: Hunk) {
    |SourceSide(h.text)| <= h.linesSrc && |TargetSide(h.text)| <= h.linesTgt
  }

  lemma {:induction false} BodyStep(s: State, done: seq<Patch>, q: Patch, h: Hunk, line: string)
    requires AtBody(s, done, q, h)
    ensures var l := Expand(line);
      var h' := h.(text := h.text + [l]);
      if !BodyLine(l) || !Within(h') then Step(s, line).errors > 0
      else if Met(h', h'.text) then Behind(Step(s, line), done, q.(hunks := q.hunks + [h']))
      else AtBody(Step(s, line), done, q, h')
  {
    var l := Expand(line);
    RegionOf(s, line);
    assert Step(s, line) == Region(s, line);
    if BodyLine(l) {
      SidesGrow(h.text, l);
    }
    AfterGrows(Body(s, l), l);
  }

  lemma {:induction false} ExpandIsSpelled(line: string, l: string)
    ensures BodySpelled(line, l) <==> l == Expand(line) && BodyLine(l)
  {
  }

  // ---- a spelled stream parses ----

  /** Between patches. */
  predicate Boundary(s: State, done: seq<Patch>) {
    if done == [] then AtScan(s, [], []) else Behind(s, done[..|done| - 1], done[|done| - 1])
  }

  lemma {:induction false} ScanRuns(s: State, done: seq<Patch>, header: seq<string>, more: seq<string>)
    requires AtScan(s, done, header) && forall i :: 0 <= i < |more| ==> !IsSource(more[i])
    ensures AtScan(Run(s, more), done, header + more)
    decreases |more|
  {
    if more == [] {
      assert header + more == header;
    } else {
      ScanStep(s, done, header, more[0]);
      ScanRuns(Step(s, more[0]), done, header + [more[0]], more[1..]);
      Assoc(header, [more[0]], more[1..]);
      assert [more[0]] + more[1..] == more;
    }
  }

  lemma {:induction false} BoundaryStep(s: State, done: seq<Patch>, line: string)
    requires Boundary(s, done) && done != []
    ensures !HunkStart(line) && !IsSource(line) ==> AtScan(Step(s, line), done, [line])
    ensures IsSource(line) && FileName(line).Some? ==> AtNames(Step(s, line), done, [], FileName(line).value)
    ensures IsSource(line) && FileName(line).None? ==> Step(s, line).errors > 0
    ensures HunkStart(line) ==>
      AtBody(Step(s, line), done[..|done| - 1], done[|done| - 1], ParseHeader(line).value)
  {
    BehindStep(s, done[..|done| - 1], done[|done| - 1], line);
    assert done[..|done| - 1] + [done[|done| - 1]] == done;
  }

  lemma {:induction false} HeaderRuns(s: State, done: seq<Patch>, header: seq<string>)
    requires Boundary(s, done) && HeaderLines(header, done == []) && (done == [] || header != [])
    ensures AtScan(Run(s, header), done, header)
  {
    if done == [] {
      ScanRuns(s, [], [], header);
      assert [] + header == header;
    } else {
      BoundaryStep(s, done, header[0]);
      ScanRuns(Step(s, header[0]), done, [header[0]], header[1..]);
      assert [header[0]] + header[1..] == header;
    }
  }

  /** A source line behind the header. */
  lemma {:induction false} SourceReads(s: State, done: seq<Patch>, header: seq<string>, line: string)
    requires Boundary(s, done) && HeaderLines(header, done == []) && IsSource(line)
    ensures var r := Run(s, header + [line]);
      if FileName(line).Some? then AtNames(r, done, header, FileName(line).value) else r.errors > 0
  {
    RunMore(s, header, line);
    if done == [] || header != [] {
      HeaderRuns(s, done, header);
      ScanStep(Run(s, header), done, header, line);
    } else {
      BoundaryStep(s, done, line);
    }
  }

  lemma {:induction false} SourceNamed(line: string, name: string)
    ensures NamesSource(line, name) <==> IsSource(line) && FileName(line) == Some(name)
  {
    if |line| >= 4 {
      NameExactly(line, name);
    }
  }

  lemma {:induction false} SourceAgain(s: State, done: seq<Patch>, header: seq<string>, other: string, line: string,
                                       name: string)
    requires AtNames(s, done, header, other) && NamesSource(line, name)
    ensures AtNames(Step(s, line), done, header, name)
  {
    SourceNamed(line, name);
    NamesStep(s, done, header, other, line);
  }

  lemma {:induction false} SkippableSplit(skipped: seq<string>) returns (init: seq<string>, last: string, name: string)
    requires Skippable(skipped) && skipped != []
    ensures skipped == init + [last] && |init| < |skipped| && Skippable(init) && NamesSource(last, name)
  {
    init, last := skipped[..|skipped| - 1], skipped[|skipped| - 1];
    assert HasSource(last);
    name :| NamesSource(last, name);
  }

  /** The last one of several source names counts. */
  lemma {:induction false} SourcesRead(s: State, done: seq<Patch>, header: seq<string>, skipped: seq<string>,
                                       source: string, name: string)
    requires Boundary(s, done) && HeaderLines(header, done == [])
    requires Skippable(skipped) && NamesSource(source, name)
    ensures AtNames(Run(s, header + (skipped + [source])), done, header, name)
    decreases |skipped|
  {
    if skipped == [] {
      assert skipped + [source] == [source];
      SourceNamed(source, name);
      SourceReads(s, done, header, source);
    } else {
      var init, last, other := SkippableSplit(skipped);
      SourcesRead(s, done, header, init, last, other);
      Assoc(header, skipped, [source]);
      RunMore(s, header + skipped, source);
      SourceAgain(Run(s, header + skipped), done, header, other, source, name);
    }
  }

  lemma {:induction false} NamesRead(s: State, done: seq<Patch>, t: PatchForm, q: Patch)
    requires Boundary(s, done) && SpellsNames(t, q, done == [])
    ensures AtHead(Run(s, BeforeTarget(t) + [t.target]), done, q.(hunks := []))
  {
    SourcesRead(s, done, t.header, t.skipped, t.source, q.source.value);
    RunMore(s, BeforeTarget(t), t.target);
    NamesStep(Run(s, BeforeTarget(t)), done, t.header, q.source.value, t.target);
    NameExactly(t.target, q.target);
    assert !IsSource(t.target) by { assert t.target[0] == '+'; }
  }

  /** Inside a patch, where a hunk may begin. */
  predicate Ready(s: State, done: seq<Patch>, q: Patch) {
    if q.hunks == [] then AtHead(s, done, q) else Behind(s, done, q)
  }

  lemma {:induction false} HunkBegins(s: State, done: seq<Patch>, q: Patch, line: string, h: Hunk)
    requires Ready(s, done, q) && ParseHeader(line) == Some(h)
    ensures AtBody(Step(s, line), done, q, h)
  {
    if q.hunks == [] {
      HeadStep(s, done, q, line);
    } else {
      BehindStep(s, done, q, line);
    }
  }

  /** The hunk with the first `n` lines of its text. */
  function Begun(h: Hunk, n: nat): Hunk
    requires n <= |h.text|
  {
    h.(text := h.text[..n])
  }

  lemma {:induction false} SidesMonotone(text: seq<string>, n: nat)
    requires n <= |text|
    ensures |SourceSide(text[..n])| <= |SourceSide(text)| && |TargetSide(text[..n])| <= |TargetSide(text)|
  {
    assert text == text[..n] + text[n..];
    SideAppend(text[..n], text[n..], '-');
    SideAppend(text[..n], text[n..], '+');
  }

  lemma {:induction false} BodyReads(s: State, done: seq<Patch>, q: Patch, body: seq<string>, h: Hunk, n: nat)
    requires AtBody(s, done, q, Begun(h, 0)) && BodyLines(body, h.text) && Complete(h) && n <= |body|
    ensures n < |body| ==> AtBody(Run(s, body[..n]), done, q, Begun(h, n))
    ensures n == |body| ==> Behind(Run(s, body), done, q.(hunks := q.hunks + [h]))
  {
    if n == 0 {
      assert body[..0] == [];
    } else {
      BodyReads(s, done, q, body, h, n - 1);
      assert body[..n] == body[..n - 1] + [body[n - 1]];
      RunMore(s, body[..n - 1], body[n - 1]);
      BodyReadsOne(Run(s, body[..n - 1]), done, q, body, h, n);
      if n == |body| {
        assert body[..n] == body;
      }
    }
  }

  lemma {:induction false} BodyReadsOne(s: State, done: seq<Patch>, q: Patch, body: seq<string>, h: Hunk, n: nat)
    requires BodyLines(body, h.text) && Complete(h) && 0 < n <= |body|
    requires AtBody(s, done, q, Begun(h, n - 1))
    ensures var r := Step(s, body[n - 1]);
      if n < |body| then AtBody(r, done, q, Begun(h, n)) else Behind(r, done, q.(hunks := q.hunks + [h]))
  {
    ExpandIsSpelled(body[n - 1], h.text[n - 1]);
    assert h.text[..n] == h.text[..n - 1] + [h.text[n - 1]];
    SidesMonotone(h.text, n);
    BodyStep(s, done, q, Begun(h, n - 1), body[n - 1]);
    assert h.text[..|h.text|] == h.text;
  }

  lemma {:induction false} HunkReads(s: State, done: seq<Patch>, q: Patch, t: HunkForm, h: Hunk)
    requires Ready(s, done, q) && SpellsHunk(t, h)
    ensures Ready(Run(s, OfHunk(t)), done, q.(hunks := q.hunks + [h]))
  {
    HeaderExactly(t.head, h.(text := []));
    HunkBegins(s, done, q, t.head, h.(text := []));
    assert h.text[..0] == [];
    BodyReads(Step(s, t.head), done, q, t.body, h, |t.body|);
    RunAppend(s, [t.head], t.body);
    RunOne(s, t.head);
  }

  lemma {:induction false} HunkFollows(s: State, done: seq<Patch>, q: Patch, before: seq<string>, hunks: seq<Hunk>,
                                       t: HunkForm, h: Hunk)
    requires Ready(Run(s, before), done, q.(hunks := hunks)) && SpellsHunk(t, h)
    ensures Ready(Run(s, before + OfHunk(t)), done, q.(hunks := hunks + [h]))
  {
    RunAppend(s, before, OfHunk(t));
    HunkReads(Run(s, before), done, q.(hunks := hunks), t, h);
  }

  lemma {:induction false} SpellsHunksSplit(ts: seq<HunkForm>, hunks: seq<Hunk>)
    requires SpellsHunks(ts, hunks) && ts != []
    ensures var n := |ts| - 1;
      && |hunks| == |ts| && hunks == hunks[..n] + [hunks[n]]
      && SpellsHunks(ts[..n], hunks[..n]) && SpellsHunk(ts[n], hunks[n])
      && OfHunks(ts) == OfHunks(ts[..n]) + OfHunk(ts[n])
  {
  }

  lemma {:induction false} HunksRead(s: State, done: seq<Patch>, q: Patch, ts: seq<HunkForm>, hunks: seq<Hunk>)
    requires AtHead(s, done, q) && SpellsHunks(ts, hunks)
    ensures Ready(Run(s, OfHunks(ts)), done, q.(hunks := hunks))
    decreases |ts|
  {
    if ts != [] {
      var n := |ts| - 1;
      SpellsHunksSplit(ts, hunks);
      HunksRead(s, done, q, ts[..n], hunks[..n]);
      HunkFollows(s, done, q, OfHunks(ts[..n]), hunks[..n], ts[n], hunks[n]);
    }
  }

  lemma {:induction false} PatchReads(s: State, done: seq<Patch>, t: PatchForm, q: Patch)
    requires Boundary(s, done) && SpellsPatch(t, q, done == [])
    ensures Boundary(Run(s, OfPatch(t)), done + [q])
  {
    var names := BeforeTarget(t) + [t.target];
    NamesRead(s, done, t, q);
    HunksRead(Run(s, names), done, q.(hunks := []), t.hunks, q.hunks);
    RunAppend(s, names, OfHunks(t.hunks));
    assert q.(hunks := []).(hunks := q.hunks) == q;
    assert (done + [q])[..|done|] == done;
  }

  lemma {:induction false} PatchFollows(before: seq<string>, done: seq<Patch>, t: PatchForm, q: Patch)
    requires Boundary(Run(INIT, before), done) && SpellsPatch(t, q, done == [])
    ensures Boundary(Run(INIT, before + OfPatch(t)), done + [q])
  {
    RunAppend(INIT, before, OfPatch(t));
    PatchReads(Run(INIT, before), done, t, q);
  }

  lemma {:induction false} SpellsInit(ts: seq<PatchForm>, items: seq<Patch>, n: nat)
    requires Spells(ts, items) && n <= |ts|
    ensures n <= |items| && Spells(ts[..n], items[..n])
  {
  }

  lemma {:induction false} SpellsLast(ts: seq<PatchForm>, items: seq<Patch>, n: nat)
    requires Spells(ts, items) && n < |ts|
    ensures n < |items| && SpellsPatch(ts[n], items[n], n == 0)
  {
  }

  lemma {:induction false} PatchesSplit(ts: seq<PatchForm>, items: seq<Patch>, n: nat)
    requires |ts| == |items| == n + 1
    ensures OfPatches(ts) == OfPatches(ts[..n]) + OfPatch(ts[n]) && items == items[..n] + [items[n]]
  {
  }

  lemma {:induction false} PatchesRead(ts: seq<PatchForm>, items: seq<Patch>)
    requires Spells(ts, items)
    ensures Boundary(Run(INIT, OfPatches(ts)), items)
    decreases |ts|
  {
    if ts != [] {
      var n := |ts| - 1;
      SpellsInit(ts, items, n);
      SpellsLast(ts, items, n);
      PatchesSplit(ts, items, n);
      PatchesRead(ts[..n], items[..n]);
      PatchFollows(OfPatches(ts[..n]), items[..n], ts[n], items[n]);
    }
  }

  lemma {:induction false} TrailEnds(s: State, items: seq<Patch>, trail: seq<string>)
    requires Boundary(s, items) && items != [] && HeaderLines(trail, false)
    ensures End(Run(s, trail)) == Result(true, items, 0)
  {
    if trail != [] {
      HeaderRuns(s, items, trail);
    } else {
      assert items[..|items| - 1] + [items[|items| - 1]] == items;
    }
  }

  /** A spelled stream parses to what it spells. */
  lemma {:induction false} SpelledParses(lines: seq<string>, ts: seq<PatchForm>, trail: seq<string>,
                                         items: seq<Patch>)
    requires SpellsStream(lines, ts, trail, items) && items != []
    ensures Parse(lines) == Result(true, items, 0)
  {
    PatchesRead(ts, items);
    RunAppend(INIT, OfPatches(ts), trail);
    TrailEnds(Run(INIT, OfPatches(ts)), items, trail);
  }

  /** The same without lines behind the last hunk. */
  lemma {:induction false} FormsParse(ts: seq<PatchForm>, items: seq<Patch>)
    requires Spells(ts, items) && items != []
    ensures Parse(OfPatches(ts)) == Result(true, items, 0)
  {
    assert OfPatches(ts) + [] == OfPatches(ts);
    SpelledParses(OfPatches(ts), ts, [], items);
  }

  // ---- whatever parses is spelled ----

  /** What the lines read so far spell. */
  datatype Progress =
    | Scanning(ts: seq<PatchForm>, done: seq<Patch>, header: seq<string>)
    | Naming(ts: seq<PatchForm>, done: seq<Patch>, header: seq<string>, skipped: seq<string>, source: string,
             name: string)
    | Inside(ts: seq<PatchForm>, done: seq<Patch>, t: PatchForm, q: Patch)
    | Hunking(ts: seq<PatchForm>, done: seq<Patch>, t: PatchForm, q: Patch, g: HunkForm, h: Hunk)

  function Consumed(pr: Progress): seq<string> {
    match pr
    case Scanning(ts, _, header) => OfPatches(ts) + header
    case Naming(ts, _, header, skipped, source, _) => OfPatches(ts) + (header + (skipped + [source]))
    case Inside(ts, _, t, _) => OfPatches(ts) + OfPatch(t)
    case Hunking(ts, _, t, _, g, _) => OfPatches(ts) + (OfPatch(t) + OfHunk(g))
  }

  /** A hunk whose last lines are still to come. */
  ghost predicate PartHunkSpelled(g: HunkForm, h: Hunk) {
    && HeaderSpelled(g.head, h.(text := [])) && BodyLines(g.body, h.text)
    && Within(h) && forall n :: 0 < n <= |h.text| ==> !Met(h, h.text[..n])
  }

  ghost predicate Fits(s: State, pr: Progress) {
    Spells(pr.ts, pr.done) &&
    match pr
    case Scanning(_, done, header) => AtScan(s, done, header) && HeaderLines(header, done == [])
    case Naming(_, done, header, skipped, source, name) =>
      && AtNames(s, done, header, name) && HeaderLines(header, done == [])
      && Skippable(skipped) && NamesSource(source, name)
    case Inside(_, done, t, q) =>
      Ready(s, done, q) && SpellsNames(t, q, done == []) && SpellsHunks(t.hunks, q.hunks)
    case Hunking(_, done, t, q, g, h) =>
      && AtBody(s, done, q, h) && SpellsNames(t, q, done == []) && SpellsHunks(t.hunks, q.hunks)
      && PartHunkSpelled(g, h)
  }

  lemma {:induction false} Scanned(s: State, pr: Progress, line: string) returns (r: Progress)
    requires pr.Scanning? && Fits(s, pr) && Step(s, line).errors == 0
    requires pr.done != [] ==> pr.header != []
    ensures Fits(Step(s, line), r) && Consumed(r) == Consumed(pr) + [line]
    ensures r.Scanning? ==> r.header != []
  {
    ScanStep(s, pr.done, pr.header, line);
    if IsSource(line) {
      var name := FileName(line).value;
      SourceNamed(line, name);
      r := Naming(pr.ts, pr.done, pr.header, [], line, name);
      assert [] + [line] == [line];
    } else {
      r := Scanning(pr.ts, pr.done, pr.header + [line]);
    }
    Assoc(OfPatches(pr.ts), pr.header, [line]);
  }

  lemma {:induction false} SkippableMore(skipped: seq<string>, line: string, name: string)
    requires Skippable(skipped) && NamesSource(line, name)
    ensures Skippable(skipped + [line])
  {
    assert HasSource(line);
  }

  lemma {:induction false} Renamed(s: State, pr: Progress, line: string) returns (r: Progress)
    requires pr.Naming? && Fits(s, pr) && IsSource(line) && Step(s, line).errors == 0
    ensures Fits(Step(s, line), r) && Consumed(r) == Consumed(pr) + [line] && r.Naming?
  {
    NamesStep(s, pr.done, pr.header, pr.name, line);
    var name := FileName(line).value;
    SourceNamed(line, name);
    SkippableMore(pr.skipped, pr.source, pr.name);
    r := Naming(pr.ts, pr.done, pr.header, pr.skipped + [pr.source], line, name);
    Assoc(pr.header, pr.skipped + [pr.source], [line]);
    Assoc(OfPatches(pr.ts), pr.header + (pr.skipped + [pr.source]), [line]);
  }

  lemma {:induction false} Targeted(s: State, pr: Progress, line: string) returns (r: Progress)
    requires pr.Naming? && Fits(s, pr) && !IsSource(line) && Step(s, line).errors == 0
    ensures Fits(Step(s, line), r) && Consumed(r) == Consumed(pr) + [line] && r.Inside?
  {
    NamesStep(s, pr.done, pr.header, pr.name, line);
    var target := FileName(line).value;
    NameExactly(line, target);
    var t := PatchForm(pr.header, pr.skipped, pr.source, line, []);
    r := Inside(pr.ts, pr.done, t, Patch(Some(pr.name), target, pr.header, []));
    assert OfPatch(t) == BeforeTarget(t) + [line];
    Assoc(OfPatches(pr.ts), BeforeTarget(t), [line]);
  }

  lemma {:induction false} HeadIsSpelled(line: string)
    requires HunkStart(line)
    ensures ParseHeader(line).value.text == [] && PartHunkSpelled(HunkForm(line, []), ParseHeader(line).value)
  {
    var h := ParseHeader(line).value;
    HeaderIsEmpty(line);
    HeaderExactly(line, h);
    assert h.(text := []) == h;
  }

  lemma {:induction false} HunkEntered(s: State, pr: Progress, line: string) returns (r: Progress)
    requires pr.Inside? && Fits(s, pr) && HunkStart(line)
    ensures Fits(Step(s, line), r) && Consumed(r) == Consumed(pr) + [line] && r.Hunking?
  {
    var h := ParseHeader(line).value;
    HunkBegins(s, pr.done, pr.q, line, h);
    HeadIsSpelled(line);
    r := Hunking(pr.ts, pr.done, pr.t, pr.q, HunkForm(line, []), h);
    assert OfHunk(r.g) == [line];
    Assoc(OfPatches(pr.ts), OfPatch(pr.t), [line]);
  }

  lemma {:induction false} SpellsMore(ts: seq<PatchForm>, items: seq<Patch>, t: PatchForm, q: Patch)
    requires Spells(ts, items) && SpellsPatch(t, q, items == [])
    ensures Spells(ts + [t], items + [q]) && OfPatches(ts + [t]) == OfPatches(ts) + OfPatch(t)
  {
    assert (ts + [t])[..|ts|] == ts;
  }

  lemma {:induction false} PatchIsDone(s: State, pr: Progress, line: string)
    requires pr.Inside? && Fits(s, pr) && !HunkStart(line) && Step(s, line).errors == 0
    ensures Behind(s, pr.done, pr.q)
    ensures Spells(pr.ts + [pr.t], pr.done + [pr.q])
    ensures OfPatches(pr.ts + [pr.t]) == Consumed(pr)
  {
    if pr.q.hunks == [] {
      HeadStep(s, pr.done, pr.q, line);
    }
    SpellsMore(pr.ts, pr.done, pr.t, pr.q);
  }

  lemma {:induction false} PatchLeft(s: State, pr: Progress, line: string) returns (r: Progress)
    requires pr.Inside? && Fits(s, pr) && !HunkStart(line) && Step(s, line).errors == 0
    ensures Fits(Step(s, line), r) && Consumed(r) == Consumed(pr) + [line]
    ensures r.Scanning? ==> r.header != []
  {
    PatchIsDone(s, pr, line);
    r := PatchBehind(s, pr.ts + [pr.t], pr.done + [pr.q], line);
  }

  lemma {:induction false} PatchBehind(s: State, ts: seq<PatchForm>, done: seq<Patch>, line: string)
    returns (r: Progress)
    requires done != [] && Boundary(s, done) && Spells(ts, done)
    requires !HunkStart(line) && Step(s, line).errors == 0
    ensures Fits(Step(s, line), r) && Consumed(r) == OfPatches(ts) + [line]
    ensures r.Scanning? ==> r.header != []
  {
    BoundaryStep(s, done, line);
    if IsSource(line) {
      var name := FileName(line).value;
      SourceNamed(line, name);
      r := Naming(ts, done, [], [], line, name);
      assert [] + ([] + [line]) == [line];
    } else {
      r := Scanning(ts, done, [line]);
    }
  }

  lemma {:induction false} BodyExtends(g: HunkForm, h: Hunk, line: string, l: string)
    requires PartHunkSpelled(g, h) && BodySpelled(line, l)
    ensures var g', h' := g.(body := g.body + [line]), h.(text := h.text + [l]);
      && HeaderSpelled(g'.head, h'.(text := [])) && BodyLines(g'.body, h'.text)
      && (Met(h', h'.text) ==> Complete(h'))
      && (Within(h') && !Met(h', h'.text) ==> PartHunkSpelled(g', h'))
  {
    var h' := h.(text := h.text + [l]);
    forall n | 0 < n < |h'.text| ensures !Met(h', h'.text[..n]) {
      assert h'.text[..n] == h.text[..n];
      assert !Met(h, h.text[..n]);
    }
    assert h'.text[..|h'.text|] == h'.text;
    assert h'.(text := []) == h.(text := []);
  }

  lemma {:induction false} SpellsHunkMore(ts: seq<HunkForm>, hunks: seq<Hunk>, g: HunkForm, h: Hunk)
    requires SpellsHunks(ts, hunks) && SpellsHunk(g, h)
    ensures SpellsHunks(ts + [g], hunks + [h]) && OfHunks(ts + [g]) == OfHunks(ts) + OfHunk(g)
  {
    assert (ts + [g])[..|ts|] == ts;
  }

  lemma {:induction false} Counted(s: State, pr: Progress, line: string) returns (r: Progress)
    requires pr.Hunking? && Fits(s, pr) && Step(s, line).errors == 0
    ensures Fits(Step(s, line), r) && Consumed(r) == Consumed(pr) + [line]
    ensures !r.Scanning?
  {
    var l := Expand(line);
    BodyStep(s, pr.done, pr.q, pr.h, line);
    ExpandIsSpelled(line, l);
    BodyExtends(pr.g, pr.h, line, l);
    var g, h := pr.g.(body := pr.g.body + [line]), pr.h.(text := pr.h.text + [l]);
    assert OfHunk(g) == OfHunk(pr.g) + [line];
    var names := BeforeTarget(pr.t) + [pr.t.target];
    if Met(h, h.text) {
      SpellsHunkMore(pr.t.hunks, pr.q.hunks, g, h);
      r := Inside(pr.ts, pr.done, pr.t.(hunks := pr.t.hunks + [g]), pr.q.(hunks := pr.q.hunks + [h]));
      Assoc(names, OfHunks(pr.t.hunks), OfHunk(g));
      assert OfPatch(r.t) == OfPatch(pr.t) + OfHunk(g);
    } else {
      r := Hunking(pr.ts, pr.done, pr.t, pr.q, g, h);
    }
    Assoc(OfPatch(pr.t), OfHunk(pr.g), [line]);
    Assoc(OfPatches(pr.ts), OfPatch(pr.t) + OfHunk(pr.g), [line]);
  }

  lemma {:induction false} Progresses(s: State, pr: Progress, line: string) returns (r: Progress)
    requires Fits(s, pr) && (pr.Scanning? && pr.done != [] ==> pr.header != []) && Step(s, line).errors == 0
    ensures Fits(Step(s, line), r) && Consumed(r) == Consumed(pr) + [line]
    ensures r.Scanning? ==> r.header != []
  {
    match pr
    case Scanning(_, _, _) => r := Scanned(s, pr, line);
    case Naming(_, _, _, _, _, _) =>
      if IsSource(line) {
        r := Renamed(s, pr, line);
      } else {
        r := Targeted(s, pr, line);
      }
    case Inside(_, _, _, _) =>
      if HunkStart(line) {
        r := HunkEntered(s, pr, line);
      } else {
        r := PatchLeft(s, pr, line);
      }
    case Hunking(_, _, _, _, _, _) => r := Counted(s, pr, line);
  }

  lemma {:induction false} ErrorsStay(s: State, lines: seq<string>)
    ensures Run(s, lines).errors >= s.errors
    decreases |lines|
  {
    if lines != [] {
      StepSplit(s, lines[0]);
      ErrorsStay(Step(s, lines[0]), lines[1..]);
    }
  }

  /** As long as there was no error, the lines read spell what was built. */
  lemma {:induction false} RunProgress(lines: seq<string>) returns (pr: Progress)
    requires Run(INIT, lines).errors == 0
    ensures Fits(Run(INIT, lines), pr) && Consumed(pr) == lines
    ensures pr.Scanning? && pr.done != [] ==> pr.header != []
    decreases |lines|
  {
    if lines == [] {
      pr := Scanning([], [], []);
    } else {
      var init, line := lines[..|lines| - 1], lines[|lines| - 1];
      assert lines == init + [line];
      RunMore(INIT, init, line);
      StepSplit(Run(INIT, init), line);
      var before := RunProgress(init);
      pr := Progresses(Run(INIT, init), before, line);
    }
  }

  lemma {:induction false} EndTells(s: State, pr: Progress)
    requires Fits(s, pr) && End(s).ok
    ensures pr.Scanning? ==> pr.done != [] && End(s) == Result(true, pr.done, 0)
    ensures pr.Inside? ==> pr.q.hunks != [] && End(s) == Result(true, pr.done + [pr.q], 0)
    ensures pr.Scanning? || pr.Inside?
  {
  }

  lemma {:induction false} EndIsSpelled(lines: seq<string>, pr: Progress) returns (ts: seq<PatchForm>,
      trail: seq<string>, items: seq<Patch>)
    requires Fits(Run(INIT, lines), pr) && End(Run(INIT, lines)).ok && Consumed(pr) == lines
    requires pr.Scanning? && pr.done != [] ==> pr.header != []
    ensures End(Run(INIT, lines)) == Result(true, items, 0) && items != []
    ensures SpellsStream(lines, ts, trail, items)
  {
    EndTells(Run(INIT, lines), pr);
    if pr.Scanning? {
      ts, trail, items := pr.ts, pr.header, pr.done;
    } else {
      SpellsMore(pr.ts, pr.done, pr.t, pr.q);
      ts, trail, items := pr.ts + [pr.t], [], pr.done + [pr.q];
      assert OfPatches(ts) + [] == OfPatches(ts);
    }
  }

  lemma {:induction false} ParsedIsSpelled(lines: seq<string>) returns (ts: seq<PatchForm>, trail: seq<string>)
    requires Parse(lines).ok
    ensures Parse(lines) == Result(true, Parse(lines).items, 0) && Parse(lines).items != []
    ensures SpellsStream(lines, ts, trail, Parse(lines).items)
  {
    var items: seq<Patch>;
    var pr := RunProgress(lines);
    ts, trail, items := EndIsSpelled(lines, pr);
  }

  /** The parser accepts exactly the streams that spell some patches, and gives
      these, without an error. */
  lemma {:induction false} ParseExactly(lines: seq<string>, items: seq<Patch>)
    ensures Parse(lines) == Result(true, items, 0)
       <==> items != [] && exists ts, trail :: SpellsStream(lines, ts, trail, items)
  {
    if Parse(lines) == Result(true, items, 0) {
      var ts, trail := ParsedIsSpelled(lines);
    }
    if items != [] && exists ts, trail :: SpellsStream(lines, ts, trail, items) {
      var ts, trail :| SpellsStream(lines, ts, trail, items);
      SpelledParses(lines, ts, trail, items);
    }
  }
}
