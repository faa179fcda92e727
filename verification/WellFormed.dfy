/** What a parse without errors has built. */
module WellFormed {
  import opened Lines
  import opened Strings
  import opened Wrappers
  import opened Hunks
  import opened PatchLines
  import opened PatchParser
  import opened ParserFacts

  /** The text so far holds exactly the lines the header declares. */
  predicate Met(h: Hunk, text: seq<string>) {
    |SourceSide(text)| == h.linesSrc && |TargetSide(text)| == h.linesTgt
  }

  predicate SingleLines(lines: seq<string>) {
    forall i :: 0 <= i < |lines| ==> SingleLine(lines[i])
  }

  /** Valid lines whose counts equal the declared ranges, ending at the first
      line where they do. */
  predicate GoodHunk(h: Hunk) {
    && !h.invalid
    && h.text != [] && ValidText(h.text) && SingleLines(h.text)
    && Met(h, h.text)
    && forall n :: 0 < n < |h.text| ==> !Met(h, h.text[..n])
  }

  /** A name that survives being written on a line and read again. */
  predicate CleanName(name: string) {
    && (forall i :: 0 <= i < |name| ==> name[i] != '\t' && name[i] != '\n')
    && (name != "" ==> !IsSpace(name[0]) && !IsSpace(name[|name| - 1]))
  }

  /** Header lines are read as such: none looks like a source name, and the first
      one after a hunk does not look like another hunk. */
  predicate GoodHeader(header: seq<string>, first: bool) {
    && SingleLines(header)
    && (forall i :: 0 <= i < |header| ==> !IsSource(header[i]))
    && (!first && header != [] ==> !HunkStart(header[0]))
  }

  predicate GoodNames(q: Patch, first: bool) {
    && q.source.Some? && CleanName(q.source.value) && CleanName(q.target)
    && GoodHeader(q.header, first)
  }

  predicate GoodHunks(hunks: seq<Hunk>) {
    forall k :: 0 <= k < |hunks| ==> GoodHunk(hunks[k])
  }

  predicate GoodPatch(q: Patch, first: bool) {
    GoodNames(q, first) && q.hunks != [] && GoodHunks(q.hunks)
  }

  predicate GoodItems(items: seq<Patch>) {
    forall i :: 0 <= i < |items| ==> GoodPatch(items[i], i == 0)
  }

  // ---- names ----

  lemma {:induction false} StripLeftSlice(s: string) returns (k: nat)
    ensures k <= |s| && StripLeft(s) == s[k..]
    ensures k < |s| ==> !IsSpace(s[k])
  {
    k := 0;
    if s != "" && IsSpace(s[0]) {
      k := StripLeftSlice(s[1..]);
      k := k + 1;
    }
  }

  lemma {:induction false} StripRightSlice(s: string) returns (k: nat)
    ensures k <= |s| && StripRight(s) == s[..k]
    ensures k > 0 ==> !IsSpace(s[k - 1])
  {
    k := |s|;
    if s != "" && IsSpace(s[|s| - 1]) {
      k := StripRightSlice(s[..|s| - 1]);
    } else {
      assert s[..|s|] == s;
    }
  }

  lemma {:induction false} StripIsClean(s: string)
    requires SingleLine(s) && forall i :: 0 <= i < |s| ==> s[i] != '\t'
    ensures CleanName(Strip(s))
  {
    var a := StripLeftSlice(s);
    var b := StripRightSlice(s[a..]);
    var n := Strip(s);
    assert n == s[a..a + b];
    forall i | 0 <= i < |n| ensures n[i] != '\t' && n[i] != '\n' {
      assert n[i] == s[a + i];
      if i == |n| - 1 { assert !IsSpace(n[i]); }
    }
    if n != "" {
      assert n[0] == s[a];
      assert n[|n| - 1] == s[a..][b - 1];
    }
  }

  lemma {:induction false} FileNameClean(line: string)
    requires |line| >= 4 && SingleLine(line) && FileName(line).Some?
    ensures CleanName(FileName(line).value)
  {
    var rest := line[4..];
    var n := Span(rest, NotTab);
    if !EpochStamp(rest[n..]) {
      assert SingleLine(rest[..n]) by {
        forall i | 0 <= i < n - 1 ensures rest[..n][i] != '\n' { assert rest[..n][i] == line[4 + i]; }
      }
      StripIsClean(rest[..n]);
    }
  }

  // ---- the invariant of runs without errors ----

  /** The hunk in progress. */
  predicate PartHunk(s: State) {
    && !s.hunk.invalid
    && ValidText(s.hunk.text) && SingleLines(s.hunk.text)
    && s.srcSeen == |SourceSide(s.hunk.text)| && s.tgtSeen == |TargetSide(s.hunk.text)|
    && forall n :: 0 < n <= |s.hunk.text| ==> !Met(s.hunk, s.hunk.text[..n])
  }

  predicate GoodCurrent(s: State) {
    match s.p
    case None => s.items == [] && !s.f.hunkparsed
    case Some(q) =>
      && GoodNames(q, s.items == []) && GoodHunks(q.hunks)
      && (q.hunks != [] || s.f.hunkhead || s.f.hunkbody)
  }

  predicate GoodBuffers(s: State) {
    && GoodHeader(s.header, s.p.None?)
    && (s.srcname.Some? ==> CleanName(s.srcname.value))
    && (s.f.hunkhead || s.f.hunkbody || s.f.hunkparsed ==> s.header == [])
    && (s.f.headscan && s.p.Some? ==> s.header != [])
  }

  predicate Clean(s: State) {
    && !s.f.hunkskip
    && GoodItems(s.items)
    && GoodCurrent(s)
    && GoodBuffers(s)
    && (s.f.hunkbody ==> PartHunk(s))
  }

  lemma {:induction false} GoodItemsAppend(items: seq<Patch>, q: Patch)
    requires GoodItems(items) && GoodPatch(q, items == [])
    ensures GoodItems(items + [q])
  {
    var all := items + [q];
    forall i | 0 <= i < |all| ensures GoodPatch(all[i], i == 0) {
      if i < |items| { assert all[i] == items[i]; }
    }
  }

  lemma {:induction false} GoodHunksAppend(hunks: seq<Hunk>, h: Hunk)
    requires GoodHunks(hunks) && GoodHunk(h)
    ensures GoodHunks(hunks + [h])
  {
  }

  lemma {:induction false} SidesGrow(text: seq<string>, line: string)
    requires line != ""
    ensures |SourceSide(text + [line])| == |SourceSide(text)| + (if line[0] == '-' || line[0] == ' ' then 1 else 0)
    ensures |TargetSide(text + [line])| == |TargetSide(text)| + (if line[0] == '+' || line[0] == ' ' then 1 else 0)
  {
    SideAppend(text, [line], '-');
    SideAppend(text, [line], '+');
    assert [line][1..] == [];
  }

  /** A line counted into the hunk in progress. */
  lemma {:induction false} CountKeeps(s: State, line: string)
    requires PartHunk(s) && BodyLine(line) && SingleLine(line)
    ensures var c := CountLine(s, line);
      && !c.hunk.invalid && ValidText(c.hunk.text) && SingleLines(c.hunk.text)
      && c.srcSeen == |SourceSide(c.hunk.text)| && c.tgtSeen == |TargetSide(c.hunk.text)|
      && (forall n :: 0 < n < |c.hunk.text| ==> !Met(c.hunk, c.hunk.text[..n]))
      && (!Met(c.hunk, c.hunk.text) ==> PartHunk(c))
  {
    SidesGrow(s.hunk.text, line);
    var c := CountLine(s, line);
    forall n | 0 < n < |c.hunk.text| ensures !Met(c.hunk, c.hunk.text[..n]) {
      assert c.hunk.text[..n] == s.hunk.text[..n];
      assert !Met(s.hunk, s.hunk.text[..n]);
    }
    assert c.hunk.text[..|c.hunk.text|] == c.hunk.text;
  }

  lemma {:induction false} BodyClean(s: State, line: string)
    requires Clean(s) && s.f == Flags(false, false, false, true, false, false) && SingleLine(line)
    requires s.p.Some? && Body(s, line).errors == s.errors
    ensures Clean(Body(s, line))
  {
    if BodyLine(line) {
      CountKeeps(s, line);
      var c := CountLine(s, line);
      if c.srcSeen == c.hunk.linesSrc && c.tgtSeen == c.hunk.linesTgt {
        assert GoodHunk(c.hunk);
        GoodHunksAppend(s.p.value.hunks, c.hunk);
      }
    }
  }

  lemma {:induction false} NamesClean(s: State, line: string)
    requires Clean(s) && !s.f.headscan && s.f.filenames && !s.f.hunkhead && !s.f.hunkbody && !s.f.hunkparsed
    requires SingleLine(line) && Names(s, line).0.errors == s.errors
    requires !IsSource(line) ==> s.srcname.Some?
    ensures Clean(Names(s, line).0)
  {
    if IsSource(line) {
      if FileName(line).Some? {
        FileNameClean(line);
      }
    } else if IsTarget(line) && s.tgtname.None? && FileName(line).Some? {
      FileNameClean(line);
      if s.p.Some? {
        GoodItemsAppend(s.items, s.p.value);
      }
    }
  }

  lemma {:induction false} HeadClean(s: State, line: string)
    requires Clean(s) && !s.f.headscan && !s.f.filenames && s.f.hunkhead && !s.f.hunkbody && !s.f.hunkparsed
    requires s.p.Some? && (HunkStart(line) || s.p.value.hunks == [])
    requires HunkHead(s, ParseHeader(line)).errors == s.errors
    ensures Clean(HunkHead(s, ParseHeader(line)))
  {
  }

  lemma {:induction false} BodyGrows(s: State, line: string)
    ensures Body(s, line).errors >= s.errors
  {
  }

  lemma {:induction false} TargetGrows(s: State, name: Option<string>)
    ensures TargetName(s, name).0.errors >= s.errors
    ensures SourceName(s, name).errors >= s.errors
    ensures NoTarget(s).errors >= s.errors
  {
  }

  lemma {:induction false} HeadGrows(s: State, header: Option<Hunk>)
    ensures HunkHead(s, header).errors >= s.errors
  {
  }

  lemma {:induction false} NamesGrow(s: State, line: string)
    ensures Names(s, line).0.errors >= s.errors
  {
    if |line| >= 4 {
      TargetGrows(s, FileName(line));
    }
    TargetGrows(s, None);
  }

  lemma {:induction false} AfterGrows(s: State, line: string)
    ensures AfterBody(s, line).errors >= s.errors
  {
    var s1 := Skip(s, line);
    assert s1.errors == s.errors;
    NamesGrow(s1, line);
    var (s2, done) := if s1.f.filenames then Names(s1, line) else (s1, false);
    HeadGrows(s2, ParseHeader(line));
  }

  lemma {:induction false} RegionGrows(s: State, line: string)
    ensures Region(s, line).errors >= s.errors
    ensures s.f.hunkbody ==> Region(s, line).errors >= Body(s, Expand(line)).errors
  {
    if s.f.hunkbody {
      BodyGrows(s, Expand(line));
      AfterGrows(Body(s, Expand(line)), Expand(line));
    } else {
      AfterGrows(s, line);
    }
  }

  lemma {:induction false} AfterClean(s: State, line: string)
    requires Clean(s) && AtRegions(s, line) && !s.f.hunkbody && SingleLine(line)
    requires AfterBody(s, line).errors == s.errors
    ensures Clean(AfterBody(s, line))
  {
    AfterIs(s, line);
    if s.f.filenames {
      NamesClean(s, line);
    } else if s.f.hunkhead {
      HeadClean(s, line);
    }
  }

  lemma {:induction false} NamesDone(s: State, line: string)
    requires !s.f.hunkhead
    ensures Names(s, line).1 || !Names(s, line).0.f.hunkhead
  {
  }

  lemma {:induction false} AfterIs(s: State, line: string)
    requires !s.f.hunkskip && !(s.f.filenames && s.f.hunkhead)
    ensures s.f.filenames ==> AfterBody(s, line) == Names(s, line).0
    ensures !s.f.filenames && s.f.hunkhead ==> AfterBody(s, line) == HunkHead(s, ParseHeader(line))
    ensures !s.f.filenames && !s.f.hunkhead ==> AfterBody(s, line) == s
  {
    assert Skip(s, line) == s;
    if s.f.filenames {
      NamesDone(s, line);
    }
  }

  /** The state where the regions begin, for the line that `Step` reads. */
  function Entered(s: State, line: string): State {
    var s := Decide(s, line);
    if s.f.headscan then s.(scanning := false, f := s.f.(headscan := false, filenames := true)) else s
  }

  lemma {:induction false} EnteredClean(s: State, line: string)
    requires Clean(s) && Disciplined(s) && (Decide(s, line).f.headscan ==> IsSource(line))
    ensures Clean(Entered(s, line)) && AtRegions(Entered(s, line), line)
  {
    if IsSource(line) {
      SourceIsNoHeader(line);
    }
  }

  lemma {:induction false} RegionClean(s: State, line: string)
    requires Clean(s) && AtRegions(s, line) && SingleLine(line)
    requires Region(s, line).errors == s.errors
    ensures Clean(Region(s, line))
  {
    if s.f.hunkbody {
      var l := Expand(line);
      RegionGrows(s, line);
      BodyGrows(s, l);
      BodyDisciplined(s, l);
      BodyClean(s, l);
      if !Body(s, l).f.hunkparsed {
        assert AfterBody(Body(s, l), l) == Body(s, l);
      }
    } else {
      AfterClean(s, line);
    }
  }

  lemma {:induction false} StepSplit(s: State, line: string)
    ensures (Decide(s, line).f.headscan && !IsSource(line)) || Step(s, line) == Region(Entered(s, line), line)
    ensures Step(s, line).errors >= s.errors
  {
    RegionGrows(Entered(s, line), line);
  }

  lemma {:induction false} HeaderClean(s: State, line: string)
    requires Disciplined(s) && Clean(s) && SingleLine(line)
    requires Decide(s, line).f.headscan && !IsSource(line)
    ensures Clean(Step(s, line))
  {
    assert s.f.hunkparsed ==> !HunkStart(line);
  }

  lemma {:induction false} StepClean(s: State, line: string)
    requires Disciplined(s) && Clean(s) && SingleLine(line)
    requires Step(s, line).errors == s.errors
    ensures Clean(Step(s, line))
  {
    if Decide(s, line).f.headscan && !IsSource(line) {
      HeaderClean(s, line);
    } else {
      StepSplit(s, line);
      EnteredClean(s, line);
      RegionClean(Entered(s, line), line);
    }
  }

  lemma {:induction false} RunClean(s: State, lines: seq<string>)
    requires Disciplined(s) && SingleLines(lines)
    requires s.errors == 0 ==> Clean(s)
    ensures Disciplined(Run(s, lines))
    ensures Run(s, lines).errors == 0 ==> Clean(Run(s, lines))
    decreases |lines|
  {
    if lines != [] {
      var next := Step(s, lines[0]);
      StepDisciplined(s, lines[0]);
      StepSplit(s, lines[0]);
      if next.errors == 0 {
        StepClean(s, lines[0]);
      }
      RunClean(next, lines[1..]);
    }
  }

  /** A parse that reports success has built well-formed patches only. */
  lemma {:induction false} ErrorFreeIsWellFormed(lines: seq<string>)
    requires SingleLines(lines)
    requires Parse(lines).ok
    ensures Parse(lines).items != [] && GoodItems(Parse(lines).items)
    ensures Parse(lines).errors == 0
  {
    RunClean(INIT, lines);
    var s := Run(INIT, lines);
    if s.p.Some? {
      GoodItemsAppend(s.items, s.p.value);
    }
  }

  /** The hunks of a successful parse satisfy what the rewriter's theorems ask of texts. */
  lemma {:induction false} GoodHunksCount(hunks: seq<Hunk>)
    requires GoodHunks(hunks)
    ensures CountsAgree(hunks)
    ensures forall k :: 0 <= k < |hunks| ==> ValidText(hunks[k].text) && !hunks[k].invalid
  {
    forall k | 0 <= k < |hunks| ensures hunks[k].linesSrc == SrcLen(hunks[k]) && hunks[k].linesTgt == TgtLen(hunks[k]) {
      assert GoodHunk(hunks[k]);
    }
  }
}
