/** What holds of the parser between any two lines of any input. */
module ParserFacts {
  import opened Lines
  import opened Wrappers
  import opened Hunks
  import opened PatchLines
  import opened PatchParser

  lemma {:induction false} RunAppend(s: State, a: seq<string>, b: seq<string>)
    ensures Run(s, a + b) == Run(Run(s, a), b)
    decreases |a|
  {
    if a == [] {
      assert a + b == b;
    } else {
      assert (a + b)[1..] == a[1..] + b;
      RunAppend(Step(s, a[0]), a[1..], b);
    }
  }

  lemma {:induction false} RunOne(s: State, line: string)
    ensures Run(s, [line]) == Step(s, line)
  {
    assert [line][1..] == [];
  }

  lemma {:induction false} RunMore(s: State, lines: seq<string>, line: string)
    ensures Run(s, lines + [line]) == Step(Run(s, lines), line)
  {
    RunAppend(s, lines, [line]);
    RunOne(Run(s, lines), line);
  }

  // ---- state discipline ----

  predicate Single(f: Flags) {
    || f == Flags(true, false, false, false, false, false)
    || f == Flags(false, true, false, false, false, false)
    || f == Flags(false, false, true, false, false, false)
    || f == Flags(false, false, false, true, false, false)
    || f == Flags(false, false, false, false, true, false)
    || f == Flags(false, false, false, false, false, true)
  }

  /** Two flags at once: an invalid first line under the header `-n,0 +m,0`. */
  predicate Double(s: State) {
    && s.hunk.linesSrc == 0 && s.hunk.linesTgt == 0
    && (|| s.f == Flags(false, false, false, false, true, true)
        || (s.f == Flags(true, false, false, false, true, false) && s.scanning))
  }

  predicate HasHunks(p: Option<Patch>) {
    p.Some? && p.value.hunks != []
  }

  /** The last hunk in progress has counted no more lines than declared. */
  predicate Open(s: State) {
    && s.srcSeen <= s.hunk.linesSrc && s.tgtSeen <= s.hunk.linesTgt
    && (s.srcSeen == s.hunk.linesSrc && s.tgtSeen == s.hunk.linesTgt ==> s.hunk.linesSrc == 0 && s.hunk.linesTgt == 0)
  }

  predicate Disciplined(s: State) {
    && (Single(s.f) || Double(s))
    && (s.scanning ==> s.f.headscan)
    && s.tgtname.None?
    && (s.srcname.Some? <==> s.f.filenames)
    && (s.f.hunkhead ==> s.p.Some? && s.p.value.hunks == [])
    && (s.f.hunkbody ==> s.p.Some? && Open(s))
    && (s.f.hunkskip || s.f.hunkparsed ==> HasHunks(s.p))
  }

  /** A branch its author marked unreachable, dead or still to be reviewed. */
  predicate TakesDeadBranch(s: State, line: string) {
    var s := Decide(s, line);
    if s.f.headscan && !IsSource(line) then false
    else
      var s := if s.f.headscan then s.(scanning := false, f := s.f.(headscan := false, filenames := true)) else s;
      if !s.f.hunkbody then DeadAfterBody(s, line)
      else
        var line := Expand(line);
        var s := Body(s, line);
        !s.f.hunkparsed && DeadAfterBody(s, line)
  }

  predicate DeadAfterBody(s: State, line: string) {
    var s := Skip(s, line);
    || (s.f.filenames && !IsSource(line) && !IsTarget(line) && s.srcname.None?)
    || (s.f.filenames && !IsSource(line) && IsTarget(line) && s.tgtname.Some?)
    || (var (s, done) := if s.f.filenames then Names(s, line) else (s, false);
        !done && s.f.hunkhead && ParseHeader(line).None? && !NoHunks(s.p))
  }

  /** What holds where the skip, names and hunk head regions begin; `source`: the line
      starts a source name, `head`: a hunk. */
  predicate RegionsBegin(s: State, source: bool, head: bool) {
    && !s.scanning && s.tgtname.None? && !s.f.headscan && !s.f.hunkparsed
    && (s.f.filenames && !source ==> s.srcname.Some?)
    && (!s.f.filenames ==> s.srcname.None?)
    && (s.f.hunkhead && !head ==> s.p.Some? && s.p.value.hunks == [])
    && (s.f.hunkhead ==> s.p.Some?)
    && (s.f.hunkskip ==> HasHunks(s.p))
    && (s.f.hunkskip && s.f.hunkhead ==> head)
    && (s.f.hunkskip && s.f.filenames ==> source)
    && (|| Single(s.f)
        || s.f == Flags(false, true, false, false, true, false)
        || s.f == Flags(false, false, true, false, true, false))
    && (s.f.hunkbody ==> s.p.Some? && Open(s))
  }

  predicate AtRegions(s: State, line: string) {
    RegionsBegin(s, IsSource(line), HunkStart(line))
  }

  lemma {:induction false} SourceIsNoHeader(line: string)
    requires IsSource(line)
    ensures !HunkStart(line) && !IsTarget(line)
  {
    assert line[0] == '-';
  }

  /** What holds once skipping is decided; `source`: the line starts a header. */
  predicate AtNames(s: State, source: bool) {
    && Single(s.f) && !s.scanning && s.tgtname.None? && !s.f.headscan && !s.f.hunkparsed
    && (s.f.filenames && !source ==> s.srcname.Some?)
    && (!s.f.filenames ==> s.srcname.None?)
    && (s.f.hunkhead ==> s.p.Some?)
    && (s.f.hunkskip ==> HasHunks(s.p))
    && (s.f.hunkbody ==> s.p.Some? && Open(s))
  }

  /** Skipping ends at a hunk, or else at a source name. */
  lemma {:induction false} SkipEnds(s: State, source: bool, head: bool)
    requires RegionsBegin(s, source, head) && (source ==> !head)
    ensures !s.f.hunkskip || (!head && !source) ==> AtNames(s, source)
    ensures s.f.hunkskip && head ==> AtNames(s.(f := s.f.(hunkskip := false, hunkhead := true)), source)
    ensures s.f.hunkskip && source ==> AtNames(s.(f := s.f.(hunkskip := false, filenames := true)), source)
  {
  }

  lemma {:induction false} SkipDisciplined(s: State, line: string)
    requires AtRegions(s, line)
    ensures AtNames(Skip(s, line), IsSource(line))
  {
    if IsSource(line) {
      SourceIsNoHeader(line);
    }
    SkipEnds(s, IsSource(line), HunkStart(line));
  }

  lemma {:induction false} NamesDisciplined(s: State, line: string)
    requires AtNames(s, IsSource(line)) && s.f.filenames
    ensures var (r, done) := Names(s, line); Disciplined(r) && Single(r.f) && (r.f.hunkhead ==> done)
  {
  }

  lemma {:induction false} HeadDisciplined(s: State, source: bool, header: Option<Hunk>)
    requires AtNames(s, source) && s.f.hunkhead
    ensures Disciplined(HunkHead(s, header)) && Single(HunkHead(s, header).f)
  {
  }

  lemma {:induction false} RegionsDisciplined(s: State, line: string)
    requires AtRegions(s, line)
    ensures Disciplined(AfterBody(s, line)) && Single(AfterBody(s, line).f)
  {
    SkipDisciplined(s, line);
    var t := Skip(s, line);
    if t.f.filenames {
      NamesDisciplined(t, line);
    } else if t.f.hunkhead {
      HeadDisciplined(t, IsSource(line), ParseHeader(line));
    }
  }

  lemma {:induction false} RegionsLive(s: State, line: string)
    requires AtRegions(s, line)
    ensures !DeadAfterBody(s, line)
  {
    if IsSource(line) {
      SourceIsNoHeader(line);
    }
  }

  lemma {:induction false} BodyDisciplined(s: State, line: string)
    requires s.f == Flags(false, false, false, true, false, false) && !s.scanning
    requires s.tgtname.None? && s.srcname.None? && s.p.Some? && Open(s)
    ensures var s' := Body(s, line);
      if s'.f.hunkparsed then Disciplined(s') else AtRegions(s', line)
  {
  }

  lemma {:induction false} ExpandedDisciplined(s: State, line: string)
    requires s.f == Flags(false, false, false, true, false, false) && !s.scanning
    requires s.tgtname.None? && s.srcname.None? && s.p.Some? && Open(s)
    ensures var s' := Body(s, line);
      if s'.f.hunkparsed then Disciplined(s') else Disciplined(AfterBody(s', line))
  {
    BodyDisciplined(s, line);
    if !Body(s, line).f.hunkparsed {
      RegionsDisciplined(Body(s, line), line);
    }
  }

  lemma {:induction false} ExpandedLive(s: State, line: string)
    requires s.f == Flags(false, false, false, true, false, false) && !s.scanning
    requires s.tgtname.None? && s.srcname.None? && s.p.Some? && Open(s)
    ensures Body(s, line).f.hunkparsed || !DeadAfterBody(Body(s, line), line)
  {
    BodyDisciplined(s, line);
    if !Body(s, line).f.hunkparsed {
      RegionsLive(Body(s, line), line);
    }
  }

  lemma {:induction false} RegionOf(s: State, line: string)
    ensures !s.f.hunkbody ==> Region(s, line) == AfterBody(s, line)
    ensures s.f.hunkbody ==> var s' := Body(s, Expand(line));
      Region(s, line) == if s'.f.hunkparsed then s' else AfterBody(s', Expand(line))
  {
  }

  lemma {:induction false} BodyRegionDisciplined(s: State, line: string)
    requires AtRegions(s, line) && s.f.hunkbody
    ensures Disciplined(Region(s, line))
  {
    RegionOf(s, line);
    ExpandedDisciplined(s, Expand(line));
  }

  lemma {:induction false} RegionDisciplined(s: State, line: string)
    requires AtRegions(s, line)
    ensures Disciplined(Region(s, line))
  {
    if s.f.hunkbody {
      BodyRegionDisciplined(s, line);
    } else {
      RegionOf(s, line);
      RegionsDisciplined(s, line);
    }
  }

  lemma {:induction false} RegionLive(s: State, line: string)
    requires AtRegions(s, line)
    ensures !s.f.hunkbody ==> !DeadAfterBody(s, line)
    ensures s.f.hunkbody ==> Body(s, Expand(line)).f.hunkparsed || !DeadAfterBody(Body(s, Expand(line)), Expand(line))
  {
    if !s.f.hunkbody {
      RegionsLive(s, line);
    } else {
      ExpandedLive(s, Expand(line));
    }
  }

  /** The discipline holds between any two lines and no dead branch is taken. */
  lemma {:induction false} StepDisciplined(s: State, line: string)
    requires Disciplined(s)
    ensures Disciplined(Step(s, line))
    ensures !TakesDeadBranch(s, line)
  {
    var s1 := Decide(s, line);
    if IsSource(line) {
      SourceIsNoHeader(line);
    }
    if s1.f.headscan && !IsSource(line) {
    } else {
      var s2 := if s1.f.headscan then s1.(scanning := false, f := s1.f.(headscan := false, filenames := true)) else s1;
      assert AtRegions(s2, line);
      RegionDisciplined(s2, line);
      RegionLive(s2, line);
    }
  }

  lemma {:induction false} RunDisciplined(s: State, lines: seq<string>)
    requires Disciplined(s)
    ensures Disciplined(Run(s, lines))
    decreases |lines|
  {
    if lines != [] {
      StepDisciplined(s, lines[0]);
      RunDisciplined(Step(s, lines[0]), lines[1..]);
    }
  }

  /** After any lines of any stream exactly one region is active, unless the last
      hunk header declared no lines at all; the target name buffer is empty, the
      source name buffer is filled exactly in the names region; and the branches
      marked unreachable, dead or to be reviewed are not taken on any next line. */
  lemma {:induction false} ParserDiscipline(lines: seq<string>, line: string)
    ensures var s := Run(INIT, lines);
      && (Single(s.f) || (s.hunk.linesSrc == 0 && s.hunk.linesTgt == 0 && s.f.hunkskip))
      && s.tgtname.None? && (s.srcname.Some? <==> s.f.filenames)
      && !TakesDeadBranch(s, line)
  {
    RunDisciplined(INIT, lines);
    StepDisciplined(Run(INIT, lines), line);
  }

  // ---- when two flags are set ----

  /** A hunk that declares no lines is open and the line is none for a hunk. */
  predicate SpoilsEmptyHunk(s: State, line: string) {
    s.f.hunkbody && s.hunk.linesSrc == 0 && s.hunk.linesTgt == 0 && !BodyLine(Expand(line))
  }

  lemma {:induction false} BodyDoubles(s: State, line: string)
    requires s.f == Flags(false, false, false, true, false, false) && Open(s)
    ensures Body(s, line).f == Flags(false, false, false, false, true, true) <==>
      s.hunk.linesSrc == 0 && s.hunk.linesTgt == 0 && !BodyLine(line)
    ensures Single(Body(s, line).f) || Body(s, line).f == Flags(false, false, false, false, true, true)
  {
  }

  lemma {:induction false} RegionSingle(s: State, line: string)
    requires AtRegions(s, line) && (s.f.hunkbody ==> Single(s.f))
    ensures Single(Region(s, line).f) <==> !SpoilsEmptyHunk(s, line)
  {
    if s.f.hunkbody {
      var l := Expand(line);
      BodyDisciplined(s, l);
      BodyDoubles(s, l);
      if !Body(s, l).f.hunkparsed {
        RegionsDisciplined(Body(s, l), l);
      }
    } else {
      RegionsDisciplined(s, line);
    }
  }

  /** One line more: still one flag exactly unless it spoils an empty hunk. */
  lemma {:induction false} StepSingle(s: State, line: string)
    requires Disciplined(s) && Single(s.f)
    ensures Single(Step(s, line).f) <==> !SpoilsEmptyHunk(s, line)
  {
    var s1 := Decide(s, line);
    if IsSource(line) {
      SourceIsNoHeader(line);
    }
    if !(s1.f.headscan && !IsSource(line)) {
      var s2 := if s1.f.headscan then s1.(scanning := false, f := s1.f.(headscan := false, filenames := true)) else s1;
      RegionSingle(s2, line);
    }
  }

  lemma {:induction false} RunSnoc(s: State, lines: seq<string>, i: nat)
    requires i < |lines|
    ensures Run(s, lines[..i + 1]) == Step(Run(s, lines[..i]), lines[i])
  {
    assert lines[..i + 1] == lines[..i] + [lines[i]];
    RunMore(s, lines[..i], lines[i]);
  }

  ghost predicate SingleUpTo(lines: seq<string>, n: nat) {
    forall i: nat :: i <= n <= |lines| ==> Single(Run(INIT, lines[..i]).f)
  }

  ghost predicate NoneSpoilt(lines: seq<string>, n: nat) {
    forall i: nat :: i < n <= |lines| ==> !SpoilsEmptyHunk(Run(INIT, lines[..i]), lines[i])
  }

  lemma {:induction false} SingleUntil(lines: seq<string>, n: nat)
    requires n <= |lines|
    ensures SingleUpTo(lines, n) <==> NoneSpoilt(lines, n)
  {
    if n == 0 {
      assert Run(INIT, lines[..0]) == INIT;
    } else {
      SingleUntil(lines, n - 1);
      RunSnoc(INIT, lines, n - 1);
      var s := Run(INIT, lines[..n - 1]);
      RunDisciplined(INIT, lines[..n - 1]);
      if Single(s.f) {
        StepSingle(s, lines[n - 1]);
      }
    }
  }

  /** Exactly one region is active after every line of a stream if and only if no
      line comes that is none for a hunk while a hunk that declares no lines is open. */
  lemma {:induction false} SingleExactly(lines: seq<string>)
    ensures (forall i: nat :: i <= |lines| ==> Single(Run(INIT, lines[..i]).f))
       <==> forall i: nat :: i < |lines| ==> !SpoilsEmptyHunk(Run(INIT, lines[..i]), lines[i])
  {
    SingleUntil(lines, |lines|);
    assert SingleUpTo(lines, |lines|) <==> forall i: nat :: i <= |lines| ==> Single(Run(INIT, lines[..i]).f);
    assert NoneSpoilt(lines, |lines|) <==>
      forall i: nat :: i < |lines| ==> !SpoilsEmptyHunk(Run(INIT, lines[..i]), lines[i]);
  }

  // ---- streams without empty ranges ----

  /** No line reads as a hunk header that declares no lines at all. */
  predicate NoEmptyRanges(lines: seq<string>) {
    forall i :: 0 <= i < |lines| ==> DeclaresLines(lines[i])
  }

  predicate DeclaresLines(line: string) {
    match ParseHeader(line)
    case None => true
    case Some(h) => h.linesSrc > 0 || h.linesTgt > 0
  }

  predicate OneFlag(s: State) {
    Disciplined(s) && Single(s.f) && (s.f.hunkbody ==> s.hunk.linesSrc > 0 || s.hunk.linesTgt > 0)
  }

  lemma {:induction false} NamesKeepHunk(s: State, line: string)
    ensures Names(s, line).0.hunk == s.hunk && Names(s, line).0.f.hunkbody == s.f.hunkbody
  {
  }

  lemma {:induction false} SkipKeepsHunk(s: State, line: string)
    ensures Skip(s, line).hunk == s.hunk && Skip(s, line).f.hunkbody == s.f.hunkbody
  {
  }

  /** A hunk's body goes on, or the line is a header. */
  lemma {:induction false} AfterHunk(s: State, line: string)
    ensures var r := AfterBody(s, line);
      r.f.hunkbody ==> (s.f.hunkbody && r.hunk == s.hunk) || ParseHeader(line) == Some(r.hunk)
  {
    SkipKeepsHunk(s, line);
    NamesKeepHunk(Skip(s, line), line);
  }

  lemma {:induction false} AfterOneFlag(s: State, line: string)
    requires AtRegions(s, line) && DeclaresLines(line)
    requires s.f.hunkbody ==> s.hunk.linesSrc > 0 || s.hunk.linesTgt > 0
    ensures OneFlag(AfterBody(s, line))
  {
    RegionsDisciplined(s, line);
    AfterHunk(s, line);
  }

  lemma {:induction false} ExpandDeclares(line: string)
    requires DeclaresLines(line)
    ensures DeclaresLines(Expand(line))
  {
    if IsBlank(line) {
      assert (" " + line)[0] == ' ';
    }
  }

  lemma {:induction false} BodyOneFlag(s: State, line: string)
    requires s.f == Flags(false, false, false, true, false, false) && s.p.Some? && Open(s)
    requires s.hunk.linesSrc > 0 || s.hunk.linesTgt > 0
    ensures var s' := Body(s, line);
      && Single(s'.f) && s'.hunk.linesSrc == s.hunk.linesSrc && s'.hunk.linesTgt == s.hunk.linesTgt
  {
  }

  lemma {:induction false} ExpandedOneFlag(s: State, line: string)
    requires s.f == Flags(false, false, false, true, false, false) && !s.scanning
    requires s.tgtname.None? && s.srcname.None? && s.p.Some? && Open(s)
    requires DeclaresLines(line) && (s.hunk.linesSrc > 0 || s.hunk.linesTgt > 0)
    ensures var s' := Body(s, line);
      if s'.f.hunkparsed then OneFlag(s') else OneFlag(AfterBody(s', line))
  {
    BodyDisciplined(s, line);
    BodyOneFlag(s, line);
    if !Body(s, line).f.hunkparsed {
      AfterOneFlag(Body(s, line), line);
    }
  }

  lemma {:induction false} RegionOneFlag(s: State, line: string)
    requires AtRegions(s, line) && DeclaresLines(line)
    requires s.f.hunkbody ==> s.hunk.linesSrc > 0 || s.hunk.linesTgt > 0
    ensures OneFlag(Region(s, line))
  {
    if s.f.hunkbody {
      ExpandDeclares(line);
      ExpandedOneFlag(s, Expand(line));
    } else {
      AfterOneFlag(s, line);
    }
  }

  lemma {:induction false} StepOneFlag(s: State, line: string)
    requires OneFlag(s) && DeclaresLines(line)
    ensures OneFlag(Step(s, line))
  {
    StepDisciplined(s, line);
    var s1 := Decide(s, line);
    if IsSource(line) {
      SourceIsNoHeader(line);
    }
    if !(s1.f.headscan && !IsSource(line)) {
      var s2 := if s1.f.headscan then s1.(scanning := false, f := s1.f.(headscan := false, filenames := true)) else s1;
      RegionOneFlag(s2, line);
    }
  }

  lemma {:induction false} RunOneFlag(s: State, lines: seq<string>)
    requires OneFlag(s) && NoEmptyRanges(lines)
    ensures OneFlag(Run(s, lines))
    decreases |lines|
  {
    if lines != [] {
      assert DeclaresLines(lines[0]);
      StepOneFlag(s, lines[0]);
      RunOneFlag(Step(s, lines[0]), lines[1..]);
    }
  }

  /** A stream without a hunk header that declares no lines never has two regions
      active at once. */
  lemma {:induction false} SingleFlag(lines: seq<string>)
    requires NoEmptyRanges(lines)
    ensures Single(Run(INIT, lines).f)
  {
    RunOneFlag(INIT, lines);
  }
}
