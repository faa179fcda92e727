/** Streams with errors: which hunks are marked invalid, and what counts as an error. */
module PatchFaults {
  import opened Lines
  import opened Wrappers
  import opened Hunks
  import opened PatchLines
  import opened PatchParser
  import opened ParserFacts
  import opened WellFormed
  import opened PatchSpelling
  import opened PatchGrammar

  // ---- invalid hunks ----

  predicate HunkMarked(h: Hunk) {
    h.invalid <==> !Complete(h)
  }

  predicate PatchMarked(q: Patch) {
    forall k :: 0 <= k < |q.hunks| ==> HunkMarked(q.hunks[k])
  }

  predicate ItemsMarked(items: seq<Patch>) {
    forall i :: 0 <= i < |items| ==> PatchMarked(items[i])
  }

  /** A hunk whose last lines are still to come. */
  predicate Unfinished(h: Hunk) {
    !h.invalid && Within(h) && forall n :: 0 < n <= |h.text| ==> !Met(h, h.text[..n])
  }

  predicate Counting(s: State) {
    && Unfinished(s.hunk)
    && s.srcSeen == |SourceSide(s.hunk.text)| && s.tgtSeen == |TargetSide(s.hunk.text)|
  }

  predicate Stored(s: State) {
    ItemsMarked(s.items) && (s.p.Some? ==> PatchMarked(s.p.value))
  }

  predicate StateMarked(s: State) {
    Stored(s) && (s.f.hunkbody ==> Counting(s))
  }

  lemma {:induction false} AddMarked(p: Option<Patch>, h: Hunk)
    requires (p.Some? ==> PatchMarked(p.value)) && HunkMarked(h)
    ensures AddHunk(p, h).Some? ==> PatchMarked(AddHunk(p, h).value)
  {
  }

  lemma {:induction false} SpoilMarks(s: State)
    requires Stored(s) && !Complete(s.hunk)
    ensures Stored(Spoil(s)) && !Spoil(s).f.hunkbody && Spoil(s).hunk.invalid && !Complete(Spoil(s).hunk)
    ensures Spoil(s).hunk.text == s.hunk.text
  {
    AddMarked(s.p, s.hunk.(invalid := true));
  }

  /** A hunk with one line more. */
  lemma {:induction false} CountsOne(s: State, line: string)
    requires Counting(s) && BodyLine(line)
    ensures var c := CountLine(s, line);
      && c.items == s.items && c.p == s.p && c.f == s.f && !c.hunk.invalid && c.hunk.text != []
      && c.srcSeen == |SourceSide(c.hunk.text)| && c.tgtSeen == |TargetSide(c.hunk.text)|
      && (forall n :: 0 < n < |c.hunk.text| ==> !Met(c.hunk, c.hunk.text[..n]))
      && (Complete(c.hunk) <==> Met(c.hunk, c.hunk.text))
      && (Within(c.hunk) && !Met(c.hunk, c.hunk.text) ==> Counting(c))
  {
    SidesGrow(s.hunk.text, line);
    var c := CountLine(s, line);
    forall n | 0 < n < |c.hunk.text| ensures !Met(c.hunk, c.hunk.text[..n]) {
      assert c.hunk.text[..n] == s.hunk.text[..n];
      assert !Met(s.hunk, s.hunk.text[..n]);
    }
    assert c.hunk.text[..|c.hunk.text|] == c.hunk.text;
  }

  lemma {:induction false} BodyMarked(s: State, line: string)
    requires Stored(s) && Counting(s) && s.f.hunkbody
    ensures StateMarked(Body(s, line))
  {
    if BodyLine(line) {
      CountsOne(s, line);
      CountedMarked(CountLine(s, line));
    } else {
      SpoiltMarked(s);
    }
  }

  /** After counting: too many, complete, or still open. */
  lemma {:induction false} CountedMarked(c: State)
    requires Stored(c) && c.f.hunkbody && !c.hunk.invalid
    requires c.srcSeen == |SourceSide(c.hunk.text)| && c.tgtSeen == |TargetSide(c.hunk.text)|
    requires Complete(c.hunk) <==> Met(c.hunk, c.hunk.text)
    requires Within(c.hunk) && !Met(c.hunk, c.hunk.text) ==> Counting(c)
    ensures !Within(c.hunk) ==> StateMarked(Spoil(c))
    ensures Met(c.hunk, c.hunk.text) ==>
      StateMarked(c.(p := AddHunk(c.p, c.hunk), f := c.f.(hunkbody := false, hunkparsed := true)))
    ensures Within(c.hunk) && !Met(c.hunk, c.hunk.text) ==> StateMarked(c)
  {
    if !Within(c.hunk) {
      SpoilMarks(c);
    }
    if Met(c.hunk, c.hunk.text) {
      AddMarked(c.p, c.hunk);
    }
  }

  lemma {:induction false} UnfinishedIsIncomplete(h: Hunk)
    requires Unfinished(h)
    ensures !Complete(h)
  {
    if h.text != [] {
      assert h.text[..|h.text|] == h.text;
    }
  }

  /** A line that is none for a hunk; a hunk that declares no lines is added twice. */
  lemma {:induction false} SpoiltMarked(s: State)
    requires Stored(s) && Counting(s)
    ensures var c := Spoil(s);
      && StateMarked(c)
      && StateMarked(c.(p := AddHunk(c.p, c.hunk), f := c.f.(hunkbody := false, hunkparsed := true)))
      && c.srcSeen <= c.hunk.linesSrc && c.tgtSeen <= c.hunk.linesTgt
  {
    UnfinishedIsIncomplete(s.hunk);
    SpoilMarks(s);
    var c := Spoil(s);
    AddMarked(c.p, c.hunk);
  }

  lemma {:induction false} FlushMarked(s: State)
    requires Stored(s)
    ensures ItemsMarked(Flush(s))
  {
  }

  lemma {:induction false} TargetMarked(s: State, name: Option<string>)
    requires Stored(s) && !s.f.hunkbody
    ensures var r := TargetName(s, name).0; Stored(r) && !r.f.hunkbody
  {
    FlushMarked(s);
  }

  lemma {:induction false} SourceMarked(s: State, name: Option<string>)
    requires Stored(s) && !s.f.hunkbody
    ensures Stored(SourceName(s, name)) && !SourceName(s, name).f.hunkbody
    ensures Stored(NoTarget(s)) && !NoTarget(s).f.hunkbody
  {
  }

  lemma {:induction false} NamesMarked(s: State, line: string)
    requires Stored(s) && !s.f.hunkbody
    ensures var r := Names(s, line).0; Stored(r) && !r.f.hunkbody
  {
    SourceMarked(s, None);
    if IsSource(line) {
      SourceMarked(s, FileName(line));
    } else if IsTarget(line) {
      TargetMarked(s, FileName(line));
    }
  }

  lemma {:induction false} FreshHeader(line: string)
    ensures ParseHeader(line).Some? ==> ParseHeader(line).value.text == [] && !ParseHeader(line).value.invalid
  {
  }

  lemma {:induction false} HeadMarked(s: State, line: string)
    requires Stored(s) && !s.f.hunkbody
    ensures StateMarked(HunkHead(s, ParseHeader(line)))
  {
    FreshHeader(line);
  }

  lemma {:induction false} AfterMarked(s: State, line: string)
    requires Stored(s) && (s.f.hunkbody ==> Counting(s) && !s.f.filenames && !s.f.hunkhead && !s.f.hunkskip)
    ensures StateMarked(AfterBody(s, line))
  {
    if s.f.hunkbody {
      assert AfterBody(s, line) == s;
    } else {
      var t := Skip(s, line);
      var (r, done) := if t.f.filenames then Names(t, line) else (t, false);
      NamesMarked(t, line);
      HeadMarked(r, line);
    }
  }

  /** Only in the body of a hunk is the flag for it set, and no other is. */
  lemma {:induction false} RegionMarked(s: State, line: string)
    requires StateMarked(s) && AtRegions(s, line)
    ensures StateMarked(Region(s, line))
  {
    RegionOf(s, line);
    if s.f.hunkbody {
      var l := Expand(line);
      BodyMarked(s, l);
      BodyDisciplined(s, l);
      if !Body(s, l).f.hunkparsed {
        AfterMarked(Body(s, l), l);
      }
    } else {
      AfterMarked(s, line);
    }
  }

  lemma {:induction false} StepMarked(s: State, line: string)
    requires StateMarked(s) && Disciplined(s)
    ensures StateMarked(Step(s, line))
  {
    if !(Decide(s, line).f.headscan && !IsSource(line)) {
      StepSplit(s, line);
      EnteredRegions(s, line);
      RegionMarked(Entered(s, line), line);
    }
  }

  /** Behind a hunk another one begins, or a source name. */
  lemma {:induction false} BehindRegions(s: State)
    requires Disciplined(s) && s.f.hunkparsed
    ensures RegionsBegin(s.(f := s.f.(hunkparsed := false, hunkhead := true)), false, true)
    ensures RegionsBegin(s.(f := s.f.(hunkparsed := false, filenames := true)), true, false)
    ensures RegionsBegin(s.(scanning := false, f := s.f.(hunkparsed := false, filenames := true)), true, false)
  {
  }

  lemma {:induction false} PlainRegions(s: State, source: bool, head: bool)
    requires Disciplined(s) && !s.f.hunkparsed && (source ==> !head)
    ensures s.f.headscan && source ==>
      RegionsBegin(s.(scanning := false, f := s.f.(headscan := false, filenames := true)), source, head)
    ensures !s.f.headscan ==> RegionsBegin(s, source, head)
  {
  }

  lemma {:induction false} EnteredRegions(s: State, line: string)
    requires Disciplined(s) && (Decide(s, line).f.headscan ==> IsSource(line))
    ensures AtRegions(Entered(s, line), line)
  {
    if IsSource(line) {
      SourceIsNoHeader(line);
    }
    if s.f.hunkparsed {
      BehindRegions(s);
    } else {
      PlainRegions(s, IsSource(line), HunkStart(line));
    }
  }

  lemma {:induction false} RunMarked(s: State, lines: seq<string>)
    requires StateMarked(s) && Disciplined(s)
    ensures StateMarked(Run(s, lines))
    decreases |lines|
  {
    if lines != [] {
      StepMarked(s, lines[0]);
      StepDisciplined(s, lines[0]);
      RunMarked(Step(s, lines[0]), lines[1..]);
    }
  }

  /** For every stream, with errors or without: a hunk of the result is marked invalid
      exactly when its text is not complete under its header. */
  lemma {:induction false} InvalidExactly(lines: seq<string>)
    ensures ItemsMarked(Parse(lines).items)
  {
    RunMarked(INIT, lines);
    FlushMarked(Run(INIT, lines));
  }

  // ---- what counts as an error ----

  /** No name can be read from the line. */
  ghost predicate Nameless(line: string) {
    |line| < 4 || forall name :: !NameSpelled(line, name)
  }

  ghost predicate NamelessSource(line: string) {
    IsSource(line) && Nameless(line)
  }

  ghost predicate NoHeader(line: string) {
    forall h :: !HeaderSpelled(line, h)
  }

  function One(b: bool): nat {
    if b then 1 else 0
  }

  /** The errors that a line costs, by the region it stands in: a source line
      without a name, names without a target, a patch without a hunk, and in a hunk a
      line that is none or is one too many, which may start the next patch. */
  ghost function Faults(s: State, line: string): nat {
    if s.f.filenames then
      One(if IsSource(line) then Nameless(line) else !IsTarget(line) || Nameless(line))
    else if s.f.hunkhead then One(NoHeader(line))
    else if s.f.hunkbody then BodyFaults(s.hunk, Expand(line))
    else One(NamelessSource(line))
  }

  ghost function BodyFaults(h: Hunk, l: string): nat {
    if !BodyLine(l) then 1
    else if !Within(h.(text := h.text + [l])) then 1 + One(NamelessSource(l))
    else 0
  }

  lemma {:induction false} NamelessIs(line: string)
    requires |line| >= 4
    ensures Nameless(line) <==> FileName(line).None?
  {
    if FileName(line).Some? {
      NameExactly(line, FileName(line).value);
    } else {
      forall name ensures !NameSpelled(line, name) {
        NameExactly(line, name);
      }
    }
  }

  lemma {:induction false} NoHeaderIs(line: string)
    ensures NoHeader(line) <==> !HunkStart(line)
  {
    if HunkStart(line) {
      HeaderExactly(line, ParseHeader(line).value);
    } else {
      forall h ensures !HeaderSpelled(line, h) {
        HeaderExactly(line, h);
      }
    }
  }

  lemma {:induction false} NameErrors(s: State, line: string)
    requires s.f.filenames && s.srcname.Some? && s.tgtname.None?
    ensures Names(s, line).0.errors
         == s.errors + One(if IsSource(line) then Nameless(line) else !IsTarget(line) || Nameless(line))
  {
    if IsSource(line) || IsTarget(line) {
      NamelessIs(line);
    }
  }

  /** The names region entered with a source line. */
  lemma {:induction false} SourceErrors(s: State, line: string)
    requires IsSource(line)
    ensures Names(s, line).0.errors == s.errors + One(NamelessSource(line))
    ensures !s.f.hunkhead ==> !Names(s, line).0.f.hunkhead
  {
    NamelessIs(line);
  }

  lemma {:induction false} HeadErrors(s: State, line: string)
    requires s.p.Some? && (s.p.value.hunks == [] || HunkStart(line))
    ensures HunkHead(s, ParseHeader(line)).errors == s.errors + One(NoHeader(line))
  {
    NoHeaderIs(line);
  }

  /** Behind a hunk, spoilt or not: a source line starts the next patch. */
  lemma {:induction false} SkipErrors(s: State, line: string)
    requires s.f == Flags(false, false, false, false, true, false) && HasHunks(s.p)
    ensures AfterBody(s, line).errors == s.errors + One(NamelessSource(line))
  {
    if IsSource(line) {
      SourceIsNoHeader(line);
      SourceErrors(Skip(s, line), line);
    } else if HunkStart(line) {
      HeadErrors(Skip(s, line), line);
      NoHeaderIs(line);
    }
  }

  lemma {:induction false} BodyIs(s: State, l: string)
    requires Counting(s)
    ensures BodyLine(l) && Within(s.hunk.(text := s.hunk.text + [l])) ==> Body(s, l).errors == s.errors
    ensures BodyLine(l) && !Within(s.hunk.(text := s.hunk.text + [l])) ==> Body(s, l) == Spoil(CountLine(s, l))
    ensures !BodyLine(l) ==> Body(s, l).errors == s.errors + 1
  {
    if BodyLine(l) {
      SidesGrow(s.hunk.text, l);
    }
  }

  lemma {:induction false} BodyErrors(s: State, line: string)
    requires Counting(s) && s.f == Flags(false, false, false, true, false, false) && s.p.Some?
    ensures Region(s, line).errors == s.errors + BodyFaults(s.hunk, Expand(line))
  {
    var l := Expand(line);
    RegionOf(s, line);
    BodyIs(s, l);
    if BodyLine(l) && !Within(s.hunk.(text := s.hunk.text + [l])) {
      SkipErrors(Body(s, l), l);
    } else if !BodyLine(l) {
      PlainErrors(Body(s, l), l);
    }
  }

  lemma {:induction false} SourceIsBody(l: string)
    ensures IsSource(l) ==> BodyLine(l)
  {
    if IsSource(l) {
      assert l[0] == '-';
    }
  }

  /** A line that is none for a hunk starts no source name. */
  lemma {:induction false} PlainErrors(s: State, l: string)
    requires !BodyLine(l) && !s.f.filenames && !s.f.hunkhead && s.p.Some? && HasHunks(s.p)
    ensures AfterBody(s, l).errors == s.errors
  {
    SourceIsBody(l);
    if HunkStart(l) && s.f.hunkskip {
      HeadErrors(Skip(s, l), l);
      NoHeaderIs(l);
    }
  }

  lemma {:induction false} HeadAfter(s: State, line: string)
    requires s.f == Flags(false, false, true, false, false, false) && s.p.Some? && s.p.value.hunks == []
    ensures AfterBody(s, line).errors == s.errors + One(NoHeader(line))
  {
    HeadErrors(s, line);
  }

  lemma {:induction false} NamesAfter(s: State, line: string)
    requires s.f == Flags(false, true, false, false, false, false) && s.srcname.Some? && s.tgtname.None?
    ensures AfterBody(s, line).errors
         == s.errors + One(if IsSource(line) then Nameless(line) else !IsTarget(line) || Nameless(line))
  {
    NameErrors(s, line);
    AfterIs(s, line);
  }

  lemma {:induction false} SourceAfter(s: State, line: string)
    requires s.f == Flags(false, true, false, false, false, false) && IsSource(line)
    ensures AfterBody(s, line).errors == s.errors + One(NamelessSource(line))
  {
    SourceErrors(s, line);
    AfterIs(s, line);
  }

  /** While one region is active, a line costs the errors that it should. */
  lemma {:induction false} StepErrors(s: State, line: string)
    requires Disciplined(s) && Single(s.f) && StateMarked(s)
    ensures Step(s, line).errors == s.errors + Faults(s, line)
  {
    if s.f.headscan || s.f.hunkparsed {
      BetweenErrors(s, line);
    } else if s.f.filenames {
      NamesAfter(s, line);
    } else if s.f.hunkhead {
      HeadAfter(s, line);
    } else if s.f.hunkbody {
      BodyErrors(s, line);
    } else {
      SkipErrors(s, line);
    }
  }

  lemma {:induction false} BetweenErrors(s: State, line: string)
    requires Disciplined(s) && Single(s.f) && (s.f.headscan || s.f.hunkparsed)
    ensures Step(s, line).errors == s.errors + One(NamelessSource(line))
  {
    var e := Entered(s, line);
    if IsSource(line) {
      SourceIsNoHeader(line);
      SourceAfter(e, line);
    } else if s.f.hunkparsed && HunkStart(line) {
      HeadErrors(e, line);
      NoHeaderIs(line);
    }
  }

  ghost function FaultsAlong(s: State, lines: seq<string>): nat {
    if lines == [] then 0
    else
      var init := lines[..|lines| - 1];
      FaultsAlong(s, init) + Faults(Run(s, init), lines[|lines| - 1])
  }

  lemma {:induction false} RunErrors(lines: seq<string>, n: nat)
    requires n <= |lines| && SingleUpTo(lines, |lines|)
    ensures Run(INIT, lines[..n]).errors == FaultsAlong(INIT, lines[..n])
  {
    if n == 0 {
      assert lines[..0] == [];
    } else {
      RunErrors(lines, n - 1);
      RunSnoc(INIT, lines, n - 1);
      var s := Run(INIT, lines[..n - 1]);
      RunDisciplined(INIT, lines[..n - 1]);
      RunMarked(INIT, lines[..n - 1]);
      StepErrors(s, lines[n - 1]);
      assert lines[..n][..n - 1] == lines[..n - 1];
    }
  }

  /** At the end: lines but no patch, or a patch that is not complete. */
  function EndFault(s: State): nat {
    One(s.scanning && s.p.None?) + One(!s.f.hunkparsed && !s.f.hunkskip && !s.f.headscan)
  }

  /** For every stream that keeps one region active, the errors are those of its lines
      and of its end. */
  lemma {:induction false} ErrorsExactly(lines: seq<string>)
    requires SingleUpTo(lines, |lines|)
    ensures Parse(lines).errors == FaultsAlong(INIT, lines) + EndFault(Run(INIT, lines))
  {
    RunErrors(lines, |lines|);
    assert lines[..|lines|] == lines;
  }
}
