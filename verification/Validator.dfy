/** The one-pass check, made while reading the source, that every hunk can be applied. */
module Validator {
  import opened Lines
  import opened Edits
  import opened Hunks

  /** `IndexError`: the loop read past the expected lines of a hunk. */
  datatype Verdict = IndexError | Verdict(canPatch: bool, validHunks: nat, premature: bool)

  /** The loop's variables between two lines. */
  datatype Scan = Scan(hunkno: nat, valid: nat, find: seq<string>, at: nat)

  datatype Comparison = Same | Different | NotCompared | OutOfRange

  datatype Step = Next(s: Scan) | Stop(v: Verdict)

  /** The hunk the loop works on; the last one stays once all are done. */
  function Current(hunks: seq<Hunk>, hunkno: nat): Hunk
    requires hunks != []
  {
    if hunkno < |hunks| then hunks[hunkno] else hunks[|hunks| - 1]
  }

  /** A line at or after the start of `h`: the expected lines are collected when
      the hunk starts here, and the line is compared while some are left. */
  function Compare(line: string, n: nat, h: Hunk, s: Scan): (Scan, Comparison) {
    var s := Begin(n, h, s);
    if n + 1 >= h.startSrc + |s.find| then (s, NotCompared)
    else if s.at >= |s.find| then (s, OutOfRange)
    else if RStrip(line) == s.find[s.at] then (s.(at := s.at + 1), Same)
    else (s, Different)
  }

  function Begin(n: nat, h: Hunk, s: Scan): Scan {
    if n + 1 == h.startSrc then s.(find := SourceSide(h.text), at := 0) else s
  }

  /** What follows a comparison that did not fail. */
  function Advance(hunks: seq<Hunk>, n: nat, h: Hunk, s: Scan): Step {
    if |s.find| != 0 && n + 1 != h.startSrc + |s.find| - 1 then Next(s)
    else if s.hunkno + 1 >= |hunks| && s.valid + 1 == |hunks| then Stop(Verdict(true, s.valid + 1, false))
    else Next(s.(hunkno := s.hunkno + 1, valid := s.valid + 1))
  }

  function Line(line: string, hunks: seq<Hunk>, n: nat, s: Scan): Step
    requires hunks != []
  {
    var h := Current(hunks, s.hunkno);
    if n + 1 < h.startSrc then Next(s)
    else
      var (s, c) := Compare(line, n, h, s);
      if c == OutOfRange then Stop(IndexError)
      else if c != Different then Advance(hunks, n, h, s)
      else if s.hunkno + 1 < |hunks| then Next(s.(hunkno := s.hunkno + 1))
      else Stop(Verdict(false, s.valid, false))
  }

  function ScanFrom(src: seq<string>, hunks: seq<Hunk>, n: nat, s: Scan): Verdict
    requires hunks != []
    decreases |src| - n
  {
    if n >= |src| then Verdict(false, s.valid, s.hunkno < |hunks|)
    else match Line(src[n], hunks, n, s)
      case Stop(v) => v
      case Next(s') => ScanFrom(src, hunks, n + 1, s')
  }

  const START := Scan(0, 0, [], 0)

  /** The verdict on any file and any hunks. */
  function Verdicts(src: seq<string>, hunks: seq<Hunk>): Verdict
    requires hunks != []
  {
    ScanFrom(src, hunks, 0, START)
  }

  method Validate(src: seq<string>, hunks: seq<Hunk>) returns (v: Verdict)
    requires hunks != []
    ensures v == Verdicts(src, hunks)
  {
    var hunkno: nat, valid: nat, canPatch := 0, 0, false;
    var hunk := hunks[0];
    var find: seq<string>, at: nat := [], 0;
    var lineno: nat, exhausted := 0, true;
    while lineno < |src|
      invariant !canPatch && exhausted && hunk == Current(hunks, hunkno)
      invariant ScanFrom(src, hunks, lineno, Scan(hunkno, valid, find, at)) == Verdicts(src, hunks)
    {
      if lineno + 1 >= hunk.startSrc {
        var c;
        find, at, c := CompareLine(src, lineno, hunk, Scan(hunkno, valid, find, at));
        if c == OutOfRange {
          return IndexError;
        }
        if c == Different {
          hunkno := hunkno + 1;
          if hunkno >= |hunks| {
            exhausted := false;
            break;
          }
          hunk := hunks[hunkno];
        } else if |find| == 0 || lineno + 1 == hunk.startSrc + |find| - 1 {
          hunkno := hunkno + 1;
          valid := valid + 1;
          if hunkno < |hunks| {
            hunk := hunks[hunkno];
          } else if valid == |hunks| {
            canPatch := true;
            exhausted := false;
            break;
          }
        }
      }
      lineno := lineno + 1;
    }
    v := Verdict(canPatch, valid, exhausted && hunkno < |hunks|);
  }

  /** The expected lines are collected where the hunk starts; a line among them is compared. */
  method CompareLine(src: seq<string>, lineno: nat, hunk: Hunk, s: Scan)
    returns (find: seq<string>, at: nat, c: Comparison)
    requires lineno < |src| && hunk.startSrc <= lineno + 1
    ensures Compare(src[lineno], lineno, hunk, s) == (s.(find := find, at := at), c)
  {
    find, at, c := s.find, s.at, NotCompared;
    if lineno + 1 == hunk.startSrc {
      find := SourceSide(hunk.text);
      at := 0;
    }
    if lineno + 1 < hunk.startSrc + |find| {
      if at >= |find| {
        c := OutOfRange;
      } else if RStrip(src[lineno]) == find[at] {
        at := at + 1;
        c := Same;
      } else {
        c := Different;
      }
    }
  }

  // ---- what the verdict means ----

  /** One-based line after which hunk `h` is decided: an empty source side
      still needs its start line. */
  function EndLine(h: Hunk): nat {
    h.startSrc + (if SrcLen(h) == 0 then 1 else SrcLen(h)) - 1
  }

  /** Every hunk starts after the line that decides the one before. */
  predicate Spaced(hunks: seq<Hunk>) {
    && (forall k {:trigger hunks[k]} :: 0 <= k < |hunks| ==> hunks[k].startSrc >= 1)
    && (forall j, k {:trigger hunks[j], hunks[k]} :: 0 <= j < k < |hunks| ==> EndLine(hunks[j]) < hunks[k].startSrc)
  }

  /** The hunk is decided within the file and its source side is what stands there. */
  ghost predicate Present(src: seq<string>, h: Hunk) {
    EndLine(h) <= |src| && Matches(src, h)
  }

  ghost function CountPresent(src: seq<string>, hunks: seq<Hunk>): (n: nat)
    ensures n <= |hunks|
  {
    if hunks == [] then 0
    else CountPresent(src, hunks[..|hunks| - 1]) + (if Present(src, hunks[|hunks| - 1]) then 1 else 0)
  }

  ghost predicate AllPresent(src: seq<string>, hunks: seq<Hunk>) {
    forall k :: 0 <= k < |hunks| ==> Present(src, hunks[k])
  }

  /** The source side, as far as the file goes. */
  ghost predicate AgreesSoFar(src: seq<string>, h: Hunk) {
    1 <= h.startSrc <= |src| ==> BlockPrefix(Bare(src), h.startSrc - 1, |src|, SourceSide(h.text))
  }

  /** The lines from `p` up to `n` are how `block` begins. */
  ghost predicate BlockPrefix(bare: seq<string>, p: nat, n: nat, block: seq<string>) {
    p <= n <= |bare| && n - p <= |block| && bare[p..n] == block[..n - p]
  }

  /** The file ends before the last hunk is decided. */
  ghost predicate EndsEarly(src: seq<string>, hunks: seq<Hunk>)
    requires hunks != []
  {
    var last := hunks[|hunks| - 1];
    |src| < EndLine(last) && AgreesSoFar(src, last)
  }

  /** The last hunk expects no source line and was found, so each further line
      counts as one more valid hunk, and there are enough of them. */
  ghost predicate Overcounts(src: seq<string>, hunks: seq<Hunk>)
    requires hunks != []
  {
    var last := hunks[|hunks| - 1];
    && SrcLen(last) == 0
    && Present(src, last)
    && |hunks| <= CountPresent(src, hunks) + |src| - EndLine(last)
  }

  /** Hunk `h` is not decided after `n` lines; once begun, it agreed so far. */
  ghost predicate Undecided(src: seq<string>, n: nat, h: Hunk, find: seq<string>, at: nat) {
    && 1 <= h.startSrc
    && n < EndLine(h)
    && (h.startSrc <= n ==> Tracking(src, n, h, find, at))
  }

  /** `at` lines of the source side were found, the next one is line `n`. */
  ghost predicate Tracking(src: seq<string>, n: nat, h: Hunk, find: seq<string>, at: nat) {
    && find == SourceSide(h.text)
    && 1 <= h.startSrc <= n + 1
    && at == n + 1 - h.startSrc
    && BlockPrefix(Bare(src), h.startSrc - 1, n, find)
  }

  /** Every hunk was decided, the last one found, and lines are only counted. */
  ghost predicate Done(src: seq<string>, hunks: seq<Hunk>, n: nat, find: seq<string>, valid: nat)
    requires hunks != []
  {
    var last := hunks[|hunks| - 1];
    && EndLine(last) <= n
    && Present(src, last)
    && find == SourceSide(last.text)
    && valid == CountPresent(src, hunks) + (if find == [] then n - EndLine(last) else 0)
  }

  /** What the loop knows after `n` lines. */
  ghost predicate Scanned(src: seq<string>, hunks: seq<Hunk>, n: nat, hunkno: nat, valid: nat, find: seq<string>,
                          at: nat)
    requires hunks != []
  {
    if hunkno < |hunks| then
      Undecided(src, n, hunks[hunkno], find, at) && valid == CountPresent(src, hunks[..hunkno])
    else Done(src, hunks, n, find, valid)
  }

  lemma {:induction false} PrefixGrows(bare: seq<string>, p: nat, n: nat, block: seq<string>)
    requires BlockPrefix(bare, p, n, block) && n < |bare| && n - p < |block|
    ensures BlockPrefix(bare, p, n + 1, block) <==> bare[n] == block[n - p]
  {
    assert bare[p..n + 1] == bare[p..n] + [bare[n]];
    assert block[..n + 1 - p] == block[..n - p] + [block[n - p]];
  }

  lemma {:induction false} PrefixFull(bare: seq<string>, p: nat, n: nat, block: seq<string>)
    requires p <= n <= |bare| && n <= p + |block|
    ensures BlockAt(bare, p, block) ==> BlockPrefix(bare, p, n, block)
    ensures n == p + |block| && BlockPrefix(bare, p, n, block) ==> BlockAt(bare, p, block)
  {
    if BlockAt(bare, p, block) {
      assert bare[p..n] == bare[p..p + |block|][..n - p];
    }
  }

  lemma {:induction false} CountNext(src: seq<string>, hunks: seq<Hunk>, k: nat)
    requires k < |hunks|
    ensures CountPresent(src, hunks[..k + 1])
         == CountPresent(src, hunks[..k]) + (if Present(src, hunks[k]) then 1 else 0)
  {
    assert hunks[..k + 1][..k] == hunks[..k];
  }

  lemma {:induction false} CountAll(src: seq<string>, hunks: seq<Hunk>)
    ensures CountPresent(src, hunks) == |hunks| <==> AllPresent(src, hunks)
  {
    if hunks != [] {
      CountAll(src, hunks[..|hunks| - 1]);
    }
  }

  /** The line is the next expected one. */
  lemma {:induction false} LineAgrees(src: seq<string>, n: nat, h: Hunk, find: seq<string>, at: nat)
    requires Tracking(src, n, h, find, at) && n < |src| && at < |find|
    requires RStrip(src[n]) == find[at]
    ensures Tracking(src, n + 1, h, find, at + 1)
    ensures at + 1 == |find| ==> Present(src, h)
  {
    PrefixGrows(Bare(src), h.startSrc - 1, n, find);
    PrefixFull(Bare(src), h.startSrc - 1, n + 1, find);
  }

  /** The line is another one: the hunk is not there. */
  lemma {:induction false} LineDiffers(src: seq<string>, n: nat, h: Hunk, find: seq<string>, at: nat)
    requires Tracking(src, n, h, find, at) && n < |src| && at < |find|
    requires RStrip(src[n]) != find[at]
    ensures !Matches(src, h)
    ensures n + 1 <= EndLine(h)
    ensures !AgreesSoFar(src, h)
  {
    PrefixGrows(Bare(src), h.startSrc - 1, n, find);
    PrefixFull(Bare(src), h.startSrc - 1, n + 1, find);
  }

  /** After `n` lines, hunk `k` was just decided by line `n`. */
  lemma {:induction false} NextHunk(src: seq<string>, hunks: seq<Hunk>, n: nat, k: nat, find: seq<string>, at: nat,
                                    valid: nat)
    requires hunks != [] && Spaced(hunks) && k < |hunks| && n <= EndLine(hunks[k])
    requires valid == CountPresent(src, hunks[..k]) + (if Present(src, hunks[k]) then 1 else 0)
    requires k + 1 == |hunks| ==> n == EndLine(hunks[k]) && Present(src, hunks[k]) && find == SourceSide(hunks[k].text)
    ensures Scanned(src, hunks, n, k + 1, valid, find, at)
  {
    CountNext(src, hunks, k);
    if k + 1 == |hunks| {
      assert hunks[..k + 1] == hunks;
    }
  }

  lemma {:induction false} StartsHere(src: seq<string>, n: nat, h: Hunk)
    requires h.startSrc == n + 1 && n < |src|
    ensures Tracking(src, n, h, SourceSide(h.text), 0)
    ensures SrcLen(h) == 0 ==> Present(src, h)
  {
    PrefixFull(Bare(src), n, n, SourceSide(h.text));
  }

  /** What the verdict on spaced hunks means. */
  ghost predicate Meant(src: seq<string>, hunks: seq<Hunk>, v: Verdict)
    requires hunks != []
  {
    && v.Verdict?
    && (v.canPatch <==> AllPresent(src, hunks) || Overcounts(src, hunks))
    && (v.premature <==> EndsEarly(src, hunks))
  }

  lemma {:induction false} LastDiffers(src: seq<string>, hunks: seq<Hunk>, valid: nat)
    requires hunks != [] && !Matches(src, hunks[|hunks| - 1]) && !AgreesSoFar(src, hunks[|hunks| - 1])
    ensures Meant(src, hunks, Verdict(false, valid, false))
  {
    assert !Present(src, hunks[|hunks| - 1]);
  }

  lemma {:induction false} AllCounted(src: seq<string>, hunks: seq<Hunk>, n: nat, find: seq<string>)
    requires hunks != [] && n <= |src| && Done(src, hunks, n, find, |hunks|)
    ensures Meant(src, hunks, Verdict(true, |hunks|, false))
  {
    CountAll(src, hunks);
  }

  lemma {:induction false} FileEnded(src: seq<string>, hunks: seq<Hunk>, hunkno: nat, valid: nat, find: seq<string>,
                                     at: nat)
    requires hunks != [] && Spaced(hunks) && valid < |hunks|
    requires Scanned(src, hunks, |src|, hunkno, valid, find, at)
    ensures Meant(src, hunks, Verdict(false, valid, hunkno < |hunks|))
  {
    CountAll(src, hunks);
    if hunkno < |hunks| {
      var last := hunks[|hunks| - 1];
      assert !Present(src, hunks[hunkno]);
      if hunkno < |hunks| - 1 {
        assert |src| < EndLine(hunks[hunkno]) < last.startSrc;
      }
    }
  }

  lemma {:induction false} CompareMeans(src: seq<string>, n: nat, h: Hunk, s: Scan)
    requires n < |src| && h.startSrc <= n + 1 && Undecided(src, n, h, s.find, s.at)
    ensures var (s', c) := Compare(src[n], n, h, s);
      && s'.hunkno == s.hunkno && s'.valid == s.valid
      && s'.find == SourceSide(h.text)
      && c != OutOfRange
      && (c == Different ==> !Matches(src, h) && !AgreesSoFar(src, h))
      && (c == Same ==> Tracking(src, n + 1, h, s'.find, s'.at))
      && (c == NotCompared ==> |s'.find| == 0)
      && (c != Different && n + 1 == EndLine(h) ==> Present(src, h))
  {
    if n + 1 == h.startSrc {
      StartsHere(src, n, h);
    }
    var (find, at) := if n + 1 == h.startSrc then (SourceSide(h.text), 0) else (s.find, s.at);
    if at < |find| {
      if RStrip(src[n]) == find[at] {
        LineAgrees(src, n, h, find, at);
      } else {
        LineDiffers(src, n, h, find, at);
      }
    }
  }

  /** The step keeps what the loop knows, or stops with the right verdict. */
  ghost predicate StepMeans(src: seq<string>, hunks: seq<Hunk>, n: nat, r: Step)
    requires hunks != []
  {
    match r
    case Next(s) => Scanned(src, hunks, n + 1, s.hunkno, s.valid, s.find, s.at)
    case Stop(v) => Meant(src, hunks, v)
  }

  lemma {:induction false} DiffersMeans(src: seq<string>, hunks: seq<Hunk>, n: nat, s: Scan)
    requires hunks != [] && Spaced(hunks) && s.hunkno < |hunks| && n + 1 <= EndLine(hunks[s.hunkno])
    requires !Matches(src, hunks[s.hunkno]) && !AgreesSoFar(src, hunks[s.hunkno])
    requires s.valid == CountPresent(src, hunks[..s.hunkno])
    ensures StepMeans(src, hunks, n,
      if s.hunkno + 1 < |hunks| then Next(s.(hunkno := s.hunkno + 1)) else Stop(Verdict(false, s.valid, false)))
  {
    if s.hunkno + 1 < |hunks| {
      NextHunk(src, hunks, n + 1, s.hunkno, s.find, s.at, s.valid);
    } else {
      LastDiffers(src, hunks, s.valid);
    }
  }

  lemma {:induction false} AdvanceMeans(src: seq<string>, hunks: seq<Hunk>, n: nat, s: Scan)
    requires hunks != [] && Spaced(hunks) && s.hunkno < |hunks| && n < |src|
    requires s.valid == CountPresent(src, hunks[..s.hunkno]) && s.find == SourceSide(hunks[s.hunkno].text)
    requires n + 1 <= EndLine(hunks[s.hunkno]) && hunks[s.hunkno].startSrc <= n + 1
    requires n + 1 == EndLine(hunks[s.hunkno]) ==> Present(src, hunks[s.hunkno])
    requires |s.find| > 0 ==> Tracking(src, n + 1, hunks[s.hunkno], s.find, s.at)
    ensures StepMeans(src, hunks, n, Advance(hunks, n, hunks[s.hunkno], s))
  {
    if n + 1 == EndLine(hunks[s.hunkno]) {
      NextHunk(src, hunks, n + 1, s.hunkno, s.find, s.at, s.valid + 1);
      if s.hunkno + 1 == |hunks| && s.valid + 1 == |hunks| {
        AllCounted(src, hunks, n + 1, s.find);
      }
    }
  }

  /** A line while some hunk is still to be decided. */
  lemma {:induction false} LineUndecided(src: seq<string>, hunks: seq<Hunk>, n: nat, s: Scan)
    requires hunks != [] && Spaced(hunks) && n < |src| && s.hunkno < |hunks|
    requires Scanned(src, hunks, n, s.hunkno, s.valid, s.find, s.at)
    ensures StepMeans(src, hunks, n, Line(src[n], hunks, n, s))
  {
    var h := hunks[s.hunkno];
    if n + 1 >= h.startSrc {
      CompareMeans(src, n, h, s);
      var (s1, c) := Compare(src[n], n, h, s);
      if c == Different {
        DiffersMeans(src, hunks, n, s1);
      } else {
        AdvanceMeans(src, hunks, n, s1);
      }
    }
  }

  /** A line after the last hunk was found. */
  lemma {:induction false} LineDone(src: seq<string>, hunks: seq<Hunk>, n: nat, s: Scan)
    requires hunks != [] && Spaced(hunks) && n < |src| && s.hunkno >= |hunks|
    requires Done(src, hunks, n, s.find, s.valid)
    ensures StepMeans(src, hunks, n, Line(src[n], hunks, n, s))
  {
    if |s.find| == 0 && s.valid + 1 == |hunks| {
      AllCounted(src, hunks, n + 1, s.find);
    }
  }

  lemma {:induction false} LineValid(src: seq<string>, hunks: seq<Hunk>, n: nat, s: Scan)
    requires hunks != [] && n < |src| && s.valid <= s.hunkno && s.valid < |hunks|
    ensures var r := Line(src[n], hunks, n, s);
      && (r.Next? ==> r.s.valid <= r.s.hunkno && r.s.valid < |hunks|)
      && (r.Stop? && r.v.Verdict? ==> r.v.validHunks <= |hunks| && (r.v.canPatch <==> r.v.validHunks == |hunks|))
  {
  }

  lemma {:induction false} LineMeans(src: seq<string>, hunks: seq<Hunk>, n: nat, s: Scan)
    requires hunks != [] && Spaced(hunks) && n < |src|
    requires Scanned(src, hunks, n, s.hunkno, s.valid, s.find, s.at)
    ensures StepMeans(src, hunks, n, Line(src[n], hunks, n, s))
  {
    if s.hunkno < |hunks| {
      LineUndecided(src, hunks, n, s);
    } else {
      LineDone(src, hunks, n, s);
    }
  }

  lemma {:induction false} ScanMeans(src: seq<string>, hunks: seq<Hunk>, n: nat, s: Scan)
    requires hunks != [] && Spaced(hunks) && n <= |src| && s.valid <= s.hunkno && s.valid < |hunks|
    requires Scanned(src, hunks, n, s.hunkno, s.valid, s.find, s.at)
    ensures Meant(src, hunks, ScanFrom(src, hunks, n, s))
    decreases |src| - n
  {
    if n == |src| {
      FileEnded(src, hunks, s.hunkno, s.valid, s.find, s.at);
    } else {
      LineValid(src, hunks, n, s);
      LineMeans(src, hunks, n, s);
      if Line(src[n], hunks, n, s).Next? {
        ScanMeans(src, hunks, n + 1, Line(src[n], hunks, n, s).s);
      }
    }
  }

  /** For spaced hunks, empty source sides allowed, the check does not crash, says
      that the file can be patched when every hunk is there or the last one was
      counted often enough, and complains about the end when it comes too early. */
  lemma {:induction false} SpacedVerdict(src: seq<string>, hunks: seq<Hunk>)
    requires hunks != [] && Spaced(hunks)
    ensures Verdicts(src, hunks).Verdict?
    ensures Verdicts(src, hunks).premature <==> EndsEarly(src, hunks)
    ensures Verdicts(src, hunks).canPatch <==> AllPresent(src, hunks) || Overcounts(src, hunks)
  {
    assert Scanned(src, hunks, 0, 0, 0, [], 0);
    ScanMeans(src, hunks, 0, START);
  }

  lemma {:induction false} ScanCounts(src: seq<string>, hunks: seq<Hunk>, n: nat, s: Scan)
    requires hunks != [] && s.valid <= s.hunkno && s.valid < |hunks|
    ensures var v := ScanFrom(src, hunks, n, s);
      v.Verdict? ==> v.validHunks <= |hunks| && (v.canPatch <==> v.validHunks == |hunks|)
    decreases |src| - n
  {
    if n < |src| {
      LineValid(src, hunks, n, s);
      if Line(src[n], hunks, n, s).Next? {
        ScanCounts(src, hunks, n + 1, Line(src[n], hunks, n, s).s);
      }
    }
  }

  lemma {:induction false} OrderedStarts(es: seq<Edit<string>>, from: nat, j: nat)
    requires Ordered(es, from) && j < |es|
    ensures from < es[j].start
    decreases |es|
  {
    if j > 0 {
      OrderedStarts(es[1..], es[0].start - 1 + |es[0].old_|, j - 1);
    }
  }

  lemma {:induction false} OrderedApart(es: seq<Edit<string>>, from: nat, j: nat, k: nat)
    requires Ordered(es, from) && j < k < |es|
    ensures es[j].start + |es[j].old_| <= es[k].start
    decreases |es|
  {
    if j > 0 {
      OrderedApart(es[1..], es[0].start - 1 + |es[0].old_|, j - 1, k - 1);
    } else {
      OrderedStarts(es[1..], es[0].start - 1 + |es[0].old_|, k - 1);
    }
  }

  /** For well-placed hunks the verdict is the declarative meaning: a file can be
      patched exactly when every source side stands at its source start. */
  lemma {:induction false} WellPlacedVerdict(src: seq<string>, hunks: seq<Hunk>)
    requires hunks != [] && WellPlaced(hunks)
    ensures Spaced(hunks)
    ensures Verdicts(src, hunks).Verdict?
    ensures Verdicts(src, hunks).canPatch <==> AllMatch(src, hunks)
  {
    var es := EditsOf(hunks);
    forall k {:trigger hunks[k]} | 0 <= k < |hunks| ensures hunks[k].startSrc >= 1 {
      OrderedStarts(es, 0, k);
    }
    forall j, k {:trigger hunks[j], hunks[k]} | 0 <= j < k < |hunks| ensures EndLine(hunks[j]) < hunks[k].startSrc {
      OrderedApart(es, 0, j, k);
    }
    SpacedVerdict(src, hunks);
    forall k | 0 <= k < |hunks| ensures Present(src, hunks[k]) <==> Matches(src, hunks[k]) {
    }
  }

  lemma {:induction false} NothingExpected(src: seq<string>, h: Hunk)
    requires SrcLen(h) == 0 && 1 <= h.startSrc <= |src|
    ensures Present(src, h)
  {
    assert Bare(src)[h.startSrc - 1..h.startSrc - 1] == [];
  }

  lemma {:induction false} OtherLine(first: string) returns (line: string)
    ensures SingleLine(line) && Terminated(line) && RStrip(line) != first
  {
    line := if first == "" then "x\n" else "\n";
    assert "x\n"[..1] == "x" && "\n"[..0] == "";
  }

  lemma {:induction false} FirstStands(src: seq<string>, h: Hunk)
    requires SrcLen(h) != 0 && h.startSrc >= 1
    ensures Matches(src, h) ==> h.startSrc <= |src| && RStrip(src[h.startSrc - 1]) == SourceSide(h.text)[0]
  {
    if Matches(src, h) {
      assert Bare(src)[h.startSrc - 1] == SourceSide(h.text)[0];
    }
  }

  /** In a file with enough lines behind a last hunk that expects none, all are counted. */
  lemma {:induction false} LongEnough(src: seq<string>, hunks: seq<Hunk>)
    requires hunks != [] && Spaced(hunks) && SrcLen(hunks[|hunks| - 1]) == 0
    requires |src| >= hunks[|hunks| - 1].startSrc + |hunks|
    ensures Verdicts(src, hunks).Verdict? && Verdicts(src, hunks).canPatch
  {
    NothingExpected(src, hunks[|hunks| - 1]);
    SpacedVerdict(src, hunks);
  }

  /** A long file none of whose lines is the first that hunk `k` expects; it is
      taken for patchable all the same. */
  lemma {:induction false} WrongFile(hunks: seq<Hunk>, k: nat) returns (src: seq<string>)
    requires hunks != [] && Spaced(hunks) && k < |hunks|
    requires SrcLen(hunks[|hunks| - 1]) == 0 && SrcLen(hunks[k]) != 0
    ensures LineList(src) && !Matches(src, hunks[k])
    ensures Verdicts(src, hunks).Verdict? && Verdicts(src, hunks).canPatch
  {
    var line := OtherLine(SourceSide(hunks[k].text)[0]);
    src := seq(hunks[|hunks| - 1].startSrc + |hunks|, i => line);
    FirstStands(src, hunks[k]);
    LongEnough(src, hunks);
  }

  /** The check is right about every file exactly when the last hunk expects a
      source line, or none does: otherwise some file that lacks a source side is
      taken for patchable. */
  lemma {:induction false} OvercountsExactly(hunks: seq<Hunk>)
    requires hunks != [] && Spaced(hunks)
    ensures (forall src | LineList(src) ::
              Verdicts(src, hunks).Verdict? && (Verdicts(src, hunks).canPatch <==> AllPresent(src, hunks)))
       <==> SrcLen(hunks[|hunks| - 1]) > 0 || forall k :: 0 <= k < |hunks| ==> SrcLen(hunks[k]) == 0
  {
    if SrcLen(hunks[|hunks| - 1]) == 0 && exists k :: 0 <= k < |hunks| && SrcLen(hunks[k]) != 0 {
      var k :| 0 <= k < |hunks| && SrcLen(hunks[k]) != 0;
      var src := WrongFile(hunks, k);
      assert LineList(src) && !Present(src, hunks[k]);
    } else {
      forall src | LineList(src)
        ensures Verdicts(src, hunks).Verdict? && (Verdicts(src, hunks).canPatch <==> AllPresent(src, hunks))
      {
        SpacedVerdict(src, hunks);
        if Overcounts(src, hunks) {
          AllEmptyPresent(src, hunks);
        }
      }
    }
  }

  lemma {:induction false} AllEmptyPresent(src: seq<string>, hunks: seq<Hunk>)
    requires hunks != [] && Spaced(hunks) && EndLine(hunks[|hunks| - 1]) <= |src|
    requires forall k :: 0 <= k < |hunks| ==> SrcLen(hunks[k]) == 0
    ensures AllPresent(src, hunks)
  {
    forall k | 0 <= k < |hunks| ensures Present(src, hunks[k]) {
      assert EndLine(hunks[k]) <= EndLine(hunks[|hunks| - 1]);
      NothingExpected(src, hunks[k]);
    }
  }
}
