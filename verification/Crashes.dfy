/** When the one-pass check reads past the expected lines of a hunk. */
module Crashes {
  import opened Lines
  import opened Edits
  import opened Hunks
  import opened Validator

  // ---- the texts of the expected lines ----

  lemma {:induction false} SideStripped(text: seq<string>, tag: char)
    ensures forall i :: 0 <= i < |Side(text, tag)| ==> RStrip(Side(text, tag)[i]) == Side(text, tag)[i]
  {
    if text != [] {
      SideStripped(text[1..], tag);
      if text[0] != "" {
        RStripIdempotent(text[0][1..]);
      }
    }
  }

  /** The texts consist of lines, as everything that was read line by line. */
  predicate SingleTexts(hunks: seq<Hunk>) {
    forall k, i {:trigger hunks[k].text[i]} :: 0 <= k < |hunks| && 0 <= i < |hunks[k].text| ==>
      SingleLine(hunks[k].text[i])
  }

  lemma {:induction false} StripSingle(s: string)
    requires SingleLine(s)
    ensures SingleLine(RStrip(s) + "\n")
  {
    if s != "" && IsEol(s[|s| - 1]) {
      StripSingle(s[..|s| - 1]);
    }
  }

  lemma {:induction false} SideSingle(text: seq<string>, tag: char)
    requires forall i :: 0 <= i < |text| ==> SingleLine(text[i])
    ensures forall i :: 0 <= i < |Side(text, tag)| ==> SingleLine(Side(text, tag)[i] + "\n")
  {
    if text != [] {
      SideSingle(text[1..], tag);
      if text[0] != "" {
        var content := text[0][1..];
        assert forall i :: 0 <= i < |content| ==> content[i] == text[0][i + 1];
        StripSingle(content);
      }
    }
  }

  // ---- a search without a file ----

  /** The text that the line is compared with, if it is compared. */
  function Expected(hunks: seq<Hunk>, n: nat, s: Scan): string
    requires hunks != []
  {
    var s := Begin(n, Current(hunks, s.hunkno), s);
    if s.at < |s.find| then s.find[s.at] else ""
  }

  /** A line that agrees, or one that does not. */
  function Sample(hunks: seq<Hunk>, n: nat, s: Scan, agrees: bool): string
    requires hunks != []
  {
    Expected(hunks, n, s) + if agrees then "\n" else "x\n"
  }

  function LastStart(hunks: seq<Hunk>): nat {
    if hunks == [] then 0 else Max(hunks[0].startSrc, LastStart(hunks[1..]))
  }

  function LongestSide(hunks: seq<Hunk>): nat {
    if hunks == [] then 0 else Max(SrcLen(hunks[0]), LongestSide(hunks[1..]))
  }

  function Max(a: nat, b: nat): nat {
    if a < b then b else a
  }

  /** No line from here on is compared, whatever the hunk in work has left behind. */
  function Reach(hunks: seq<Hunk>): nat {
    LastStart(hunks) + LongestSide(hunks)
  }

  /** Can the check crash, each line being free to agree or not? A search over the
      hunks alone. */
  predicate CanCrash(hunks: seq<Hunk>, n: nat, s: Scan)
    requires hunks != []
    decreases Reach(hunks) - n, 1
  {
    n < Reach(hunks) && (CrashesAfter(hunks, n, s, true) || CrashesAfter(hunks, n, s, false))
  }

  predicate CrashesAfter(hunks: seq<Hunk>, n: nat, s: Scan, agrees: bool)
    requires hunks != [] && n < Reach(hunks)
    decreases Reach(hunks) - n, 0
  {
    match Line(Sample(hunks, n, s, agrees), hunks, n, s)
    case Stop(v) => v == IndexError
    case Next(s') => CanCrash(hunks, n + 1, s')
  }

  /** The expected lines are none or those of some hunk. */
  ghost predicate Collected(hunks: seq<Hunk>, find: seq<string>) {
    find == [] || exists k :: 0 <= k < |hunks| && find == SourceSide(hunks[k].text)
  }

  lemma {:induction false} StartBound(hunks: seq<Hunk>, k: nat)
    requires k < |hunks|
    ensures hunks[k].startSrc <= LastStart(hunks) && SrcLen(hunks[k]) <= LongestSide(hunks)
  {
    if k > 0 {
      StartBound(hunks[1..], k - 1);
    }
  }

  lemma {:induction false} CollectedBound(hunks: seq<Hunk>, find: seq<string>)
    requires Collected(hunks, find)
    ensures |find| <= LongestSide(hunks)
  {
    if find != [] {
      var k: nat :| k < |hunks| && find == SourceSide(hunks[k].text);
      StartBound(hunks, k);
    }
  }

  lemma {:induction false} CurrentBound(hunks: seq<Hunk>, hunkno: nat)
    requires hunks != []
    ensures Current(hunks, hunkno) in hunks
    ensures Current(hunks, hunkno).startSrc <= LastStart(hunks)
  {
    StartBound(hunks, if hunkno < |hunks| then hunkno else |hunks| - 1);
  }

  lemma {:induction false} BeginKeeps(hunks: seq<Hunk>, n: nat, s: Scan)
    requires hunks != [] && Collected(hunks, s.find)
    ensures Collected(hunks, Begin(n, Current(hunks, s.hunkno), s).find)
  {
    CurrentBound(hunks, s.hunkno);
  }

  lemma {:induction false} LineKeeps(line: string, hunks: seq<Hunk>, n: nat, s: Scan)
    requires hunks != [] && Collected(hunks, s.find)
    ensures Line(line, hunks, n, s).Next? ==> Collected(hunks, Line(line, hunks, n, s).s.find)
  {
    BeginKeeps(hunks, n, s);
  }

  /** Past the reach of the hunks no line is compared. */
  lemma {:induction false} PastReach(src: seq<string>, hunks: seq<Hunk>, n: nat, s: Scan)
    requires hunks != [] && Collected(hunks, s.find) && Reach(hunks) <= n
    ensures ScanFrom(src, hunks, n, s) != IndexError
    decreases |src| - n
  {
    if n < |src| {
      CurrentBound(hunks, s.hunkno);
      BeginKeeps(hunks, n, s);
      CollectedBound(hunks, Begin(n, Current(hunks, s.hunkno), s).find);
      LineKeeps(src[n], hunks, n, s);
      if Line(src[n], hunks, n, s).Next? {
        PastReach(src, hunks, n + 1, Line(src[n], hunks, n, s).s);
      }
    }
  }

  lemma {:induction false} ExpectedStripped(hunks: seq<Hunk>, n: nat, s: Scan)
    requires hunks != [] && Collected(hunks, s.find)
    ensures RStrip(Expected(hunks, n, s)) == Expected(hunks, n, s)
  {
    BeginKeeps(hunks, n, s);
    var find := Begin(n, Current(hunks, s.hunkno), s).find;
    if find != [] {
      var k: nat :| k < |hunks| && find == SourceSide(hunks[k].text);
      SideStripped(hunks[k].text, '-');
    }
  }

  lemma {:induction false} SampleStripped(hunks: seq<Hunk>, n: nat, s: Scan, agrees: bool)
    requires hunks != [] && Collected(hunks, s.find)
    ensures RStrip(Sample(hunks, n, s, agrees)) == Expected(hunks, n, s) <==> agrees
  {
    var e := Expected(hunks, n, s);
    if agrees {
      ExpectedStripped(hunks, n, s);
      RStripEol(e, "\n");
    } else {
      assert RStrip(e + "x") == e + "x";
      RStripEol(e + "x", "\n");
      assert (e + "x") + "\n" == e + "x\n";
    }
  }

  /** All that counts of a line is whether it agrees. */
  lemma {:induction false} OnlyAgreement(a: string, b: string, hunks: seq<Hunk>, n: nat, s: Scan)
    requires hunks != []
    requires RStrip(a) == Expected(hunks, n, s) <==> RStrip(b) == Expected(hunks, n, s)
    ensures Line(a, hunks, n, s) == Line(b, hunks, n, s)
  {
  }

  lemma {:induction false} CrashIsFound(src: seq<string>, hunks: seq<Hunk>, n: nat, s: Scan)
    requires hunks != [] && Collected(hunks, s.find)
    requires ScanFrom(src, hunks, n, s) == IndexError
    ensures CanCrash(hunks, n, s)
    decreases |src| - n
  {
    if n >= Reach(hunks) {
      PastReach(src, hunks, n, s);
    } else {
      var agrees := RStrip(src[n]) == Expected(hunks, n, s);
      SampleStripped(hunks, n, s, agrees);
      OnlyAgreement(src[n], Sample(hunks, n, s, agrees), hunks, n, s);
      LineKeeps(src[n], hunks, n, s);
      if Line(src[n], hunks, n, s).Next? {
        CrashIsFound(src, hunks, n + 1, Line(src[n], hunks, n, s).s);
      }
      assert CrashesAfter(hunks, n, s, agrees);
    }
  }

  lemma {:induction false} SampleLine(hunks: seq<Hunk>, n: nat, s: Scan, agrees: bool)
    requires hunks != [] && Collected(hunks, s.find) && SingleTexts(hunks)
    ensures SingleLine(Sample(hunks, n, s, agrees)) && Terminated(Sample(hunks, n, s, agrees))
  {
    BeginKeeps(hunks, n, s);
    var s' := Begin(n, Current(hunks, s.hunkno), s);
    if s'.at < |s'.find| {
      var k: nat :| k < |hunks| && s'.find == SourceSide(hunks[k].text);
      assert forall i :: 0 <= i < |hunks[k].text| ==> SingleLine(hunks[k].text[i]);
      SideSingle(hunks[k].text, '-');
      var e := Expected(hunks, n, s);
      assert SingleLine(e + "\n");
      forall i | 0 <= i < |e| ensures e[i] != '\n' {
        assert (e + "\n")[i] == e[i];
      }
    }
  }

  ghost predicate AllTerminated(src: seq<string>) {
    forall i :: 0 <= i < |src| ==> SingleLine(src[i]) && Terminated(src[i])
  }

  /** A way through the search is a file, written line by line. */
  lemma {:induction false} FileOfSearch(front: seq<string>, hunks: seq<Hunk>, s: Scan) returns (src: seq<string>)
    requires hunks != [] && Collected(hunks, s.find) && CanCrash(hunks, |front|, s)
    ensures front <= src && ScanFrom(src, hunks, |front|, s) == IndexError
    ensures SingleTexts(hunks) && AllTerminated(front) ==> AllTerminated(src)
    decreases Reach(hunks) - |front|
  {
    var n := |front|;
    var agrees := CrashesAfter(hunks, n, s, true);
    var line := Sample(hunks, n, s, agrees);
    if SingleTexts(hunks) {
      SampleLine(hunks, n, s, agrees);
    }
    LineKeeps(line, hunks, n, s);
    if Line(line, hunks, n, s).Stop? {
      src := front + [line];
    } else {
      src := FileOfSearch(front + [line], hunks, Line(line, hunks, n, s).s);
      assert src[n] == line;
    }
  }

  /** A file that makes the check crash, whenever the search finds a way. */
  lemma {:induction false} CrashingFile(hunks: seq<Hunk>) returns (src: seq<string>)
    requires hunks != [] && CanCrash(hunks, 0, START)
    ensures Verdicts(src, hunks) == IndexError
    ensures SingleTexts(hunks) ==> LineList(src)
  {
    src := FileOfSearch([], hunks, START);
  }

  /** For every list of hunks: the check crashes on no file exactly when the search
      finds no way; for texts made of lines it is enough to look at readable files. */
  lemma {:induction false} CrashesExactly(hunks: seq<Hunk>)
    requires hunks != []
    ensures (forall src :: Verdicts(src, hunks).Verdict?) <==> !CanCrash(hunks, 0, START)
    ensures SingleTexts(hunks) ==>
      ((forall src | LineList(src) :: Verdicts(src, hunks).Verdict?) <==> !CanCrash(hunks, 0, START))
  {
    if CanCrash(hunks, 0, START) {
      var src := CrashingFile(hunks);
      assert !Verdicts(src, hunks).Verdict?;
    } else {
      forall src ensures Verdicts(src, hunks).Verdict? {
        if Verdicts(src, hunks) == IndexError {
          CrashIsFound(src, hunks, 0, START);
        }
      }
    }
  }

  // ---- ascending hunks that overlap ----

  /** Every hunk starts below the one before, wherever that one ends. */
  predicate Ascending(hunks: seq<Hunk>) {
    && (forall k {:trigger hunks[k]} :: 0 <= k < |hunks| ==> hunks[k].startSrc >= 1)
    && (forall j, k {:trigger hunks[j], hunks[k]} :: 0 <= j < k < |hunks| ==> hunks[j].startSrc < hunks[k].startSrc)
  }

  /** Hunk `k` is decided by a line before the next hunk starts. */
  predicate Clear(hunks: seq<Hunk>, k: nat) {
    k + 1 < |hunks| ==> EndLine(hunks[k]) < hunks[k + 1].startSrc
  }

  lemma {:induction false} ClearSpaced(hunks: seq<Hunk>)
    requires Ascending(hunks)
    ensures Spaced(hunks) <==> forall k: nat :: k < |hunks| ==> Clear(hunks, k)
  {
    if forall k: nat :: k < |hunks| ==> Clear(hunks, k) {
      forall j, k {:trigger hunks[j], hunks[k]} | 0 <= j < k < |hunks| ensures EndLine(hunks[j]) < hunks[k].startSrc {
        assert Clear(hunks, j);
        assert hunks[j + 1].startSrc <= hunks[k].startSrc;
      }
    }
  }

  /** The first hunk that reaches into the next one. */
  lemma {:induction false} FirstOverlap(hunks: seq<Hunk>, n: nat) returns (k: nat)
    requires exists k: nat :: n <= k < |hunks| && !Clear(hunks, k)
    requires forall i: nat :: i < n ==> Clear(hunks, i)
    ensures k < |hunks| && !Clear(hunks, k) && forall i: nat :: i < k ==> Clear(hunks, i)
    decreases |hunks| - n
  {
    if !Clear(hunks, n) {
      k := n;
    } else {
      k := FirstOverlap(hunks, n + 1);
    }
  }

  /** A line before hunk `k` is decided, the hunks before it being clear of each
      other: some hunk up to `k` is in work, or `k` was found by this very line. */
  lemma {:induction false} CrashStep(src: seq<string>, hunks: seq<Hunk>, k: nat, n: nat, s: Scan)
    requires Ascending(hunks) && k + 1 < |hunks| && forall i: nat :: i < k ==> Clear(hunks, i)
    requires n < |src| && s.hunkno <= k && Undecided(src, n, hunks[s.hunkno], s.find, s.at)
    requires Matches(src, hunks[k]) && SrcLen(hunks[k]) > 0
    ensures var r := Line(src[n], hunks, n, s);
      && r.Next?
      && (r.s.hunkno <= k ==> Undecided(src, n + 1, hunks[r.s.hunkno], r.s.find, r.s.at))
      && (r.s.hunkno > k ==>
           && r.s.hunkno == k + 1 && n + 1 == EndLine(hunks[k])
           && r.s.find == SourceSide(hunks[k].text) && r.s.at == |r.s.find|)
  {
    var h := hunks[s.hunkno];
    if h.startSrc <= n + 1 {
      CompareMeans(src, n, h, s);
      assert Clear(hunks, s.hunkno) || s.hunkno == k;
    }
  }

  /** Once hunk `k` is found the next line of the file is looked up in its
      expected lines, past their end. */
  lemma {:induction false} CrashLine(src: seq<string>, hunks: seq<Hunk>, k: nat, n: nat, s: Scan)
    requires Ascending(hunks) && k + 1 < |hunks| && !Clear(hunks, k)
    requires n == EndLine(hunks[k]) < |src| && s.hunkno == k + 1
    requires s.find == SourceSide(hunks[k].text) && s.at == |s.find|
    ensures Line(src[n], hunks, n, s) == Stop(IndexError)
  {
  }

  lemma {:induction false} CrashFrom(src: seq<string>, hunks: seq<Hunk>, k: nat, n: nat, s: Scan)
    requires Ascending(hunks) && k + 1 < |hunks| && !Clear(hunks, k) && forall i: nat :: i < k ==> Clear(hunks, i)
    requires s.hunkno <= k && Undecided(src, n, hunks[s.hunkno], s.find, s.at)
    requires n < EndLine(hunks[k]) < |src| && Matches(src, hunks[k]) && SrcLen(hunks[k]) > 0
    ensures ScanFrom(src, hunks, n, s) == IndexError
    decreases |src| - n
  {
    CrashStep(src, hunks, k, n, s);
    var next := Line(src[n], hunks, n, s).s;
    if next.hunkno <= k {
      assert next.hunkno == k || (Clear(hunks, next.hunkno) && hunks[next.hunkno + 1].startSrc <= hunks[k].startSrc);
      CrashFrom(src, hunks, k, n + 1, next);
    } else {
      CrashLine(src, hunks, k, n + 1, next);
    }
  }

  /** The lines that a side stands for, each with a line feed. */
  function Fed(side: seq<string>): (r: seq<string>)
    ensures |r| == |side|
    ensures forall i {:trigger r[i]} :: 0 <= i < |side| ==> r[i] == side[i] + "\n"
  {
    seq(|side|, i requires 0 <= i < |side| => side[i] + "\n")
  }

  lemma {:induction false} FedBare(text: seq<string>)
    ensures Bare(Fed(SourceSide(text))) == SourceSide(text)
  {
    SideStripped(text, '-');
    var side := SourceSide(text);
    forall i | 0 <= i < |side| ensures Bare(Fed(side))[i] == side[i] {
      RStripEol(side[i], "\n");
    }
  }

  /** A file that holds hunk `k` and one more line. */
  function FileWith(h: Hunk): seq<string>
    requires h.startSrc >= 1
  {
    seq(h.startSrc - 1, i => "\n") + Fed(SourceSide(h.text)) + ["\n"]
  }

  lemma {:induction false} FileWithHolds(h: Hunk)
    requires h.startSrc >= 1
    ensures Matches(FileWith(h), h) && |FileWith(h)| == h.startSrc + SrcLen(h)
  {
    var front, block := seq(h.startSrc - 1, i => "\n"), Fed(SourceSide(h.text));
    var src := FileWith(h);
    assert src[h.startSrc - 1..h.startSrc - 1 + SrcLen(h)] == block;
    BareSlice(src, h.startSrc - 1, h.startSrc - 1 + SrcLen(h));
    FedBare(h.text);
  }

  lemma {:induction false} FileWithLines(h: Hunk)
    requires h.startSrc >= 1 && forall i :: 0 <= i < |h.text| ==> SingleLine(h.text[i])
    ensures LineList(FileWith(h))
  {
    SideSingle(h.text, '-');
  }

  /** Overlapping hunks make the check read past the expected lines, on the file
      that holds the first of them. */
  lemma {:induction false} OverlapCrashes(hunks: seq<Hunk>) returns (src: seq<string>)
    requires Ascending(hunks) && !Spaced(hunks)
    ensures hunks != [] && Verdicts(src, hunks) == IndexError
    ensures SingleTexts(hunks) ==> LineList(src)
  {
    ClearSpaced(hunks);
    var k := FirstOverlap(hunks, 0);
    src := FileWith(hunks[k]);
    FileWithHolds(hunks[k]);
    CrashFrom(src, hunks, k, 0, START);
    if SingleTexts(hunks) {
      assert forall i :: 0 <= i < |hunks[k].text| ==> SingleLine(hunks[k].text[i]);
      FileWithLines(hunks[k]);
    }
  }

  /** With ascending starts the search finds a way exactly when two hunks overlap. */
  lemma {:induction false} AscendingCrashes(hunks: seq<Hunk>)
    requires hunks != [] && Ascending(hunks)
    ensures CanCrash(hunks, 0, START) <==> !Spaced(hunks)
  {
    if Spaced(hunks) {
      if CanCrash(hunks, 0, START) {
        var src := CrashingFile(hunks);
        SpacedVerdict(src, hunks);
      }
    } else {
      var src := OverlapCrashes(hunks);
      CrashIsFound(src, hunks, 0, START);
    }
  }
}
