/** From the bytes of a patch to the patched file: the parser's patches meet what
    the rewriter, the checks and the reversal ask for. */
module ParsedPatches {
  import opened Lines
  import opened Wrappers
  import opened Edits
  import opened Hunks
  import opened Rewriter
  import opened Revert
  import opened Checker
  import opened Apply
  import opened PatchParser
  import opened WellFormed
  import opened PatchPrinter

  // ---- placement, read off the hunk headers ----

  /** By their headers the source ranges start at line 1 or later, are not empty,
      ascend and do not overlap. */
  predicate HeadersPlaced(hunks: seq<Hunk>, from: nat) {
    hunks != [] ==>
      && from < hunks[0].startSrc && hunks[0].linesSrc >= 1
      && HeadersPlaced(hunks[1..], hunks[0].startSrc - 1 + hunks[0].linesSrc)
  }

  /** By their headers the target ranges are the source ranges moved by what the
      earlier hunks add, and not empty. */
  predicate HeadersConsistent(hunks: seq<Hunk>, shift: int) {
    hunks != [] ==>
      && hunks[0].startTgt == hunks[0].startSrc + shift && hunks[0].linesTgt >= 1
      && HeadersConsistent(hunks[1..], shift + hunks[0].linesTgt - hunks[0].linesSrc)
  }

  predicate NoMarkers(hunks: seq<Hunk>) {
    forall k :: 0 <= k < |hunks| ==> NoMarker(hunks[k].text)
  }

  lemma {:induction false} CountsTail(hunks: seq<Hunk>)
    requires hunks != [] && CountsAgree(hunks)
    ensures CountsAgree(hunks[1..])
    ensures hunks[0].linesSrc == SrcLen(hunks[0]) && hunks[0].linesTgt == TgtLen(hunks[0])
  {
  }

  lemma {:induction false} HeadersPlace(hunks: seq<Hunk>, from: nat)
    requires CountsAgree(hunks) && HeadersPlaced(hunks, from)
    ensures Ordered(EditsOf(hunks), from)
    ensures forall k :: 0 <= k < |hunks| ==> SrcLen(hunks[k]) >= 1
    decreases |hunks|
  {
    if hunks != [] {
      CountsTail(hunks);
      EditsStep(hunks);
      HeadersPlace(hunks[1..], hunks[0].startSrc - 1 + hunks[0].linesSrc);
      assert forall k :: 0 < k < |hunks| ==> hunks[k] == hunks[1..][k - 1];
    }
  }

  lemma {:induction false} HeadersConsist(hunks: seq<Hunk>, shift: int)
    requires CountsAgree(hunks) && HeadersConsistent(hunks, shift)
    ensures Consistent(EditsOf(hunks), shift)
    ensures TargetsNonEmpty(hunks)
    decreases |hunks|
  {
    if hunks != [] {
      CountsTail(hunks);
      EditsStep(hunks);
      HeadersConsist(hunks[1..], shift + hunks[0].linesTgt - hunks[0].linesSrc);
      assert forall k :: 0 < k < |hunks| ==> hunks[k] == hunks[1..][k - 1];
    }
  }

  /** What the headers of well-formed hunks tell is true of their texts. */
  lemma {:induction false} HeadersTell(hunks: seq<Hunk>)
    requires GoodHunks(hunks) && NoMarkers(hunks)
    requires HeadersPlaced(hunks, 0) && HeadersConsistent(hunks, 0)
    ensures WellPlaced(hunks) && PlainTexts(hunks) && CountsAgree(hunks)
    ensures TargetsConsistent(hunks) && TargetsNonEmpty(hunks)
  {
    GoodHunksCount(hunks);
    HeadersPlace(hunks, 0);
    HeadersConsist(hunks, 0);
  }

  // ---- parsed and applied ----

  lemma {:induction false} ReadLines(b: string)
    ensures SingleLines(Split(b))
  {
    JoinSplit(b);
  }

  lemma {:induction false} ParsedHunks(b: string, k: nat)
    requires Parse(Split(b)).ok && k < |Parse(Split(b)).items|
    ensures GoodHunks(Parse(Split(b)).items[k].hunks) && Parse(Split(b)).items[k].hunks != []
  {
    ReadLines(b);
    ErrorFreeIsWellFormed(Split(b));
    assert GoodPatch(Parse(Split(b)).items[k], k == 0);
  }

  /** Bytes that parse without error, the hunks of a patch in them whose headers are
      placed and consistent and which have no markers, and any file: the patch is
      written exactly when every source side stands at its place. */
  lemma {:induction false} ParsedPatchApplies(b: string, k: nat, hunks: seq<Hunk>, src: seq<string>)
    requires Parse(Split(b)).ok && k < |Parse(Split(b)).items| && hunks == Parse(Split(b)).items[k].hunks
    requires NoMarkers(hunks) && HeadersPlaced(hunks, 0) && HeadersConsistent(hunks, 0)
    ensures hunks != [] && (Applying(src, hunks, false) == Patching(Patched(src, hunks), 0) <==> AllMatch(src, hunks))
  {
    ParsedHunks(b, k);
    HeadersTell(hunks);
    ApplyMeans(src, hunks, false);
  }

  /** And once it is written, the file has grown as the headers declare, is
      recognised as patched, and reverting the patch restores it, line ends aside. */
  lemma {:induction false} ParsedPatchRoundTrip(b: string, k: nat, hunks: seq<Hunk>, src: seq<string>, out: seq<string>)
    requires Parse(Split(b)).ok && k < |Parse(Split(b)).items| && hunks == Parse(Split(b)).items[k].hunks
    requires NoMarkers(hunks) && HeadersPlaced(hunks, 0) && HeadersConsistent(hunks, 0)
    requires AllMatch(src, hunks) && out == Patched(src, hunks)
    ensures |out| == |src| + DeclaredGrowth(hunks)
    ensures StandFrom(Bare(out), hunks, 0)
    ensures ReversedAll(hunks) != []
    ensures Applying(out, ReversedAll(hunks), false) == Patching(Patched(out, ReversedAll(hunks)), 0)
    ensures Bare(Patched(out, ReversedAll(hunks))) == Bare(src)
  {
    ParsedHunks(b, k);
    HeadersTell(hunks);
    PatchedLength(src, hunks);
    PatchedIsRecognised(src, hunks);
    RevertUndoesApply(src, hunks);
    ReversedNonEmpty(hunks);
    ApplyMeans(out, ReversedAll(hunks), false);
  }

  // ---- printed, parsed again and applied ----

  lemma {:induction false} PrintedContent(l: string)
    requires BodyLine(l) && SingleLine(l)
    ensures Printed(l) != "" && Printed(l)[0] == l[0] && RStrip(Printed(l)[1..]) == RStrip(l[1..])
  {
    PrintedSingle(l);
    if !Terminated(l) {
      assert (l + "\n")[1..] == l[1..] + "\n";
      RStripEol(l[1..], "\n");
    }
  }

  lemma {:induction false} PrintedSide(text: seq<string>, tag: char)
    requires ValidText(text) && SingleLines(text)
    ensures Side(PrintedAll(text), tag) == Side(text, tag)
  {
    if text != [] {
      assert BodyLine(text[0]) && SingleLine(text[0]);
      PrintedContent(text[0]);
      assert PrintedAll(text)[1..] == PrintedAll(text[1..]);
      PrintedSide(text[1..], tag);
    }
  }

  /** Printing changes no hunk's meaning. */
  lemma {:induction false} NormEdits(hunks: seq<Hunk>)
    requires GoodHunks(hunks)
    ensures EditsOf(NormHunks(hunks)) == EditsOf(hunks)
  {
    forall k | 0 <= k < |hunks| ensures EditOf(Norm(hunks[k])) == EditOf(hunks[k]) {
      assert GoodHunk(hunks[k]);
      PrintedSide(hunks[k].text, '-');
      PrintedSide(hunks[k].text, '+');
    }
  }

  lemma {:induction false} NormPlain(hunks: seq<Hunk>)
    requires GoodHunks(hunks) && NoMarkers(hunks)
    ensures PlainTexts(hunks) && PlainTexts(NormHunks(hunks))
  {
    forall k | 0 <= k < |hunks|
      ensures ValidText(hunks[k].text) && ValidText(Norm(hunks[k]).text) && NoMarker(Norm(hunks[k]).text)
    {
      assert GoodHunk(hunks[k]) && NoMarker(hunks[k].text);
      forall i | 0 <= i < |hunks[k].text|
        ensures BodyLine(Printed(hunks[k].text[i])) && Printed(hunks[k].text[i])[0] != '\\' {
        PrintedContent(hunks[k].text[i]);
      }
    }
  }

  /** A patch set that was printed and parsed again changes files as the original
      does: the same files match, and the patched lines are the same, line ends aside. */
  lemma {:induction false} PrintedPatchSameEffect(items: seq<Patch>, k: nat, src: seq<string>)
    requires GoodItems(items) && k < |items| && NoMarkers(items[k].hunks) && Placed(items[k].hunks)
    ensures var back := Parse(DumpLines(items)).items;
      && |back| == |items|
      && (AllMatch(src, back[k].hunks) <==> AllMatch(src, items[k].hunks))
      && (AllMatch(src, items[k].hunks) ==> Bare(Patched(src, back[k].hunks)) == Bare(Patched(src, items[k].hunks)))
  {
    var hunks := items[k].hunks;
    ParseDump(items);
    assert GoodPatch(items[k], k == 0);
    SameEffect(hunks, src);
    NormAt(items, k);
  }

  lemma {:induction false} NormAt(items: seq<Patch>, k: nat)
    requires k < |items|
    ensures NormItems(items)[k].hunks == NormHunks(items[k].hunks)
  {
    if k > 0 {
      NormAt(items[1..], k - 1);
    }
  }

  lemma {:induction false} SameEffect(hunks: seq<Hunk>, src: seq<string>)
    requires GoodHunks(hunks) && NoMarkers(hunks) && Placed(hunks)
    ensures AllMatch(src, NormHunks(hunks)) <==> AllMatch(src, hunks)
    ensures AllMatch(src, hunks) ==> Bare(Patched(src, NormHunks(hunks))) == Bare(Patched(src, hunks))
  {
    NormEdits(hunks);
    NormPlain(hunks);
    AllMatchApplies(src, hunks);
    AllMatchApplies(src, NormHunks(hunks));
    if AllMatch(src, hunks) {
      PatchedIsSplice(src, hunks);
      PatchedIsSplice(src, NormHunks(hunks));
    }
  }
}
