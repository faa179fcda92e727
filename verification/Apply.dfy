/** One file of `apply`: validate, look for an earlier run, rewrite. */
module Apply {
  import opened Lines
  import opened Edits
  import opened Hunks
  import opened Rewriter
  import opened Revert
  import opened Validator
  import opened Checker

  /** `errors` counts what `apply` counts; the file changes only when patched. */
  datatype Outcome =
    | Crashed
    | Patching(out: seq<string>, errors: nat)
    | AlreadyPatched(errors: nat)
    | SourceDiffers(errors: nat)
    | BackupTaken(errors: nat)

  /** `taken`: there is a file already where the backup would go. */
  ghost function Applying(src: seq<string>, hunks: seq<Hunk>, taken: bool): Outcome
    requires hunks != []
  {
    var v := Verdicts(src, hunks);
    if v.IndexError? then Crashed
    else
      var early := if v.premature then 1 else 0;
      if v.validHunks < |hunks| then
        if StandFrom(Bare(src), hunks, 0) then AlreadyPatched(early) else SourceDiffers(early + 1)
      else if taken then BackupTaken(early + 1)
      else Patching(Patched(src, hunks), early)
  }

  method ApplyFile(src: seq<string>, hunks: seq<Hunk>, taken: bool) returns (r: Outcome)
    requires hunks != []
    requires forall i :: 0 <= i < |src| ==> src[i] != ""
    ensures r == Applying(src, hunks, taken)
  {
    var v := Validate(src, hunks);
    ScanCounts(src, hunks, 0, START);
    if v.IndexError? {
      return Crashed;
    }
    var errors := 0;
    if v.premature {
      errors := errors + 1;
    }
    if v.validHunks < |hunks| {
      var matched := MatchFileHunks(src, hunks);
      if matched {
        r := AlreadyPatched(errors);
      } else {
        errors := errors + 1;
        r := SourceDiffers(errors);
      }
    }
    if v.canPatch {
      if taken {
        errors := errors + 1;
        r := BackupTaken(errors);
      } else {
        var out := PatchStream(src, hunks);
        r := Patching(out, errors);
      }
    }
  }

  /** What a patch of hunks apart from each other does to any file, empty source
      sides allowed: it is written exactly when every hunk is there or the last one
      was counted often enough, and the backup's place is free; and then without an
      error.  Otherwise a file that ends too early costs one error, and one that is
      not patched already another. */
  lemma {:induction false} ApplySpaced(src: seq<string>, hunks: seq<Hunk>, taken: bool)
    requires hunks != [] && Spaced(hunks)
    ensures Applying(src, hunks, taken) ==
      if AllPresent(src, hunks) || Overcounts(src, hunks) then
        if taken then BackupTaken(1) else Patching(Patched(src, hunks), 0)
      else
        var early := if EndsEarly(src, hunks) then 1 else 0;
        if StandFrom(Bare(src), hunks, 0) then AlreadyPatched(early) else SourceDiffers(early + 1)
  {
    SpacedVerdict(src, hunks);
    ScanCounts(src, hunks, 0, START);
    if AllPresent(src, hunks) || Overcounts(src, hunks) {
      assert Present(src, hunks[|hunks| - 1]);
    }
  }

  /** The same for well-placed hunks: the file is written exactly when every source
      side stands at its place and the backup's place is free. */
  lemma {:induction false} ApplyMeans(src: seq<string>, hunks: seq<Hunk>, taken: bool)
    requires hunks != [] && WellPlaced(hunks)
    ensures Applying(src, hunks, taken) == Patching(Patched(src, hunks), 0) <==> AllMatch(src, hunks) && !taken
    ensures Applying(src, hunks, taken) == BackupTaken(1) <==> AllMatch(src, hunks) && taken
    ensures !AllMatch(src, hunks) ==>
      (Applying(src, hunks, taken).AlreadyPatched? <==> StandFrom(Bare(src), hunks, 0))
    ensures !AllMatch(src, hunks) && !StandFrom(Bare(src), hunks, 0) ==> Applying(src, hunks, taken).SourceDiffers?
  {
    WellPlacedVerdict(src, hunks);
    SpacedVerdict(src, hunks);
    ApplySpaced(src, hunks, taken);
  }

  /** Exactly for which hunks a file is never written although a hunk is not there. */
  lemma {:induction false} NeverWrong(hunks: seq<Hunk>)
    requires hunks != [] && Spaced(hunks)
    ensures (forall src | LineList(src) && Applying(src, hunks, false).Patching? :: AllPresent(src, hunks))
       <==> SrcLen(hunks[|hunks| - 1]) > 0 || forall k :: 0 <= k < |hunks| ==> SrcLen(hunks[k]) == 0
  {
    if SrcLen(hunks[|hunks| - 1]) == 0 && exists k :: 0 <= k < |hunks| && SrcLen(hunks[k]) != 0 {
      var k :| 0 <= k < |hunks| && SrcLen(hunks[k]) != 0;
      var src := WrongFile(hunks, k);
      PatchingMeans(src, hunks);
      assert Applying(src, hunks, false).Patching? && !Present(src, hunks[k]);
    } else {
      OvercountsExactly(hunks);
      forall src | LineList(src) && Applying(src, hunks, false).Patching? ensures AllPresent(src, hunks) {
        PatchingMeans(src, hunks);
      }
    }
  }

  lemma {:induction false} PatchingMeans(src: seq<string>, hunks: seq<Hunk>)
    requires hunks != [] && Spaced(hunks)
    ensures Verdicts(src, hunks).Verdict?
    ensures Applying(src, hunks, false).Patching? <==> Verdicts(src, hunks).canPatch
  {
    SpacedVerdict(src, hunks);
    ApplySpaced(src, hunks, false);
  }

  /** Applying a patch and then its reverse: both runs write, neither counts an
      error, and the file is back, line ends aside. */
  lemma {:induction false} ApplyThenRevert(src: seq<string>, hunks: seq<Hunk>)
    requires hunks != [] && WellPlaced(hunks) && PlainTexts(hunks)
    requires TargetsConsistent(hunks) && TargetsNonEmpty(hunks)
    requires AllMatch(src, hunks)
    ensures var first := Applying(src, hunks, false);
      && first.Patching? && first.errors == 0
      && ReversedAll(hunks) != []
      && var second := Applying(first.out, ReversedAll(hunks), false);
         second.Patching? && second.errors == 0 && Bare(second.out) == Bare(src)
  {
    ApplyMeans(src, hunks, false);
    RevertUndoesApply(src, hunks);
    ReversedNonEmpty(hunks);
    ApplyMeans(Patched(src, hunks), ReversedAll(hunks), false);
  }

  /** A second run on a patched file never finds the source different. */
  lemma {:induction false} ApplyTwice(src: seq<string>, hunks: seq<Hunk>)
    requires hunks != [] && WellPlaced(hunks) && PlainTexts(hunks)
    requires TargetsConsistent(hunks) && AllMatch(src, hunks)
    ensures var again := Applying(Patched(src, hunks), hunks, false);
      if AllMatch(Patched(src, hunks), hunks) then again.Patching? else again.AlreadyPatched?
  {
    ApplyMeans(src, hunks, false);
    PatchedIsRecognised(src, hunks);
    ApplyMeans(Patched(src, hunks), hunks, false);
  }
}
