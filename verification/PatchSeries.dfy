/** Splitting an exported patch into its changesets, and importing them one run at a time. */
module PatchSeries {
  import opened Sequences
  import opened Wrappers

  const MARKER := "# HG changeset patch\n"

  function Concat(pieces: seq<seq<string>>): seq<string> {
    if pieces == [] then [] else Concat(pieces[..|pieces| - 1]) + pieces[|pieces| - 1]
  }

  predicate MarkerFirstOnly(piece: seq<string>) {
    forall i :: 0 < i < |piece| ==> piece[i] != MARKER
  }

  /** One file per changeset: the marker line stands first or nowhere, and every
      file but the first starts with it. */
  predicate Pieces(pieces: seq<seq<string>>) {
    && pieces != []
    && (forall k :: 0 <= k < |pieces| ==> MarkerFirstOnly(pieces[k]))
    && (forall k :: 0 < k < |pieces| ==> pieces[k] != [] && pieces[k][0] == MARKER)
    && (|pieces| > 1 ==> pieces[0] != [])
  }

  method SplitPatch(lines: seq<string>) returns (pieces: seq<seq<string>>)
    ensures Pieces(pieces) && Concat(pieces) == lines
  {
    var done: seq<seq<string>> := [];
    var piece: seq<string> := [];
    for i := 0 to |lines|
      invariant Pieces(done + [piece])
      invariant Concat(done) + piece == lines[..i]
      invariant i > 0 ==> piece != []
    {
      var line := lines[i];
      AddLine(done, piece, line);
      AddText(done, piece, line, lines[..i]);
      assert lines[..i + 1] == lines[..i] + [line];
      if line == MARKER && |piece| > 0 {
        done, piece := done + [piece], [line];
      } else {
        piece := piece + [line];
      }
    }
    pieces := done + [piece];
    assert pieces[..|pieces| - 1] == done;
    assert lines[..|lines|] == lines;
  }

  /** One more line: a marker opens a new piece unless the open one is empty. */
  lemma {:induction false} AddLine(done: seq<seq<string>>, piece: seq<string>, line: string)
    requires Pieces(done + [piece])
    ensures line == MARKER && piece != [] ==> Pieces(done + [piece] + [[line]])
    ensures !(line == MARKER && piece != []) ==> Pieces(done + [piece + [line]])
  {
    assert forall k :: 0 <= k < |done| ==> (done + [piece])[k] == done[k];
    assert (done + [piece])[|done|] == piece;
  }

  lemma {:induction false} AddText(done: seq<seq<string>>, piece: seq<string>, line: string, all: seq<string>)
    requires Concat(done) + piece == all
    ensures Concat(done + [piece]) + [line] == all + [line]
    ensures Concat(done) + (piece + [line]) == all + [line]
  {
    assert (done + [piece])[..|done|] == done;
    assert Concat(done) + (piece + [line]) == Concat(done) + piece + [line];
  }

  lemma {:induction false} ConcatNonEmpty(pieces: seq<seq<string>>)
    requires pieces != [] && pieces[0] != []
    ensures Concat(pieces) != []
  {
    if |pieces| > 1 {
      ConcatNonEmpty(pieces[..|pieces| - 1]);
    }
  }

  predicate NoMarkerAfter(all: seq<string>, n: nat) {
    forall i :: n < i < |all| ==> all[i] != MARKER
  }

  /** The last piece starts at the last marker that is not the very first line. */
  lemma {:induction false} LastStart(pieces: seq<seq<string>>)
    requires Pieces(pieces)
    ensures var all, n := Concat(pieces), |Concat(pieces[..|pieces| - 1])|;
      && n <= |all| && all[n..] == pieces[|pieces| - 1] && all[..n] == Concat(pieces[..|pieces| - 1])
      && NoMarkerAfter(all, n)
      && (|pieces| == 1 ==> n == 0)
      && (|pieces| > 1 ==> 0 < n < |all| && all[n] == MARKER)
  {
    var init, last := pieces[..|pieces| - 1], pieces[|pieces| - 1];
    var all, n := Concat(pieces), |Concat(init)|;
    if |pieces| > 1 {
      ConcatNonEmpty(init);
    }
    forall i | n < i < |all| ensures all[i] != MARKER {
      assert all[i] == last[i - n];
    }
  }

  /** These properties leave one way to cut: two lists of pieces of the same lines
      are the same list. */
  lemma {:induction false} PiecesUnique(a: seq<seq<string>>, b: seq<seq<string>>)
    requires Pieces(a) && Pieces(b) && Concat(a) == Concat(b)
    ensures a == b
    decreases |a|
  {
    LastStart(a);
    LastStart(b);
    var a', b' := a[..|a| - 1], b[..|b| - 1];
    var n, m := |Concat(a')|, |Concat(b')|;
    assert n == m;
    assert a[|a| - 1] == b[|b| - 1];
    if |a| > 1 {
      PiecesUnique(a', b');
    }
    assert a == a' + [a[|a| - 1]] && b == b' + [b[|b| - 1]];
  }

  // ---- runs ----

  /** One patch handed to the client; `commit` unless it is the pending one. */
  datatype Import = Import(patch: string, commit: bool)

  /** The list read from the `applied` file; `repatch` takes its last entry back. */
  function ReadApplied(file: Option<seq<string>>, repatch: bool): seq<string> {
    match file
    case None => []
    case Some(list) => if repatch && list != [] then list[..|list| - 1] else list
  }

  function AllPending(series: seq<string>): seq<Import> {
    seq(|series|, i requires 0 <= i < |series| => Import(series[i], false))
  }

  /** The patches up to and with the first one that was not applied before. */
  function UpToPending(series: seq<string>, applied: seq<string>): seq<Import> {
    if series == [] then []
    else if series[0] in applied then [Import(series[0], true)] + UpToPending(series[1..], applied)
    else [Import(series[0], false)]
  }

  function Patches(imports: seq<Import>): seq<string> {
    seq(|imports|, i requires 0 <= i < |imports| => imports[i].patch)
  }

  /** One run: what is imported, and the `applied` file afterwards. */
  function RunOnce(series: seq<string>, file: Option<seq<string>>, repatch: bool, split: bool)
    : (seq<Import>, Option<seq<string>>)
  {
    var applied := ReadApplied(file, repatch);
    if series == applied || !split then (AllPending(series), file)
    else
      var imports := UpToPending(series, applied);
      (imports, Some(Patches(imports)))
  }

  /** A beginning of the series, each patch committed if it was applied before, up to
      the first one that was not, or all of it; and the file lists what was imported. */
  predicate Imported(series: seq<string>, applied: seq<string>, imports: seq<Import>, file: Option<seq<string>>) {
    && |imports| <= |series|
    && (forall i :: 0 <= i < |imports| ==>
         imports[i].patch == series[i] && (imports[i].commit <==> series[i] in applied))
    && (forall i :: 0 <= i < |imports| - 1 ==> imports[i].commit)
    && (|imports| < |series| ==> imports != [] && !imports[|imports| - 1].commit)
    && file == Some(series[..|imports|])
  }

  lemma {:induction false} UpToPendingMeans(series: seq<string>, applied: seq<string>)
    ensures Imported(series, applied, UpToPending(series, applied), Some(Patches(UpToPending(series, applied))))
  {
    var r := UpToPending(series, applied);
    if series != [] && series[0] in applied {
      UpToPendingMeans(series[1..], applied);
      var rest := UpToPending(series[1..], applied);
      assert r == [Import(series[0], true)] + rest;
      assert forall i :: 0 < i < |r| ==> r[i] == rest[i - 1] && series[i] == series[1..][i - 1];
    }
    assert Patches(r) == series[..|r|];
  }

  class PatchProcessor {
    var patchSeries: seq<string>
    var appliedPatches: seq<string>

    constructor (series: seq<string>, file: Option<seq<string>>, repatch: bool)
      ensures patchSeries == series && appliedPatches == ReadApplied(file, repatch)
    {
      patchSeries := series;
      appliedPatches := [];
      new;
      if file.Some? {
        appliedPatches := file.value;
        if repatch && |appliedPatches| > 0 {
          appliedPatches := appliedPatches[..|appliedPatches| - 1];
        }
      }
    }

    method Apply(split: bool, file: Option<seq<string>>) returns (imports: seq<Import>, file': Option<seq<string>>)
      ensures (imports, file') ==
        if patchSeries == appliedPatches || !split then (AllPending(patchSeries), file)
        else (UpToPending(patchSeries, appliedPatches), Some(Patches(UpToPending(patchSeries, appliedPatches))))
      ensures patchSeries == appliedPatches || !split ==>
        |imports| == |patchSeries| && file' == file
        && forall i :: 0 <= i < |imports| ==> imports[i].patch == patchSeries[i] && !imports[i].commit
      ensures patchSeries != appliedPatches && split ==> Imported(patchSeries, appliedPatches, imports, file')
    {
      UpToPendingMeans(patchSeries, appliedPatches);
      if patchSeries == appliedPatches || !split {
        imports := ApplyAll();
        return imports, file;
      }
      var written;
      imports, written := ApplySeries();
      return imports, Some(written);
    }

    /** All patches at once, nothing committed. */
    method ApplyAll() returns (imports: seq<Import>)
      ensures imports == AllPending(patchSeries)
    {
      imports := [];
      for i := 0 to |patchSeries|
        invariant imports == AllPending(patchSeries)[..i]
      {
        imports := imports + [Import(patchSeries[i], false)];
      }
      assert AllPending(patchSeries)[..|patchSeries|] == AllPending(patchSeries);
    }

    /** One patch after the other up to the pending one; each is written to the list. */
    method ApplySeries() returns (imports: seq<Import>, written: seq<string>)
      ensures imports == UpToPending(patchSeries, appliedPatches) && written == Patches(imports)
    {
      imports, written := [], [];
      for i := 0 to |patchSeries|
        invariant imports + UpToPending(patchSeries[i..], appliedPatches) == UpToPending(patchSeries, appliedPatches)
        invariant written == Patches(imports)
      {
        var pending := patchSeries[i] !in appliedPatches;
        UpToPendingStep(patchSeries, appliedPatches, i, imports);
        PatchesMore(imports, Import(patchSeries[i], !pending));
        imports := imports + [Import(patchSeries[i], !pending)];
        written := written + [patchSeries[i]];
        if pending {
          return;
        }
      }
      assert patchSeries[|patchSeries|..] == [] && imports + [] == imports;
    }
  }

  lemma {:induction false} UpToPendingStep(series: seq<string>, applied: seq<string>, i: nat, before: seq<Import>)
    requires i < |series|
    ensures var next := Import(series[i], series[i] in applied);
      before + UpToPending(series[i..], applied) ==
      if series[i] in applied then before + [next] + UpToPending(series[i + 1..], applied) else before + [next]
  {
    assert series[i..][0] == series[i] && series[i..][1..] == series[i + 1..];
  }

  lemma {:induction false} PatchesMore(imports: seq<Import>, next: Import)
    ensures Patches(imports + [next]) == Patches(imports) + [next.patch]
  {
  }

  lemma {:induction false} PrefixMembers(series: seq<string>, k: nat, i: nat)
    requires Distinct(series) && k <= |series| && i < |series|
    ensures series[i] in series[..k] <==> i < k
  {
    if i < k {
      assert series[..k][i] == series[i];
    }
  }

  /** With the first `k` patches applied, patches from the `i`-th on. */
  lemma {:induction false} UpToPendingFrom(series: seq<string>, k: nat, i: nat)
    requires Distinct(series) && i <= k < |series|
    ensures var r := UpToPending(series[i..], series[..k]);
      && |r| == k + 1 - i
      && forall j :: 0 <= j < |r| ==> r[j] == Import(series[i + j], i + j < k)
    decreases k - i
  {
    PrefixMembers(series, k, i);
    assert series[i..][0] == series[i] && series[i..][1..] == series[i + 1..];
    if i < k {
      UpToPendingFrom(series, k, i + 1);
    }
  }

  /** How many patches are applied: none without the file. */
  predicate AppliedPrefix(series: seq<string>, file: Option<seq<string>>, k: nat) {
    k <= |series| && (match file case None => k == 0 case Some(list) => list == series[..k])
  }

  function NextCount(n: nat, k: nat, repatch: bool): nat {
    if repatch && k > 0 then k else if k < n then k + 1 else k
  }

  /** One split run from a prefix of the series: the list grows by one patch, or
      stays with `repatch`; all but its last patch are committed; and when the
      whole series was applied it is imported uncommitted. */
  lemma {:induction false} SplitRunProgress(series: seq<string>, file: Option<seq<string>>, k: nat, repatch: bool)
    requires Distinct(series) && AppliedPrefix(series, file, k)
    ensures var (imports, file') := RunOnce(series, file, repatch, true);
      var k' := NextCount(|series|, k, repatch);
      && AppliedPrefix(series, file', k')
      && (if k == |series| && !(repatch && k > 0) then imports == AllPending(series)
          else |imports| == k' && forall j :: 0 <= j < k' ==> imports[j] == Import(series[j], j < k' - 1))
  {
    var before := if repatch && k > 0 then k - 1 else k;
    var applied := ReadApplied(file, repatch);
    assert applied == series[..before];
    if before < |series| {
      UpToPendingFrom(series, before, 0);
      assert series[0..] == series;
      assert series != applied;
      var imports := UpToPending(series, applied);
      assert Patches(imports) == series[..before + 1];
    }
  }

  /** Repeated split runs of one series, each with or without `repatch`. */
  function RunAll(series: seq<string>, file: Option<seq<string>>, flags: seq<bool>): Option<seq<string>>
    decreases |flags|
  {
    if flags == [] then file else RunAll(series, RunOnce(series, file, flags[0], true).1, flags[1..])
  }

  function CountAfter(n: nat, k: nat, flags: seq<bool>): nat
    decreases |flags|
  {
    if flags == [] then k else CountAfter(n, NextCount(n, k, flags[0]), flags[1..])
  }

  lemma {:induction false} RunsFrom(series: seq<string>, file: Option<seq<string>>, k: nat, flags: seq<bool>)
    requires Distinct(series) && AppliedPrefix(series, file, k)
    ensures AppliedPrefix(series, RunAll(series, file, flags), CountAfter(|series|, k, flags))
    decreases |flags|
  {
    if flags != [] {
      SplitRunProgress(series, file, k, flags[0]);
      RunsFrom(series, RunOnce(series, file, flags[0], true).1, NextCount(|series|, k, flags[0]), flags[1..]);
    }
  }

  function Plain(flags: seq<bool>): nat {
    if flags == [] then 0 else (if flags[0] then 0 else 1) + Plain(flags[1..])
  }

  /** After a first run and any further ones, the applied list is as many patches
      of the series, in order, as there were runs without `repatch` after it, plus
      one, until the series is exhausted. */
  lemma {:induction false} SeriesProgress(series: seq<string>, first: bool, flags: seq<bool>)
    requires Distinct(series) && series != []
    ensures AppliedPrefix(series, RunAll(series, None, [first] + flags),
              if 1 + Plain(flags) <= |series| then 1 + Plain(flags) else |series|)
  {
    RunsFrom(series, None, 0, [first] + flags);
    assert ([first] + flags)[1..] == flags;
    CountIs(|series|, 1, flags);
  }

  lemma {:induction false} CountIs(n: nat, k: nat, flags: seq<bool>)
    requires 0 < k <= n
    ensures CountAfter(n, k, flags) == if k + Plain(flags) <= n then k + Plain(flags) else n
    decreases |flags|
  {
    if flags != [] {
      CountIs(n, NextCount(n, k, flags[0]), flags[1..]);
    }
  }
}
