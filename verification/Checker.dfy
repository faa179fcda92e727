/** The "already patched" check: does the file hold every hunk's target side? */
module Checker {
  import opened Lines
  import opened Edits
  import opened Hunks
  import opened Rewriter
  import opened Revert

  function Content(hline: string): string {
    if hline == "" then "" else RStrip(hline[1..])
  }

  /** What the check expects of a text: every line not tagged '-', markers included. */
  function KeptSide(text: seq<string>): seq<string> {
    if text == [] then []
    else (if text[0] != "" && text[0][0] == '-' then [] else [Content(text[0])]) + KeptSide(text[1..])
  }

  lemma {:induction false} KeptIsTarget(text: seq<string>)
    requires ValidText(text) && NoMarker(text)
    ensures KeptSide(text) == TargetSide(text)
  {
    if text != [] {
      assert BodyLine(text[0]);
      KeptIsTarget(text[1..]);
    }
  }

  /** Where the check of a hunk begins: its target start, unless reading is past it. */
  function CheckPos(h: Hunk, cursor: nat): (p: nat)
    ensures p >= cursor && p + 1 >= h.startTgt
    ensures p == cursor || p + 1 == h.startTgt
  {
    if cursor + 1 < h.startTgt then h.startTgt - 1 else cursor
  }

  /** The kept sides stand one after the other, each where its check begins. */
  ghost predicate StandFrom(bare: seq<string>, hunks: seq<Hunk>, cursor: nat) {
    hunks != [] ==>
      var p, kept := CheckPos(hunks[0], cursor), KeptSide(hunks[0].text);
      BlockAt(bare, p, kept) && StandFrom(bare, hunks[1..], p + |kept|)
  }

  /** Exact for every file (no line of a file is empty) and every list of hunks. */
  method MatchFileHunks(lines: seq<string>, hunks: seq<Hunk>) returns (matched: bool)
    requires forall i :: 0 <= i < |lines| ==> lines[i] != ""
    ensures matched <==> StandFrom(Bare(lines), hunks, 0)
  {
    var lineno: nat := 1;
    for hno := 0 to |hunks|
      invariant 1 <= lineno <= |lines| + 1
      invariant StandFrom(Bare(lines), hunks[hno..], lineno - 1) <==> StandFrom(Bare(lines), hunks, 0)
    {
      var h := hunks[hno];
      assert hunks[hno..][0] == h && hunks[hno..][1..] == hunks[hno + 1..];
      ghost var p := CheckPos(h, lineno - 1);
      while lineno < h.startTgt
        invariant 1 <= lineno <= |lines| + 1
        invariant CheckPos(h, lineno - 1) == p
      {
        if |Fetch(lines, lineno - 1)| == 0 {
          return false;
        }
        lineno := lineno + 1;
      }
      var ok;
      ok, lineno := MatchText(lines, lineno, h.text);
      if !ok {
        return false;
      }
    }
    return true;
  }

  method MatchText(lines: seq<string>, lineno0: nat, text: seq<string>) returns (ok: bool, lineno: nat)
    requires forall i :: 0 <= i < |lines| ==> lines[i] != ""
    requires 1 <= lineno0 <= |lines| + 1
    ensures ok <==> BlockAt(Bare(lines), lineno0 - 1, KeptSide(text))
    ensures ok ==> lineno == lineno0 + |KeptSide(text)| <= |lines| + 1
  {
    lineno := lineno0;
    for i := 0 to |text|
      invariant 1 <= lineno <= |lines| + 1
      invariant lineno + |KeptSide(text[i..])| == lineno0 + |KeptSide(text)|
      invariant BlockAt(Bare(lines), lineno - 1, KeptSide(text[i..]))
           <==> BlockAt(Bare(lines), lineno0 - 1, KeptSide(text))
    {
      var hline := text[i];
      KeptLine(Bare(lines), lineno - 1, text, i);
      if hline != "" && hline[0] == '-' {
        continue;
      }
      if |Fetch(lines, lineno - 1)| == 0 {
        return false, lineno;
      }
      if RStrip(Fetch(lines, lineno - 1)) != Content(hline) {
        return false, lineno;
      }
      lineno := lineno + 1;
    }
    return true, lineno;
  }

  lemma {:induction false} KeptStep(text: seq<string>, i: nat)
    requires i < |text|
    ensures KeptSide(text[i..]) ==
      if text[i] != "" && text[i][0] == '-' then KeptSide(text[i + 1..])
      else [Content(text[i])] + KeptSide(text[i + 1..])
  {
    assert text[i..][0] == text[i] && text[i..][1..] == text[i + 1..];
  }

  /** The kept lines from the `i`-th on stand at `p`: what that asks of the `i`-th. */
  lemma {:induction false} KeptLine(bare: seq<string>, p: nat, text: seq<string>, i: nat)
    requires i < |text|
    ensures var skipped := text[i] != "" && text[i][0] == '-';
      && (skipped ==> KeptSide(text[i..]) == KeptSide(text[i + 1..]))
      && (!skipped ==> |KeptSide(text[i..])| == 1 + |KeptSide(text[i + 1..])|)
      && (!skipped ==>
           (BlockAt(bare, p, KeptSide(text[i..])) <==>
            p < |bare| && bare[p] == Content(text[i]) && BlockAt(bare, p + 1, KeptSide(text[i + 1..]))))
  {
    KeptStep(text, i);
    if p < |bare| {
      BlockCons(bare, p, Content(text[i]), KeptSide(text[i + 1..]));
    }
  }

  lemma {:induction false} BlockCons<T>(doc: seq<T>, p: nat, x: T, rest: seq<T>)
    requires p < |doc|
    ensures BlockAt(doc, p, [x] + rest) <==> doc[p] == x && BlockAt(doc, p + 1, rest)
  {
    var block := [x] + rest;
    if BlockAt(doc, p, block) {
      assert doc[p] == doc[p..p + |block|][0];
      assert doc[p + 1..p + |block|] == doc[p..p + |block|][1..] == rest;
    }
    if doc[p] == x && BlockAt(doc, p + 1, rest) {
      assert doc[p..p + |block|] == [doc[p]] + doc[p + 1..p + |block|];
    }
  }

  /** Does every target block stand at its target start? */
  ghost predicate AllTargetsStand(lines: seq<string>, hunks: seq<Hunk>) {
    forall k :: 0 <= k < |hunks| ==>
      hunks[k].startTgt >= 1 && StandsAt(lines, hunks[k].startTgt - 1, TargetSide(hunks[k].text))
  }

  lemma {:induction false} StandFromOrdered(lines: seq<string>, hunks: seq<Hunk>, cursor: nat)
    requires PlainTexts(hunks) && Ordered(InverseAll(EditsOf(hunks)), cursor)
    ensures StandFrom(Bare(lines), hunks, cursor) <==> AllTargetsStand(lines, hunks)
    decreases |hunks|
  {
    if hunks != [] {
      PlainTail(hunks);
      OrderedTargets(hunks, cursor);
      StandFromOrdered(lines, hunks[1..], hunks[0].startTgt - 1 + TgtLen(hunks[0]));
      StandStep(lines, hunks, cursor);
      TargetsStep(lines, hunks);
    }
  }

  lemma {:induction false} OrderedTargets(hunks: seq<Hunk>, cursor: nat)
    requires hunks != [] && Ordered(InverseAll(EditsOf(hunks)), cursor)
    ensures cursor < hunks[0].startTgt
    ensures Ordered(InverseAll(EditsOf(hunks[1..])), hunks[0].startTgt - 1 + TgtLen(hunks[0]))
  {
    EditsStep(hunks);
  }

  lemma {:induction false} StandStep(lines: seq<string>, hunks: seq<Hunk>, cursor: nat)
    requires hunks != [] && ValidText(hunks[0].text) && NoMarker(hunks[0].text) && cursor < hunks[0].startTgt
    ensures var h := hunks[0];
      StandFrom(Bare(lines), hunks, cursor) <==>
      StandsAt(lines, h.startTgt - 1, TargetSide(h.text))
      && StandFrom(Bare(lines), hunks[1..], h.startTgt - 1 + TgtLen(h))
  {
    KeptIsTarget(hunks[0].text);
  }

  lemma {:induction false} TargetsStep(lines: seq<string>, hunks: seq<Hunk>)
    requires hunks != []
    ensures var h := hunks[0];
      AllTargetsStand(lines, hunks) <==>
      h.startTgt >= 1 && StandsAt(lines, h.startTgt - 1, TargetSide(h.text)) && AllTargetsStand(lines, hunks[1..])
  {
    var rest := hunks[1..];
    if AllTargetsStand(lines, hunks) {
      assert forall k :: 0 <= k < |rest| ==> rest[k] == hunks[k + 1];
    }
    if AllTargetsStand(lines, rest) {
      assert forall k :: 0 < k < |hunks| ==> hunks[k] == rest[k - 1];
    }
  }

  /** With target ranges in order the check holds exactly when every target
      block stands at its target start. */
  lemma {:induction false} CheckIsTargetsStand(lines: seq<string>, hunks: seq<Hunk>)
    requires PlainTexts(hunks) && Placed(ReversedAll(hunks))
    ensures StandFrom(Bare(lines), hunks, 0) <==> AllTargetsStand(lines, hunks)
  {
    ReversedMeansInverse(hunks);
    StandFromOrdered(lines, hunks, 0);
  }

  /** Detection is complete: the check recognises what the rewriter made. */
  lemma {:induction false} PatchedIsRecognised(src: seq<string>, hunks: seq<Hunk>)
    requires Placed(hunks) && PlainTexts(hunks) && TargetsConsistent(hunks) && AllMatch(src, hunks)
    ensures AllTargetsStand(Patched(src, hunks), hunks)
    ensures StandFrom(Bare(Patched(src, hunks)), hunks, 0)
  {
    var out, rev := Patched(src, hunks), ReversedAll(hunks);
    RevertUndoesApply(src, hunks);
    forall k | 0 <= k < |hunks|
      ensures hunks[k].startTgt >= 1 && StandsAt(out, hunks[k].startTgt - 1, TargetSide(hunks[k].text))
    {
      assert Matches(out, rev[k]);
      FlipSides(hunks[k].text);
    }
    CheckIsTargetsStand(out, hunks);
  }

  // ---- "no newline" markers ----

  function Markers(text: seq<string>): nat {
    if text == [] then 0 else (if text[0] != "" && text[0][0] == '\\' then 1 else 0) + Markers(text[1..])
  }

  lemma {:induction false} KeptCounts(text: seq<string>)
    requires ValidText(text)
    ensures |KeptSide(text)| == |TargetSide(text)| + Markers(text)
    ensures Markers(text) == 0 <==> NoMarker(text)
  {
    if text != [] {
      assert BodyLine(text[0]);
      KeptCounts(text[1..]);
      assert NoMarker(text) <==> text[0][0] != '\\' && NoMarker(text[1..]);
    }
  }

  /** A marker costs the rewriter a source line. */
  lemma {:induction false} TextMoves(src: seq<string>, c: Cursor, text: seq<string>)
    requires ValidText(text)
    ensures RunText(src, c, text).pos == c.pos + |SourceSide(text)| + Markers(text)
    ensures |RunText(src, c, text).out| == |c.out| + |TargetSide(text)|
    decreases |text|
  {
    if text != [] {
      assert BodyLine(text[0]);
      TextMoves(src, TextStep(src, c, text[0]), text[1..]);
    }
  }

  /** Markers at most in the last hunk, since a marker says that the file ends. */
  predicate MarkersLast(hunks: seq<Hunk>) {
    hunks != [] && PlainTexts(hunks[..|hunks| - 1]) && ValidText(hunks[|hunks| - 1].text)
  }

  function LastEnd(hunks: seq<Hunk>): int
    requires hunks != []
  {
    hunks[|hunks| - 1].startSrc - 1 + SrcLen(hunks[|hunks| - 1])
  }

  lemma {:induction false} RunMoves(src: seq<string>, c: Cursor, hunks: seq<Hunk>)
    requires MarkersLast(hunks) && Layout(|src|, EditsOf(hunks), c.pos)
    ensures RunHunks(src, c, hunks).pos == LastEnd(hunks) + Markers(hunks[|hunks| - 1].text)
    ensures |RunHunks(src, c, hunks).out| == |c.out| + LastEnd(hunks) - c.pos + Growth(EditsOf(hunks))
    decreases |hunks|
  {
    var h, rest := hunks[0], hunks[1..];
    EditsStep(hunks);
    SkipCopies(src, c, h.startSrc);
    var c1 := RunText(src, SkipTo(src, c, h.startSrc), h.text);
    TextMoves(src, SkipTo(src, c, h.startSrc), h.text);
    if rest != [] {
      assert hunks[..|hunks| - 1][0] == h && rest[..|rest| - 1] == hunks[..|hunks| - 1][1..];
      KeptCounts(h.text);
      RunMoves(src, c1, rest);
    }
  }

  /** A file that is too short does not hold the last hunk's kept side. */
  lemma {:induction false} TooShort(bare: seq<string>, hunks: seq<Hunk>, cursor: nat)
    requires hunks != []
    requires |bare| < hunks[|hunks| - 1].startTgt - 1 + |KeptSide(hunks[|hunks| - 1].text)|
    ensures !StandFrom(bare, hunks, cursor)
    decreases |hunks|
  {
    if |hunks| > 1 {
      TooShort(bare, hunks[1..], CheckPos(hunks[0], cursor) + |KeptSide(hunks[0].text)|);
    }
  }

  lemma {:induction false} LastTarget(es: seq<Edit<string>>, shift: int)
    requires es != [] && Consistent(es, shift)
    ensures var e := es[|es| - 1]; e.dest + |e.new_| == e.start + |e.old_| + shift + Growth(es)
    decreases |es|
  {
    if |es| > 1 {
      LastTarget(es[1..], shift + |es[0].new_| - |es[0].old_|);
    }
  }

  lemma {:induction false} AllPlain(hunks: seq<Hunk>)
    requires MarkersLast(hunks) && NoMarker(hunks[|hunks| - 1].text)
    ensures PlainTexts(hunks)
  {
    assert hunks == hunks[..|hunks| - 1] + [hunks[|hunks| - 1]];
  }

  lemma {:induction false} LastTargetOf(hunks: seq<Hunk>)
    requires hunks != [] && TargetsConsistent(hunks)
    ensures var h := hunks[|hunks| - 1]; h.startTgt - 1 + TgtLen(h) == LastEnd(hunks) + Growth(EditsOf(hunks))
  {
    LastTarget(EditsOf(hunks), 0);
  }

  lemma {:induction false} PatchedEnd(src: seq<string>, hunks: seq<Hunk>)
    requires MarkersLast(hunks) && Layout(|src|, EditsOf(hunks), 0) && LastEnd(hunks) == |src|
    ensures |Patched(src, hunks)| == LastEnd(hunks) + Growth(EditsOf(hunks))
  {
    RunMoves(src, Cursor(0, []), hunks);
  }

  /** The patched file ends where the last target side does. */
  lemma {:induction false} MarkerShortens(src: seq<string>, hunks: seq<Hunk>)
    requires MarkersLast(hunks) && Placed(hunks) && TargetsConsistent(hunks) && AllMatch(src, hunks)
    requires LastEnd(hunks) == |src|
    ensures var h := hunks[|hunks| - 1]; |Patched(src, hunks)| == h.startTgt - 1 + TgtLen(h)
  {
    AllMatchApplies(src, hunks);
    OrderedLayout(Bare(src), EditsOf(hunks), 0);
    PatchedEnd(src, hunks);
    LastTargetOf(hunks);
  }

  /** When the last hunk ends with the file, as its marker says, the check
      recognises what the rewriter made of the file exactly when there is no
      marker: the marker is a line to the check and no line to the rewriter. */
  lemma {:induction false} RecognisedWithoutMarker(src: seq<string>, hunks: seq<Hunk>)
    requires MarkersLast(hunks) && Placed(hunks) && TargetsConsistent(hunks) && AllMatch(src, hunks)
    requires LastEnd(hunks) == |src|
    ensures StandFrom(Bare(Patched(src, hunks)), hunks, 0) <==> NoMarker(hunks[|hunks| - 1].text)
  {
    if NoMarker(hunks[|hunks| - 1].text) {
      AllPlain(hunks);
      PatchedIsRecognised(src, hunks);
    } else {
      KeptCounts(hunks[|hunks| - 1].text);
      MarkerShortens(src, hunks);
      TooShort(Bare(Patched(src, hunks)), hunks, 0);
    }
  }

  /** The smallest case: the file `a` patched to `b`, neither with a line end. */
  lemma {:induction false} MarkerIsNotRecognised(src: seq<string>, h: Hunk)
    requires src == ["a"]
    requires h == Hunk(1, 1, 1, 1, false, "",
      ["-a\n", "\\ No newline at end of file\n", "+b\n", "\\ No newline at end of file\n"])
    ensures Matches(src, h) && h.linesSrc == SrcLen(h) && h.linesTgt == TgtLen(h)
    ensures !StandFrom(Bare(Patched(src, [h])), [h], 0)
  {
    var t := h.text;
    assert SourceSide(t) == [RStrip("a\n")] + SourceSide(t[1..]);
    assert t[1..][1..][1..][1..] == [];
    assert SourceSide(t[1..]) == SourceSide(t[1..][1..]) == SourceSide(t[1..][1..][1..]) == [];
    assert RStrip("a\n") == RStrip("a") == "a";
    assert TargetSide(t) == TargetSide(t[1..]) == TargetSide(t[1..][1..]);
    assert TargetSide(t[1..][1..]) == [RStrip("b\n")] + TargetSide(t[1..][1..][1..]);
    assert TargetSide(t[1..][1..][1..]) == [];
    assert [h][1..] == [] && [h][..0] == [];
    RecognisedWithoutMarker(src, [h]);
    assert t[1][0] == '\\';
  }
}
