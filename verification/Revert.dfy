/** Reversing a patch, and why applying the reverse undoes it. */
module Revert {
  import opened Lines
  import opened Edits
  import opened Hunks
  import opened Rewriter

  function Flip(l: string): string {
    if l != "" && l[0] == '+' then "-" + l[1..]
    else if l != "" && l[0] == '-' then "+" + l[1..]
    else l
  }

  function FlipText(text: seq<string>): seq<string> {
    seq(|text|, i requires 0 <= i < |text| => Flip(text[i]))
  }

  function Reversed(h: Hunk): Hunk {
    h.(startSrc := h.startTgt, startTgt := h.startSrc,
       linesSrc := h.linesTgt, linesTgt := h.linesSrc,
       text := FlipText(h.text))
  }

  function ReversedAll(hunks: seq<Hunk>): (r: seq<Hunk>)
    ensures |r| == |hunks|
    ensures forall k {:trigger r[k]} :: 0 <= k < |hunks| ==> r[k] == Reversed(hunks[k])
  {
    if hunks == [] then [] else [Reversed(hunks[0])] + ReversedAll(hunks[1..])
  }

  lemma {:induction false} FlipTwice(l: string)
    ensures Flip(Flip(l)) == l
  {
    if l != "" {
      assert l == [l[0]] + l[1..];
    }
  }

  /** Reversing twice is the identity. */
  lemma {:induction false} ReverseTwice(hunks: seq<Hunk>)
    ensures ReversedAll(ReversedAll(hunks)) == hunks
  {
    forall k | 0 <= k < |hunks| ensures Reversed(Reversed(hunks[k])) == hunks[k] {
      var text := hunks[k].text;
      forall i | 0 <= i < |text| ensures FlipText(FlipText(text))[i] == text[i] { FlipTwice(text[i]); }
      assert FlipText(FlipText(text)) == text;
    }
  }

  predicate Tagged(l: string, tag: char, content: string) {
    l == [tag] + content
  }

  lemma {:induction false} FlipExactly(l: string, content: string)
    ensures Tagged(l, '+', content) <==> Tagged(Flip(l), '-', content)
    ensures Tagged(l, '-', content) <==> Tagged(Flip(l), '+', content)
    ensures l == "" || (l[0] != '+' && l[0] != '-') ==> Flip(l) == l
  {
    if l != "" {
      assert l == [l[0]] + l[1..] && Flip(l) == [Flip(l)[0]] + Flip(l)[1..];
    }
  }

  /** A reversed hunk has its ranges and its tags swapped, line by line, and is
      otherwise the same. */
  lemma {:induction false} ReversedExactly(h: Hunk)
    ensures var r := Reversed(h);
      && r.startSrc == h.startTgt && r.linesSrc == h.linesTgt && r.startTgt == h.startSrc && r.linesTgt == h.linesSrc
      && r.invalid == h.invalid && r.desc == h.desc && |r.text| == |h.text|
      && forall i, content {:trigger Tagged(h.text[i], '+', content)} {:trigger Tagged(h.text[i], '-', content)} ::
           0 <= i < |h.text| ==>
             && (Tagged(h.text[i], '+', content) <==> Tagged(r.text[i], '-', content))
             && (Tagged(h.text[i], '-', content) <==> Tagged(r.text[i], '+', content))
    ensures forall i :: 0 <= i < |h.text| && (h.text[i] == "" || (h.text[i][0] != '+' && h.text[i][0] != '-')) ==>
      Reversed(h).text[i] == h.text[i]
  {
    forall i, content | 0 <= i < |h.text|
      ensures Tagged(h.text[i], '+', content) <==> Tagged(Reversed(h).text[i], '-', content)
      ensures Tagged(h.text[i], '-', content) <==> Tagged(Reversed(h).text[i], '+', content)
    {
      FlipExactly(h.text[i], content);
    }
  }

  /** Reversing swaps the two sides of a text. */
  lemma {:induction false} FlipSides(text: seq<string>)
    ensures SourceSide(FlipText(text)) == TargetSide(text)
    ensures TargetSide(FlipText(text)) == SourceSide(text)
  {
    if text != [] {
      FlipSides(text[1..]);
      assert FlipText(text)[1..] == FlipText(text[1..]);
    }
  }

  lemma {:induction false} ReversedPlain(hunks: seq<Hunk>)
    requires PlainTexts(hunks)
    ensures PlainTexts(ReversedAll(hunks))
  {
    forall k | 0 <= k < |hunks| ensures ValidText(FlipText(hunks[k].text)) && NoMarker(FlipText(hunks[k].text)) {
      assert ValidText(hunks[k].text) && NoMarker(hunks[k].text);
      forall i | 0 <= i < |hunks[k].text|
        ensures BodyLine(Flip(hunks[k].text[i])) && Flip(hunks[k].text[i])[0] != '\\' {
        assert BodyLine(hunks[k].text[i]);
      }
    }
  }

  /** Reversing a patch means the inverse edits. */
  lemma {:induction false} ReversedMeansInverse(hunks: seq<Hunk>)
    ensures EditsOf(ReversedAll(hunks)) == InverseAll(EditsOf(hunks))
  {
    if hunks != [] {
      FlipSides(hunks[0].text);
      ReversedMeansInverse(hunks[1..]);
      EditsStep(hunks);
    }
  }

  lemma {:induction false} ReversedNonEmpty(hunks: seq<Hunk>)
    requires TargetsNonEmpty(hunks)
    ensures forall k :: 0 <= k < |hunks| ==> SrcLen(ReversedAll(hunks)[k]) >= 1
  {
    forall k | 0 <= k < |hunks| ensures SrcLen(ReversedAll(hunks)[k]) >= 1 {
      FlipSides(hunks[k].text);
    }
  }

  /** Revert undoes apply.  On the patched file the reversed hunks are placed and
      all match, and patching it with them gives the source back, line ends aside. */
  lemma {:induction false} RevertUndoesApply(src: seq<string>, hunks: seq<Hunk>)
    requires Placed(hunks) && PlainTexts(hunks) && TargetsConsistent(hunks) && AllMatch(src, hunks)
    ensures Placed(ReversedAll(hunks)) && PlainTexts(ReversedAll(hunks))
    ensures AllMatch(Patched(src, hunks), ReversedAll(hunks))
    ensures Bare(Patched(Patched(src, hunks), ReversedAll(hunks))) == Bare(src)
  {
    var out, rev, es := Patched(src, hunks), ReversedAll(hunks), EditsOf(hunks);
    PatchedIsSplice(src, hunks);
    AllMatchApplies(src, hunks);
    var t := Bare(out);
    assert t[0..] == t;
    InverseApplies(Bare(src), t, es, 0, 0);
    SpliceBack(Bare(src), t, es, 0, 0);
    ReversedMeansInverse(hunks);
    LayoutOrdered(|t|, InverseAll(es), 0);
    AllMatchApplies(out, rev);
    ReversedPlain(hunks);
    PatchedIsSplice(out, rev);
    assert Bare(src)[0..] == Bare(src);
  }
}
