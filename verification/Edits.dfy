/**
 What a patch means: a document is a list of items, an edit replaces the block
 `old` at the one-based position `start` by the block `new`, which then stands
 at position `dest` of the edited document.
 */
module Edits {

  datatype Edit<T> = Edit(start: nat, dest: nat, old_: seq<T>, new_: seq<T>)

  function Inverse<T>(e: Edit<T>): Edit<T> {
    Edit(e.dest, e.start, e.new_, e.old_)
  }

  function InverseAll<T>(es: seq<Edit<T>>): seq<Edit<T>> {
    if es == [] then [] else [Inverse(es[0])] + InverseAll(es[1..])
  }

  ghost predicate BlockAt<T>(doc: seq<T>, p: nat, block: seq<T>) {
    p + |block| <= |doc| && doc[p..p + |block|] == block
  }

  /** In order and non-overlapping, with `from` items already dealt with. */
  predicate Ordered<T>(es: seq<Edit<T>>, from: nat) {
    es != [] ==> from < es[0].start && Ordered(es[1..], es[0].start - 1 + |es[0].old_|)
  }

  ghost predicate Applies<T>(doc: seq<T>, es: seq<Edit<T>>) {
    forall k {:trigger es[k]} :: 0 <= k < |es| ==> es[k].start >= 1 && BlockAt(doc, es[k].start - 1, es[k].old_)
  }

  /** Ordered, and every replaced block ends within the document. */
  predicate Layout<T>(len: nat, es: seq<Edit<T>>, from: nat) {
    if es == [] then from <= len
    else
      && from < es[0].start
      && es[0].start - 1 + |es[0].old_| <= len
      && Layout(len, es[1..], es[0].start - 1 + |es[0].old_|)
  }

  /** Each destination is the start moved by what the earlier edits add. */
  predicate Consistent<T>(es: seq<Edit<T>>, shift: int) {
    es != [] ==>
      && es[0].dest == es[0].start + shift
      && Consistent(es[1..], shift + |es[0].new_| - |es[0].old_|)
  }

  /** By how many items the document grows. */
  function Growth<T>(es: seq<Edit<T>>): int {
    if es == [] then 0 else |es[0].new_| - |es[0].old_| + Growth(es[1..])
  }

  lemma {:induction false} AppliesTail<T>(doc: seq<T>, es: seq<Edit<T>>)
    requires es != [] && Applies(doc, es)
    ensures Applies(doc, es[1..])
    ensures es[0].start >= 1 && BlockAt(doc, es[0].start - 1, es[0].old_)
  {
  }

  lemma {:induction false} OrderedLayout<T>(doc: seq<T>, es: seq<Edit<T>>, from: nat)
    requires Ordered(es, from) && Applies(doc, es) && from <= |doc|
    ensures Layout(|doc|, es, from)
    decreases |es|
  {
    if es != [] {
      AppliesTail(doc, es);
      OrderedLayout(doc, es[1..], es[0].start - 1 + |es[0].old_|);
    }
  }

  lemma {:induction false} LayoutOrdered<T>(len: nat, es: seq<Edit<T>>, from: nat)
    requires Layout(len, es, from)
    ensures Ordered(es, from)
    decreases |es|
  {
    if es != [] {
      LayoutOrdered(len, es[1..], es[0].start - 1 + |es[0].old_|);
    }
  }

  // ---- a document in parts ----

  /** Items that stay, and a block that is replaced. */
  datatype Part<T> = Part(gap: seq<T>, old_: seq<T>, new_: seq<T>)

  function Before<T>(ps: seq<Part<T>>, tail: seq<T>): seq<T> {
    if ps == [] then tail else ps[0].gap + (ps[0].old_ + Before(ps[1..], tail))
  }

  function Behind<T>(ps: seq<Part<T>>, tail: seq<T>): seq<T> {
    if ps == [] then tail else ps[0].gap + (ps[0].new_ + Behind(ps[1..], tail))
  }

  lemma {:induction false} BehindStep<T>(ps: seq<Part<T>>, tail: seq<T>)
    requires ps != []
    ensures Behind(ps, tail) == ps[0].gap + ps[0].new_ + Behind(ps[1..], tail)
  {
    assert Behind(ps, tail) == ps[0].gap + (ps[0].new_ + Behind(ps[1..], tail));
  }

  /** The edits that replace the old blocks, `i` items into the document, and put
      the new ones `j` items into the edited one. */
  function EditsAt<T>(ps: seq<Part<T>>, i: nat, j: nat): seq<Edit<T>> {
    if ps == [] then []
    else
      var g := |ps[0].gap|;
      [Edit(i + g + 1, j + g + 1, ps[0].old_, ps[0].new_)]
      + EditsAt(ps[1..], i + g + |ps[0].old_|, j + g + |ps[0].new_|)
  }

  function Swap<T>(ps: seq<Part<T>>): seq<Part<T>> {
    if ps == [] then [] else [Part(ps[0].gap, ps[0].new_, ps[0].old_)] + Swap(ps[1..])
  }

  lemma {:induction false} SwapTurns<T>(ps: seq<Part<T>>, tail: seq<T>)
    ensures Before(Swap(ps), tail) == Behind(ps, tail)
    ensures Behind(Swap(ps), tail) == Before(ps, tail)
  {
    if ps != [] {
      SwapTurns(ps[1..], tail);
    }
  }

  lemma {:induction false} SwapInverts<T>(ps: seq<Part<T>>, i: nat, j: nat)
    ensures InverseAll(EditsAt(ps, i, j)) == EditsAt(Swap(ps), j, i)
  {
    if ps != [] {
      SwapInverts(ps[1..], i + |ps[0].gap| + |ps[0].old_|, j + |ps[0].gap| + |ps[0].new_|);
    }
  }

  /** The parts that ordered edits cut a document into. */
  function Parts<T>(doc: seq<T>, es: seq<Edit<T>>, from: nat): seq<Part<T>>
    requires Layout(|doc|, es, from)
    decreases |es|
  {
    if es == [] then []
    else
      [Part(doc[from..es[0].start - 1], es[0].old_, es[0].new_)] + Parts(doc, es[1..], es[0].start - 1 + |es[0].old_|)
  }

  function Tail<T>(doc: seq<T>, es: seq<Edit<T>>, from: nat): seq<T>
    requires Layout(|doc|, es, from)
    decreases |es|
  {
    if es == [] then doc[from..] else Tail(doc, es[1..], es[0].start - 1 + |es[0].old_|)
  }

  /** The document with every old block replaced by the new one. */
  function Splice<T>(doc: seq<T>, es: seq<Edit<T>>, from: nat): seq<T>
    requires Layout(|doc|, es, from)
  {
    Behind(Parts(doc, es, from), Tail(doc, es, from))
  }

  lemma {:induction false} SpliceLength<T>(doc: seq<T>, es: seq<Edit<T>>, from: nat)
    requires Layout(|doc|, es, from)
    ensures |Splice(doc, es, from)| == |doc| - from + Growth(es)
    decreases |es|
  {
    if es != [] {
      SpliceLength(doc, es[1..], es[0].start - 1 + |es[0].old_|);
    }
  }

  lemma {:induction false} PartsDocument<T>(doc: seq<T>, es: seq<Edit<T>>, from: nat)
    requires Layout(|doc|, es, from) && Applies(doc, es)
    ensures doc[from..] == Before(Parts(doc, es, from), Tail(doc, es, from))
    decreases |es|
  {
    if es != [] {
      AppliesTail(doc, es);
      Cut(doc, from, es[0]);
      PartsDocument(doc, es[1..], es[0].start - 1 + |es[0].old_|);
    }
  }

  lemma {:induction false} PartsEdits<T>(doc: seq<T>, es: seq<Edit<T>>, from: nat, to: nat)
    requires Layout(|doc|, es, from) && Consistent(es, to - from)
    ensures EditsAt(Parts(doc, es, from), from, to) == es
    decreases |es|
  {
    if es != [] {
      var e, next := es[0], es[0].start - 1 + |es[0].old_|;
      PartsEdits(doc, es[1..], next, e.dest - 1 + |e.new_|);
      assert es == [e] + es[1..];
    }
  }

  lemma {:induction false} Cut<T>(doc: seq<T>, from: nat, e: Edit<T>)
    requires e.start >= 1 && BlockAt(doc, e.start - 1, e.old_) && from < e.start
    ensures doc[from..] == doc[from..e.start - 1] + (e.old_ + doc[e.start - 1 + |e.old_|..])
  {
    var p, q := e.start - 1, e.start - 1 + |e.old_|;
    assert doc[from..] == doc[from..p] + (doc[p..q] + doc[q..]);
  }

  lemma {:induction false} BlockInMiddle<T>(t: seq<T>, q: nat, a: seq<T>, b: seq<T>, c: seq<T>)
    requires q <= |t| && t[q..] == a + (b + c)
    ensures BlockAt(t, q + |a|, b)
    ensures t[q..q + |a|] == a
    ensures t[q + |a| + |b|..] == c
  {
    assert t[q + |a|..q + |a| + |b|] == t[q..][|a|..|a| + |b|] == b;
    assert t[q..q + |a|] == t[q..][..|a|] == a;
    assert t[q + |a| + |b|..] == t[q..][|a| + |b|..] == c;
  }

  lemma {:induction false} AppliesCons<T>(doc: seq<T>, e: Edit<T>, rest: seq<Edit<T>>)
    requires e.start >= 1 && BlockAt(doc, e.start - 1, e.old_) && Applies(doc, rest)
    ensures Applies(doc, [e] + rest)
  {
  }

  /** On a document made of the parts the edits are in order and apply, and they
      cut it into these parts. */
  lemma {:induction false} EditsFit<T>(doc: seq<T>, ps: seq<Part<T>>, i: nat, j: nat, tail: seq<T>)
    requires i <= |doc| && doc[i..] == Before(ps, tail)
    ensures Layout(|doc|, EditsAt(ps, i, j), i)
    decreases |ps|
  {
    if ps != [] {
      var p := ps[0];
      BlockInMiddle(doc, i, p.gap, p.old_, Before(ps[1..], tail));
      EditsFit(doc, ps[1..], i + |p.gap| + |p.old_|, j + |p.gap| + |p.new_|, tail);
    }
  }

  lemma {:induction false} HeadStands<T>(doc: seq<T>, ps: seq<Part<T>>, i: nat, tail: seq<T>)
    requires ps != [] && i <= |doc| && doc[i..] == Before(ps, tail)
    ensures BlockAt(doc, i + |ps[0].gap|, ps[0].old_)
    ensures doc[i + |ps[0].gap| + |ps[0].old_|..] == Before(ps[1..], tail)
  {
    BlockInMiddle(doc, i, ps[0].gap, ps[0].old_, Before(ps[1..], tail));
  }

  lemma {:induction false} EditsApply<T>(doc: seq<T>, ps: seq<Part<T>>, i: nat, j: nat, tail: seq<T>)
    requires i <= |doc| && doc[i..] == Before(ps, tail)
    ensures Applies(doc, EditsAt(ps, i, j))
    decreases |ps|
  {
    if ps != [] {
      var p := ps[0];
      var i', j' := i + |p.gap| + |p.old_|, j + |p.gap| + |p.new_|;
      HeadStands(doc, ps, i, tail);
      EditsApply(doc, ps[1..], i', j', tail);
      AppliesCons(doc, Edit(i + |p.gap| + 1, j + |p.gap| + 1, p.old_, p.new_), EditsAt(ps[1..], i', j'));
    }
  }

  lemma {:induction false} EditsCut<T>(doc: seq<T>, ps: seq<Part<T>>, i: nat, j: nat, tail: seq<T>)
    requires i <= |doc| && doc[i..] == Before(ps, tail)
    requires Layout(|doc|, EditsAt(ps, i, j), i)
    ensures Parts(doc, EditsAt(ps, i, j), i) == ps
    ensures Tail(doc, EditsAt(ps, i, j), i) == tail
    decreases |ps|
  {
    if ps != [] {
      var p := ps[0];
      BlockInMiddle(doc, i, p.gap, p.old_, Before(ps[1..], tail));
      EditsCut(doc, ps[1..], i + |p.gap| + |p.old_|, j + |p.gap| + |p.new_|, tail);
      assert ps == [p] + ps[1..];
    }
  }

  // ---- there and back ----

  /** The spliced document `t` consists of the same parts with the blocks swapped. */
  lemma {:induction false} SplicedParts<T>(doc: seq<T>, t: seq<T>, es: seq<Edit<T>>, from: nat, to: nat)
    requires Layout(|doc|, es, from) && Consistent(es, to - from)
    requires to <= |t| && t[to..] == Splice(doc, es, from)
    ensures var ps, tail := Swap(Parts(doc, es, from)), Tail(doc, es, from);
      t[to..] == Before(ps, tail) && InverseAll(es) == EditsAt(ps, to, from)
  {
    PartsEdits(doc, es, from, to);
    SwapTurns(Parts(doc, es, from), Tail(doc, es, from));
    SwapInverts(Parts(doc, es, from), from, to);
  }

  /** The inverse edits fit the spliced document `t` and apply to it. */
  lemma {:induction false} InverseApplies<T>(doc: seq<T>, t: seq<T>, es: seq<Edit<T>>, from: nat, to: nat)
    requires Layout(|doc|, es, from) && Consistent(es, to - from)
    requires to <= |t| && t[to..] == Splice(doc, es, from)
    ensures Applies(t, InverseAll(es))
    ensures Layout(|t|, InverseAll(es), to)
  {
    SplicedParts(doc, t, es, from, to);
    EditsFit(t, Swap(Parts(doc, es, from)), to, from, Tail(doc, es, from));
    EditsApply(t, Swap(Parts(doc, es, from)), to, from, Tail(doc, es, from));
  }

  /** The inverse edits splice the original back. */
  lemma {:induction false} SpliceBack<T>(doc: seq<T>, t: seq<T>, es: seq<Edit<T>>, from: nat, to: nat)
    requires Layout(|doc|, es, from) && Applies(doc, es)
    requires Consistent(es, to - from)
    requires to <= |t| && t[to..] == Splice(doc, es, from)
    ensures Layout(|t|, InverseAll(es), to)
    ensures Splice(t, InverseAll(es), to) == doc[from..]
  {
    var ps, tail := Parts(doc, es, from), Tail(doc, es, from);
    SplicedParts(doc, t, es, from, to);
    InverseApplies(doc, t, es, from, to);
    EditsCut(t, Swap(ps), to, from, tail);
    SwapTurns(ps, tail);
    PartsDocument(doc, es, from);
  }
}
