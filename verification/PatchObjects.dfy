/** The mutable patch set: reversing in place, and reverting through a deep copy. */
module PatchObjects {
  import opened Sequences
  import opened Hunks
  import opened Revert

  class HunkObject {
    var startsrc: nat
    var linessrc: nat
    var starttgt: nat
    var linestgt: nat
    var invalid: bool
    var desc: string
    var text: seq<string>

    constructor (h: Hunk)
      ensures Value() == h
    {
      startsrc, linessrc, starttgt, linestgt := h.startSrc, h.linesSrc, h.startTgt, h.linesTgt;
      invalid, desc, text := h.invalid, h.desc, h.text;
    }

    function Value(): Hunk
      reads this
    {
      Hunk(startsrc, linessrc, starttgt, linestgt, invalid, desc, text)
    }

    /** The loop over the text replaces the tags one line at a time. */
    method Reverse()
      modifies this
      ensures Value() == Reversed(old(Value()))
    {
      startsrc, starttgt := starttgt, startsrc;
      linessrc, linestgt := linestgt, linessrc;
      ghost var flipped := FlipText(text);
      for i := 0 to |text|
        invariant |text| == |flipped|
        invariant forall j :: 0 <= j < i ==> text[j] == flipped[j]
        invariant forall j :: i <= j < |text| ==> text[j] == old(text)[j]
        invariant startsrc == old(starttgt) && starttgt == old(startsrc)
        invariant linessrc == old(linestgt) && linestgt == old(linessrc)
        invariant invalid == old(invalid) && desc == old(desc)
      {
        var line := text[i];
        if line != "" && line[0] == '+' {
          text := text[i := "-" + line[1..]];
        } else if line != "" && line[0] == '-' {
          text := text[i := "+" + line[1..]];
        }
      }
      assert text == flipped;
    }
  }

  function Values(hs: seq<HunkObject>): (r: seq<Hunk>)
    reads hs
    ensures |r| == |hs|
    ensures forall k {:trigger r[k]} :: 0 <= k < |hs| ==> r[k] == hs[k].Value()
  {
    if hs == [] then [] else [hs[0].Value()] + Values(hs[1..])
  }

  /** A hunk after `n` reversals. */
  function ReversedTimes(h: Hunk, n: nat): Hunk {
    if n % 2 == 0 then h else Reversed(h)
  }

  lemma {:induction false} OnceMore(h: Hunk, n: nat)
    ensures Reversed(ReversedTimes(h, n)) == ReversedTimes(h, n + 1)
  {
    ReverseTwice([h]);
    assert ReversedAll([h]) == [Reversed(h)] && ReversedAll([Reversed(h)]) == [Reversed(Reversed(h))];
    assert [h][0] == [Reversed(Reversed(h))][0];
  }

  lemma {:induction false} Occurrences(hs: seq<HunkObject>, i: nat)
    requires i < |hs|
    ensures multiset(hs[..i + 1]) == multiset(hs[..i]) + multiset{hs[i]}
    ensures forall h :: multiset(hs[..i + 1])[h] == multiset(hs[..i])[h] + (if h == hs[i] then 1 else 0)
  {
    assert hs[..i + 1] == hs[..i] + [hs[i]];
  }

  /** How often the object at each place stands in the list. */
  function Counts(hs: seq<HunkObject>): (ns: seq<nat>)
    ensures |ns| == |hs|
    ensures forall k {:trigger ns[k]} :: 0 <= k < |hs| ==> ns[k] == multiset(hs)[hs[k]]
  {
    seq(|hs|, k requires 0 <= k < |hs| => multiset(hs)[hs[k]])
  }

  function TimesAll(values: seq<Hunk>, ns: seq<nat>): (r: seq<Hunk>)
    requires |ns| == |values|
    ensures |r| == |values|
    ensures forall k {:trigger r[k]} :: 0 <= k < |values| ==> r[k] == ReversedTimes(values[k], ns[k])
  {
    seq(|values|, k requires 0 <= k < |values| => ReversedTimes(values[k], ns[k]))
  }

  /** Every hunk is reversed as often as it stands in the list. */
  method ReverseHunks(hs: seq<HunkObject>)
    modifies hs
    ensures Values(hs) == TimesAll(old(Values(hs)), Counts(hs))
  {
    for i := 0 to |hs|
      invariant forall h :: h in hs ==> h.Value() == ReversedTimes(old(h.Value()), multiset(hs[..i])[h])
    {
      OnceMore(old(hs[i].Value()), multiset(hs[..i])[hs[i]]);
      Occurrences(hs, i);
      hs[i].Reverse();
    }
    assert hs[..|hs|] == hs;
    ValuesAre(hs, TimesAll(old(Values(hs)), Counts(hs)));
  }

  lemma {:induction false} ValuesAre(hs: seq<HunkObject>, values: seq<Hunk>)
    requires |values| == |hs| && forall k :: 0 <= k < |hs| ==> hs[k].Value() == values[k]
    ensures Values(hs) == values
  {
  }

  /** Which places of a list hold the same object. */
  predicate SameShape(a: seq<HunkObject>, b: seq<HunkObject>) {
    |a| == |b| && forall j, k :: 0 <= j < |a| && 0 <= k < |a| ==> (a[j] == a[k] <==> b[j] == b[k])
  }

  lemma {:induction false} OneMore(hs: seq<HunkObject>, i: nat)
    requires i < |hs|
    ensures forall h :: h in hs[..i + 1] <==> h in hs[..i] || h == hs[i]
  {
    assert hs[..i + 1] == hs[..i] + [hs[i]];
  }

  /** A new object for each one, with the same value. */
  method CopyEach(hs: seq<HunkObject>) returns (memo: map<HunkObject, HunkObject>)
    ensures forall h :: h in hs <==> h in memo
    ensures forall h :: h in memo ==> fresh(memo[h])
    ensures forall h :: h in memo ==> memo[h].Value() == h.Value()
    ensures forall g, h :: g in memo && h in memo && memo[g] == memo[h] ==> g == h
  {
    memo := map[];
    for i := 0 to |hs|
      invariant forall h :: h in hs[..i] <==> h in memo
      invariant forall h :: h in memo ==> fresh(memo[h])
      invariant forall h :: h in memo ==> memo[h].Value() == h.Value()
      invariant forall g, h :: g in memo && h in memo && memo[g] == memo[h] ==> g == h
    {
      OneMore(hs, i);
      if hs[i] !in memo {
        var h := new HunkObject(hs[i].Value());
        memo := memo[hs[i] := h];
      }
    }
    assert hs[..|hs|] == hs;
  }

  /** `copy.deepcopy`: new objects with the same values; an object that stands in
      two places is copied once. */
  method DeepCopy(hs: seq<HunkObject>) returns (copy: seq<HunkObject>)
    ensures fresh(copy) && SameShape(hs, copy)
    ensures Values(copy) == Values(hs)
  {
    var memo := CopyEach(hs);
    copy := [];
    for i := 0 to |hs|
      invariant |copy| == i && forall k :: 0 <= k < i ==> copy[k] == memo[hs[k]]
    {
      copy := copy + [memo[hs[i]]];
    }
    ValuesAre(copy, Values(hs));
  }

  lemma {:induction false} SameOccurrences(a: seq<HunkObject>, b: seq<HunkObject>, k: nat)
    requires SameShape(a, b) && k < |a|
    ensures multiset(a)[a[k]] == multiset(b)[b[k]]
  {
    CountPlaces(a, a[k]);
    CountPlaces(b, b[k]);
    assert Places(a, a[k], |a|) == Places(b, b[k], |b|);
    assert a[..|a|] == a && b[..|b|] == b;
  }

  /** The first `n` places that hold `h`. */
  function Places(hs: seq<HunkObject>, h: HunkObject, n: nat): set<nat>
    requires n <= |hs|
  {
    set i: nat | i < n && hs[i] == h
  }

  lemma {:induction false} CountPlaces(hs: seq<HunkObject>, h: HunkObject)
    ensures multiset(hs)[h] == |Places(hs, h, |hs|)|
  {
    CountFirst(hs, h, |hs|);
    assert hs[..|hs|] == hs;
  }

  lemma {:induction false} CountFirst(hs: seq<HunkObject>, h: HunkObject, n: nat)
    requires n <= |hs|
    ensures multiset(hs[..n])[h] == |Places(hs, h, n)|
  {
    if n > 0 {
      CountFirst(hs, h, n - 1);
      Occurrences(hs, n - 1);
      if hs[n - 1] == h {
        assert Places(hs, h, n) == Places(hs, h, n - 1) + {n - 1};
      } else {
        assert Places(hs, h, n) == Places(hs, h, n - 1);
      }
    }
  }

  lemma {:induction false} SameCounts(a: seq<HunkObject>, b: seq<HunkObject>)
    requires SameShape(a, b)
    ensures Counts(a) == Counts(b)
  {
    forall k | 0 <= k < |a| ensures Counts(a)[k] == Counts(b)[k] {
      SameOccurrences(a, b, k);
    }
  }

  /** When no object stands in the list twice, every hunk is reversed. */
  lemma {:induction false} DistinctOnce(hs: seq<HunkObject>, values: seq<Hunk>)
    requires Distinct(hs) && |values| == |hs|
    ensures TimesAll(values, Counts(hs)) == ReversedAll(values)
  {
    forall k | 0 <= k < |hs| ensures Counts(hs)[k] == 1 {
      CountPlaces(hs, hs[k]);
      assert Places(hs, hs[k], |hs|) == {k};
    }
  }

  /** `revert` works on a copy: the hunks it applies are the reversed ones, a hunk
      that stands in several places reversed that many times, and the patch set it
      was called on is as before.  `DistinctOnce` tells what that means for a patch set
      without such hunks. */
  method Reverted(hs: seq<HunkObject>) returns (copy: seq<HunkObject>)
    ensures fresh(copy) && SameShape(hs, copy)
    ensures Values(copy) == TimesAll(Values(hs), Counts(hs))
    ensures Values(hs) == old(Values(hs))
  {
    copy := DeepCopy(hs);
    SameCounts(hs, copy);
    ReverseHunks(copy);
  }
}
