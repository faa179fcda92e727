/** Heading underlines of reStructuredText files and the levels they stand for. */
module Headings {
  import opened Strings
  import opened Wrappers

  const MAIN := ['#', '*', '=', '-', '"', '^', '~']

  predicate AllSame(s: string, c: char) {
    forall i :: 0 <= i < |s| ==> s[i] == c
  }

  /** Three or more of one heading character and nothing else but trailing space. */
  predicate IsHeader(line: string) {
    |line| >= 3 && line[0] in MAIN && line[1] == line[0] && line[2] == line[0] && AllSame(StripRight(line), line[0])
  }

  /** Position of the first occurrence. */
  function IndexOf(c: char, s: seq<char>): (n: nat)
    requires c in s
    ensures n < |s| && s[n] == c
    ensures forall k :: 0 <= k < n ==> s[k] != c
  {
    if s[0] == c then 0 else 1 + IndexOf(c, s[1..])
  }

  function Level(line: string): nat
    requires IsHeader(line)
  {
    IndexOf(line[0], MAIN)
  }

  function AddChar(h: seq<char>, line: string): seq<char> {
    if IsHeader(line) && line[0] !in h then h + [line[0]] else h
  }

  /** Heading characters in order of appearance. */
  function Hierarchy(lines: seq<string>): seq<char> {
    if lines == [] then [] else AddChar(Hierarchy(lines[..|lines| - 1]), lines[|lines| - 1])
  }

  method FileHeadingHierarchy(lines: seq<string>) returns (h: seq<char>)
    ensures h == Hierarchy(lines)
  {
    h := [];
    for i := 0 to |lines|
      invariant h == Hierarchy(lines[..i])
    {
      assert lines[..i + 1][..i] == lines[..i];
      if IsHeader(lines[i]) {
        if lines[i][0] !in h {
          h := h + [lines[i][0]];
        }
      }
    }
    assert lines[..|lines|] == lines;
  }

  function Repeat(c: char, n: nat): string {
    seq(n, i => c)
  }

  /** One converted line; none when the level is off the main hierarchy. */
  function ConvertLine(line: string, local: seq<char>, start: nat): Option<string> {
    if !IsHeader(line) then Some(StripRight(line))
    else if line[0] !in local then None
    else
      var level := start + IndexOf(line[0], local);
      if level >= |MAIN| then None else Some(Repeat(MAIN[level], |StripRight(line)|))
  }

  /** The conversion of a whole file by its own hierarchy. */
  function Converted(lines: seq<string>, start: nat): Option<seq<string>> {
    ConvertAll(lines, Hierarchy(lines), start)
  }

  function ConvertAll(lines: seq<string>, local: seq<char>, start: nat): Option<seq<string>> {
    if lines == [] then Some([])
    else
      var l := ConvertLine(lines[|lines| - 1], local, start);
      var rest := ConvertAll(lines[..|lines| - 1], local, start);
      if l.Some? && rest.Some? then Some(rest.value + [l.value]) else None
  }

  lemma {:induction false} ConvertAllMeans(lines: seq<string>, local: seq<char>, start: nat)
    ensures var r := ConvertAll(lines, local, start);
      && (r.Some? <==> forall i :: 0 <= i < |lines| ==> ConvertLine(lines[i], local, start).Some?)
      && (r.Some? ==> |r.value| == |lines|)
      && (r.Some? ==> forall i :: 0 <= i < |lines| ==> Some(r.value[i]) == ConvertLine(lines[i], local, start))
  {
    if lines != [] {
      ConvertAllMeans(lines[..|lines| - 1], local, start);
    }
  }

  /** The loop over the lines stops at the first one that cannot be converted. */
  method ConvertHierarchy(lines: seq<string>, local: seq<char>, start: nat) returns (out: Option<seq<string>>)
    ensures out == ConvertAll(lines, local, start)
  {
    var result: seq<string> := [];
    ConvertAllMeans(lines, local, start);
    for i := 0 to |lines|
      invariant |result| == i
      invariant forall k :: 0 <= k < i ==> ConvertLine(lines[k], local, start) == Some(result[k])
    {
      var line := lines[i];
      if IsHeader(line) {
        if line[0] !in local {
          return None;
        }
        var level := IndexOf(line[0], local);
        if start + level >= |MAIN| {
          return None;
        }
        result := result + [Repeat(MAIN[start + level], |StripRight(line)|)];
      } else {
        result := result + [StripRight(line)];
      }
    }
    assert result == ConvertAll(lines, local, start).value;
    return Some(result);
  }

  // ---- what conversion keeps ----

  lemma {:induction false} StripRightFacts(s: string)
    ensures |StripRight(s)| <= |s| && StripRight(s) == s[..|StripRight(s)|]
    ensures forall i :: |StripRight(s)| <= i < |s| ==> IsSpace(s[i])
    ensures StripRight(StripRight(s)) == StripRight(s)
  {
    if s != "" && IsSpace(s[|s| - 1]) {
      StripRightFacts(s[..|s| - 1]);
    }
  }

  lemma {:induction false} MainChars(c: char)
    requires c in MAIN
    ensures !IsSpace(c)
  {
  }

  lemma {:induction false} StripKeepsHeader(line: string)
    ensures IsHeader(StripRight(line)) <==> IsHeader(line)
    ensures IsHeader(line) ==> StripRight(line)[0] == line[0]
  {
    StripRightFacts(line);
    var t := StripRight(line);
    if |line| >= 3 && line[0] in MAIN && line[1] == line[0] && line[2] == line[0] {
      MainChars(line[0]);
      assert |t| >= 3;
    }
  }

  lemma {:induction false} RepeatIsHeader(c: char, n: nat)
    requires c in MAIN && n >= 3
    ensures IsHeader(Repeat(c, n)) && Repeat(c, n)[0] == c
  {
    MainChars(c);
    assert StripRight(Repeat(c, n)) == Repeat(c, n);
  }

  /** A line stays a heading or stays text; a heading of local level k gets level start + k. */
  lemma {:induction false} ConvertLineMeans(line: string, local: seq<char>, start: nat)
    requires ConvertLine(line, local, start).Some?
    ensures var l := ConvertLine(line, local, start).value;
      && (IsHeader(l) <==> IsHeader(line))
      && (IsHeader(line) ==> line[0] in local && start + IndexOf(line[0], local) < |MAIN|)
      && (IsHeader(line) ==> l[0] == MAIN[start + IndexOf(line[0], local)] && |l| == |StripRight(line)|)
      && (!IsHeader(line) ==> l == StripRight(line))
  {
    StripKeepsHeader(line);
    if IsHeader(line) {
      StripRightFacts(line);
      RepeatIsHeader(MAIN[start + IndexOf(line[0], local)], |StripRight(line)|);
    }
  }

  lemma {:induction false} MainDistinct(i: nat, j: nat)
    requires i < |MAIN| && j < |MAIN| && MAIN[i] == MAIN[j]
    ensures i == j
  {
  }

  lemma {:induction false} LevelOf(line: string, k: nat)
    requires IsHeader(line) && k < |MAIN| && line[0] == MAIN[k]
    ensures Level(line) == k
  {
    MainDistinct(Level(line), k);
  }

  lemma {:induction false} HierarchyFacts(lines: seq<string>)
    ensures forall i :: 0 <= i < |lines| && IsHeader(lines[i]) ==> lines[i][0] in Hierarchy(lines)
    ensures forall i, j :: 0 <= i < j < |Hierarchy(lines)| ==> Hierarchy(lines)[i] != Hierarchy(lines)[j]
  {
    if lines != [] {
      HierarchyFacts(lines[..|lines| - 1]);
    }
  }

  /** In order of appearance: the `k`-th character stands in a heading before
      which all headings have one of the characters before it. */
  lemma {:induction false} HierarchyOrder(lines: seq<string>, k: nat) returns (i: nat)
    requires k < |Hierarchy(lines)|
    ensures i < |lines| && IsHeader(lines[i]) && lines[i][0] == Hierarchy(lines)[k]
    ensures forall j :: 0 <= j < i && IsHeader(lines[j]) ==> lines[j][0] in Hierarchy(lines)[..k]
  {
    var init := lines[..|lines| - 1];
    if k < |Hierarchy(init)| {
      i := HierarchyOrder(init, k);
      assert Hierarchy(lines)[..k] == Hierarchy(init)[..k];
    } else {
      i := |lines| - 1;
      HierarchyFacts(init);
      assert Hierarchy(lines)[..k] == Hierarchy(init);
    }
  }

  lemma {:induction false} ConvertedCharacter(line: string, local: seq<char>, start: nat)
    requires IsHeader(line) && ConvertLine(line, local, start).Some?
    ensures line[0] in local && start + IndexOf(line[0], local) < |MAIN|
    ensures IsHeader(ConvertLine(line, local, start).value)
    ensures ConvertLine(line, local, start).value[0] == MAIN[start + IndexOf(line[0], local)]
  {
    ConvertLineMeans(line, local, start);
  }

  lemma {:induction false} SameInMain(c: char, d: char, local: seq<char>, start: nat)
    requires c in local && start + IndexOf(c, local) < |MAIN|
    requires d in local && start + IndexOf(d, local) < |MAIN|
    ensures MAIN[start + IndexOf(c, local)] == MAIN[start + IndexOf(d, local)] <==> c == d
  {
    if MAIN[start + IndexOf(c, local)] == MAIN[start + IndexOf(d, local)] {
      MainDistinct(start + IndexOf(c, local), start + IndexOf(d, local));
    }
  }

  lemma {:induction false} SameConverted(a: string, b: string, local: seq<char>, start: nat)
    requires IsHeader(a) && ConvertLine(a, local, start).Some?
    requires IsHeader(b) && ConvertLine(b, local, start).Some?
    ensures IsHeader(ConvertLine(a, local, start).value) && IsHeader(ConvertLine(b, local, start).value)
    ensures ConvertLine(a, local, start).value[0] == ConvertLine(b, local, start).value[0] <==> a[0] == b[0]
  {
    ConvertedCharacter(a, local, start);
    ConvertedCharacter(b, local, start);
    SameInMain(a[0], b[0], local, start);
  }

  /** Two headings get the same character exactly when they had the same one. */
  lemma {:induction false} SameCharacter(lines: seq<string>, start: nat, i: nat, j: nat)
    requires Converted(lines, start).Some?
    requires i < |lines| && j < |lines| && IsHeader(lines[i]) && IsHeader(lines[j])
    ensures var out := Converted(lines, start).value;
      && |out| == |lines| && IsHeader(out[i]) && IsHeader(out[j])
      && (out[i][0] == out[j][0] <==> lines[i][0] == lines[j][0])
  {
    var h := Hierarchy(lines);
    ConvertAllMeans(lines, h, start);
    SameConverted(lines[i], lines[j], h, start);
  }

  lemma {:induction false} IndexUnique(h: seq<char>, k: nat)
    requires k < |h| && forall i, j :: 0 <= i < j < |h| ==> h[i] != h[j]
    ensures IndexOf(h[k], h) == k
  {
    var n := IndexOf(h[k], h);
    assert h[n] == h[k];
  }

  lemma {:induction false} IndexPrefix(c: char, a: seq<char>, b: seq<char>)
    requires c in a && a <= b
    ensures c in b && IndexOf(c, b) == IndexOf(c, a)
  {
    var n, m := IndexOf(c, a), IndexOf(c, b);
    assert b[n] == a[n] == c;
  }

  /** `n` characters of the main hierarchy from `start` on. */
  function MainFrom(start: nat, n: nat): seq<char>
    requires n == 0 || start + n <= |MAIN|
  {
    if n == 0 then [] else MainFrom(start, n - 1) + [MAIN[start + n - 1]]
  }

  lemma {:induction false} MainFromAt(start: nat, n: nat)
    requires n == 0 || start + n <= |MAIN|
    ensures |MainFrom(start, n)| == n
    ensures forall i :: 0 <= i < n ==> MainFrom(start, n)[i] == MAIN[start + i]
  {
    if n > 0 {
      MainFromAt(start, n - 1);
    }
  }

  lemma {:induction false} MainFromHas(start: nat, n: nat, k: nat)
    requires (n == 0 || start + n <= |MAIN|) && start + k < |MAIN|
    ensures MAIN[start + k] in MainFrom(start, n) <==> k < n
  {
    MainFromAt(start, n);
    var m := MainFrom(start, n);
    if k < n {
      assert m[k] == MAIN[start + k];
    } else {
      forall i | 0 <= i < n ensures m[i] != MAIN[start + k] {
        if m[i] == MAIN[start + k] { MainDistinct(start + i, start + k); }
      }
    }
  }

  lemma {:induction false} HierarchySnoc(lines: seq<string>, l: string)
    ensures Hierarchy(lines + [l]) == AddChar(Hierarchy(lines), l)
  {
    assert (lines + [l])[..|lines|] == lines;
  }

  lemma {:induction false} NextIndex(before: seq<char>, h: seq<char>, c: char)
    requires before + [c] <= h && forall i, j :: 0 <= i < j < |h| ==> h[i] != h[j]
    ensures c in h && IndexOf(c, h) == |before|
  {
    assert (before + [c])[|before|] == c && h[|before|] == c;
    IndexUnique(h, |before|);
  }

  /** One more heading on both sides. */
  lemma {:induction false} ConvertedStep(before: seq<char>, h: seq<char>, start: nat, c: char)
    requires forall i, j :: 0 <= i < j < |h| ==> h[i] != h[j]
    requires c in h && start + IndexOf(c, h) < |MAIN|
    requires (if c in before then before else before + [c]) <= h && before <= h
    requires before == [] || start + |before| <= |MAIN|
    ensures MAIN[start + IndexOf(c, h)] in MainFrom(start, |before|) <==> c in before
    ensures c !in before ==> IndexOf(c, h) == |before|
  {
    MainFromHas(start, |before|, IndexOf(c, h));
    if c in before {
      IndexPrefix(c, before, h);
    } else {
      NextIndex(before, h, c);
    }
  }

  /** The hierarchy of the converted file is a stretch of the main one. */
  lemma {:induction false} ConvertedPrefix(lines: seq<string>, h: seq<char>, start: nat)
    requires Hierarchy(lines) <= h && ConvertAll(lines, h, start).Some?
    requires forall i, j :: 0 <= i < j < |h| ==> h[i] != h[j]
    ensures Hierarchy(lines) == [] || start + |Hierarchy(lines)| <= |MAIN|
    ensures Hierarchy(ConvertAll(lines, h, start).value) == MainFrom(start, |Hierarchy(lines)|)
  {
    if lines != [] {
      var line, init := lines[|lines| - 1], lines[..|lines| - 1];
      ConvertedPrefix(init, h, start);
      ConvertAllSnoc(lines, h, start);
      HierarchySnoc(ConvertAll(init, h, start).value, ConvertLine(line, h, start).value);
      ConvertedAdd(Hierarchy(init), line, h, start);
    }
  }

  lemma {:induction false} ConvertAllSnoc(lines: seq<string>, h: seq<char>, start: nat)
    requires lines != [] && ConvertAll(lines, h, start).Some?
    ensures ConvertAll(lines[..|lines| - 1], h, start).Some? && ConvertLine(lines[|lines| - 1], h, start).Some?
    ensures ConvertAll(lines, h, start).value ==
      ConvertAll(lines[..|lines| - 1], h, start).value + [ConvertLine(lines[|lines| - 1], h, start).value]
    ensures Hierarchy(lines) == AddChar(Hierarchy(lines[..|lines| - 1]), lines[|lines| - 1])
  {
  }

  lemma {:induction false} ConvertedAdd(before: seq<char>, line: string, h: seq<char>, start: nat)
    requires AddChar(before, line) <= h && before <= h && ConvertLine(line, h, start).Some?
    requires before == [] || start + |before| <= |MAIN|
    requires forall i, j :: 0 <= i < j < |h| ==> h[i] != h[j]
    ensures AddChar(before, line) == [] || start + |AddChar(before, line)| <= |MAIN|
    ensures AddChar(MainFrom(start, |before|), ConvertLine(line, h, start).value) ==
      MainFrom(start, |AddChar(before, line)|)
  {
    ConvertLineMeans(line, h, start);
    if IsHeader(line) {
      ConvertedStep(before, h, start, line[0]);
    }
  }

  /** A file converts exactly when its levels fit, and then the recomputed
      hierarchy is the main one from the starting level on. */
  lemma {:induction false} ConvertedHierarchy(lines: seq<string>, start: nat)
    ensures Converted(lines, start).Some? <==> Hierarchy(lines) == [] || start + |Hierarchy(lines)| <= |MAIN|
    ensures Converted(lines, start).Some? && Hierarchy(lines) != [] ==>
      start + |Hierarchy(lines)| <= |MAIN|
      && Hierarchy(Converted(lines, start).value) == MAIN[start..start + |Hierarchy(lines)|]
  {
    var h := Hierarchy(lines);
    HierarchyFacts(lines);
    ConvertAllMeans(lines, h, start);
    if Converted(lines, start).Some? {
      ConvertedPrefix(lines, h, start);
      if h != [] {
        MainFromAt(start, |h|);
        assert MainFrom(start, |h|) == MAIN[start..start + |h|];
      }
    } else {
      var i :| 0 <= i < |lines| && ConvertLine(lines[i], h, start).None?;
      assert IsHeader(lines[i]) && lines[i][0] in h;
    }
  }
}
