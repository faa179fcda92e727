/** Printing a patch set, and why parsing the print gives it back. */
module PatchPrinter {
  import opened Lines
  import opened Strings
  import opened Wrappers
  import opened Hunks
  import opened PatchLines
  import opened PatchParser
  import opened ParserFacts
  import opened WellFormed
  import opened PatchSpelling
  import opened PatchGrammar

  function Digits(n: nat): (s: string)
    ensures s != "" && AllDigits(s)
  {
    (if n < 10 then "" else Digits(n / 10)) + [('0' as int + n % 10) as char]
  }

  function Chomp(s: string): string {
    if s != "" && s[|s| - 1] == '\n' then Chomp(s[..|s| - 1]) else s
  }

  /** `print(line.rstrip('\n'))` */
  function Printed(line: string): string {
    Chomp(line) + "\n"
  }

  function PrintedAll(lines: seq<string>): (r: seq<string>)
    ensures |r| == |lines|
    ensures forall i {:trigger r[i]} :: 0 <= i < |lines| ==> r[i] == Printed(lines[i])
  {
    if lines == [] then [] else [Printed(lines[0])] + PrintedAll(lines[1..])
  }

  function SourceLine(name: string): string {
    "--- " + name + "\n"
  }

  function TargetLine(name: string): string {
    "+++ " + name + "\n"
  }

  function Range(start: nat, lines: nat): string {
    WithCount(Digits(start), Digits(lines))
  }

  function HunkLine(h: Hunk): string {
    HeaderText(Range(h.startSrc, h.linesSrc), Range(h.startTgt, h.linesTgt), "\n")
  }

  function HunkLines(h: Hunk): seq<string> {
    [HunkLine(h)] + PrintedAll(h.text)
  }

  function HunksLines(hunks: seq<Hunk>): seq<string> {
    if hunks == [] then [] else HunksLines(hunks[..|hunks| - 1]) + HunkLines(hunks[|hunks| - 1])
  }

  function NameOf(q: Patch): string {
    if q.source.Some? then q.source.value else ""
  }

  function PatchText(q: Patch): seq<string> {
    (PrintedAll(q.header) + [SourceLine(NameOf(q)), TargetLine(q.target)]) + HunksLines(q.hunks)
  }

  function DumpLines(items: seq<Patch>): seq<string> {
    if items == [] then [] else DumpLines(items[..|items| - 1]) + PatchText(items[|items| - 1])
  }

  /** The nested printing loops. */
  method Dump(items: seq<Patch>) returns (out: seq<string>)
    requires forall i :: 0 <= i < |items| ==> items[i].source.Some?
    ensures out == DumpLines(items)
  {
    out := [];
    for i := 0 to |items|
      invariant out == DumpLines(items[..i])
    {
      assert items[..i + 1][..i] == items[..i];
      var part := DumpPatch(items[i]);
      out := out + part;
    }
    assert items[..|items|] == items;
  }

  method DumpPatch(q: Patch) returns (out: seq<string>)
    requires q.source.Some?
    ensures out == PatchText(q)
  {
    out := [];
    for i := 0 to |q.header|
      invariant out == PrintedAll(q.header)[..i]
    {
      out := out + [Printed(q.header[i])];
    }
    out := out + [SourceLine(q.source.value), TargetLine(q.target)];
    var body := DumpHunks(q.hunks);
    out := out + body;
  }

  method DumpHunks(hunks: seq<Hunk>) returns (out: seq<string>)
    ensures out == HunksLines(hunks)
  {
    out := [];
    for k := 0 to |hunks|
      invariant out == HunksLines(hunks[..k])
    {
      assert hunks[..k + 1][..k] == hunks[..k];
      out := out + HunkLines(hunks[k]);
    }
    assert hunks[..|hunks|] == hunks;
  }

  // ---- numbers and names read back ----

  lemma {:induction false} ToIntDigits(n: nat)
    ensures ToInt(Digits(n)) == n
  {
    var d := Digits(n);
    var head := if n < 10 then "" else Digits(n / 10);
    assert d[..|d| - 1] == head;
    if n >= 10 {
      ToIntDigits(n / 10);
    }
    assert DigitValue(d[|d| - 1]) == n % 10;
  }

  lemma {:induction false} HunkLineSpelled(h: Hunk)
    ensures HeaderSpelled(HunkLine(h), h.(invalid := false, desc := "", text := []))
  {
    RangeIsSpelled(h.startSrc, h.linesSrc);
    RangeIsSpelled(h.startTgt, h.linesTgt);
    assert Described("\n", "", "", "", "\n");
    assert HeaderParts(Range(h.startSrc, h.linesSrc), Range(h.startTgt, h.linesTgt), "\n",
                       h.(invalid := false, desc := "", text := []));
  }

  lemma {:induction false} RangeIsSpelled(start: nat, lines: nat)
    ensures RangeSpelled(Range(start, lines), start, lines)
  {
    ToIntDigits(start);
    ToIntDigits(lines);
  }

  /** The header line of a hunk reads back as the hunk without its text. */
  lemma {:induction false} HunkLineReads(h: Hunk)
    ensures ParseHeader(HunkLine(h)) == Some(Hunk(h.startSrc, h.linesSrc, h.startTgt, h.linesTgt, false, "", []))
  {
    HunkLineSpelled(h);
    HeaderExactly(HunkLine(h), h.(invalid := false, desc := "", text := []));
  }

  /** A range with its count, or without when it is one line. */
  function RangeForm(start: nat, lines: nat, bare: bool): string {
    if bare then Digits(start) else Range(start, lines)
  }

  /** All four forms of a header, with any description, give the same four numbers;
      a count left out is 1. */
  lemma {:induction false} HeaderForms(h: Hunk, bareSrc: bool, bareTgt: bool, rest: string)
    requires (bareSrc ==> h.linesSrc == 1) && (bareTgt ==> h.linesTgt == 1)
    requires DescriptionSpelled(rest, h.desc) && !h.invalid && h.text == []
    ensures ParseHeader(HeaderText(RangeForm(h.startSrc, h.linesSrc, bareSrc),
                                   RangeForm(h.startTgt, h.linesTgt, bareTgt), rest)) == Some(h)
  {
    RangeIsSpelled(h.startSrc, h.linesSrc);
    RangeIsSpelled(h.startTgt, h.linesTgt);
    ToIntDigits(h.startSrc);
    ToIntDigits(h.startTgt);
    SpelledReads(RangeForm(h.startSrc, h.linesSrc, bareSrc), RangeForm(h.startTgt, h.linesTgt, bareTgt), rest, h);
  }

  // ---- the normal form that printing leaves ----

  function Norm(h: Hunk): Hunk {
    h.(desc := "", text := PrintedAll(h.text))
  }

  function NormHunks(hunks: seq<Hunk>): (r: seq<Hunk>)
    ensures |r| == |hunks|
    ensures forall k {:trigger r[k]} :: 0 <= k < |hunks| ==> r[k] == Norm(hunks[k])
  {
    if hunks == [] then [] else [Norm(hunks[0])] + NormHunks(hunks[1..])
  }

  function NormPatch(q: Patch): Patch {
    q.(header := PrintedAll(q.header), hunks := NormHunks(q.hunks))
  }

  /** Descriptions dropped, and a line feed at the end of every line. */
  function NormItems(items: seq<Patch>): (r: seq<Patch>)
    ensures |r| == |items|
    ensures forall i {:trigger r[i]} :: 0 <= i < |items| ==> r[i] == NormPatch(items[i])
  {
    if items == [] then [] else [NormPatch(items[0])] + NormItems(items[1..])
  }

  lemma {:induction false} ChompPlain(s: string)
    requires s == "" || s[|s| - 1] != '\n'
    ensures Chomp(s) == s
  {
  }

  lemma {:induction false} PrintedSingle(l: string)
    requires SingleLine(l)
    ensures Printed(l) == if Terminated(l) then l else l + "\n"
    ensures SingleLine(Printed(l)) && Terminated(Printed(l))
  {
    if Terminated(l) {
      var t := l[..|l| - 1];
      ChompPlain(t);
      assert t + "\n" == l;
    }
  }

  /** Cutting a string after its longest prefix commutes with a last line feed. */
  lemma {:induction false} SpanChomp(s: string, f: char -> bool)
    requires !f('\n')
    ensures var n := Span(s, f);
      Span(s + "\n", f) == n && (s + "\n")[..n] == s[..n] && (s + "\n")[n..] == s[n..] + "\n"
  {
    SpanAppend(s, f);
  }

  lemma {:induction false} RangeChomp(s: string)
    ensures ParseRange(s + "\n") == match ParseRange(s)
      case None => None
      case Some((a, b, r)) => Some((a, b, r + "\n"))
  {
    SpanChomp(s, IsDigit);
    var r := s[Span(s, IsDigit)..];
    if r != "" && r[0] == ',' {
      assert (r + "\n")[1..] == r[1..] + "\n";
      SpanChomp(r[1..], IsDigit);
    }
  }

  lemma {:induction false} SpanAppend(s: string, f: char -> bool)
    requires !f('\n')
    ensures Span(s + "\n", f) == Span(s, f)
  {
    if s != "" && f(s[0]) {
      assert (s + "\n")[1..] == s[1..] + "\n";
      SpanAppend(s[1..], f);
    }
  }

  lemma {:induction false} PrefixChomp(p: string, s: string)
    requires p != "" && p[|p| - 1] != '\n'
    ensures p <= s + "\n" <==> p <= s
  {
  }

  /** A missing last line feed does not change what a line starts. */
  lemma {:induction false} StartChomp(l: string)
    ensures HunkStart(l + "\n") <==> HunkStart(l)
    ensures IsSource(l + "\n") <==> IsSource(l)
  {
    PrefixChomp("--- ", l);
    PrefixChomp("@@ -", l);
    if "@@ -" <= l {
      assert (l + "\n")[4..] == l[4..] + "\n";
      RangeChomp(l[4..]);
      if ParseRange(l[4..]).Some? {
        TargetChomp(ParseRange(l[4..]).value.2);
      }
    }
  }

  /** The part of a hunk header after the source range. */
  predicate TargetStart(r: string) {
    " +" <= r && ParseRange(r[2..]).Some? && " @@" <= ParseRange(r[2..]).value.2
  }

  lemma {:induction false} TargetChomp(r: string)
    ensures TargetStart(r + "\n") <==> TargetStart(r)
  {
    PrefixChomp(" +", r);
    if " +" <= r {
      assert (r + "\n")[2..] == r[2..] + "\n";
      RangeChomp(r[2..]);
      if ParseRange(r[2..]).Some? {
        PrefixChomp(" @@", ParseRange(r[2..]).value.2);
      }
    }
  }

  lemma {:induction false} PrintedHeader(header: seq<string>, first: bool)
    requires GoodHeader(header, first)
    ensures GoodHeader(PrintedAll(header), first)
  {
    var p := PrintedAll(header);
    forall i | 0 <= i < |p| ensures SingleLine(p[i]) && !IsSource(p[i]) {
      PrintedSingle(header[i]);
      StartChomp(header[i]);
    }
    if !first && header != [] {
      PrintedSingle(header[0]);
      StartChomp(header[0]);
    }
  }

  lemma {:induction false} PrintedTag(l: string)
    requires BodyLine(l) && SingleLine(l)
    ensures BodyLine(Printed(l)) && Printed(l)[0] == l[0]
    ensures SingleLine(Printed(l)) && Terminated(Printed(l))
  {
    PrintedSingle(l);
  }

  lemma {:induction false} PrintedSides(text: seq<string>, tag: char)
    requires ValidText(text) && SingleLines(text)
    ensures |Side(PrintedAll(text), tag)| == |Side(text, tag)|
  {
    if text != [] {
      assert BodyLine(text[0]) && SingleLine(text[0]);
      PrintedTag(text[0]);
      PrintedSides(text[1..], tag);
    }
  }

  lemma {:induction false} PrintedTake(text: seq<string>, n: nat)
    requires n <= |text|
    ensures PrintedAll(text)[..n] == PrintedAll(text[..n])
  {
  }

  lemma {:induction false} PrintedMet(h: Hunk, text: seq<string>)
    requires ValidText(text) && SingleLines(text)
    ensures Met(h, PrintedAll(text)) <==> Met(h, text)
  {
    PrintedSides(text, '-');
    PrintedSides(text, '+');
  }

  lemma {:induction false} NormGood(h: Hunk)
    requires GoodHunk(h)
    ensures GoodHunk(Norm(h))
  {
    var t := PrintedAll(h.text);
    forall i | 0 <= i < |t| ensures BodyLine(t[i]) && SingleLine(t[i]) {
      assert BodyLine(h.text[i]) && SingleLine(h.text[i]);
      PrintedTag(h.text[i]);
    }
    PrintedMet(h, h.text);
    forall n | 0 < n < |t| ensures !Met(Norm(h), t[..n]) {
      PrintedTake(h.text, n);
      PrintedMet(h, h.text[..n]);
      assert !Met(h, h.text[..n]);
    }
  }

  // ---- what is printed spells the patches ----

  function FormOfHunk(h: Hunk): HunkForm {
    HunkForm(HunkLine(h), PrintedAll(h.text))
  }

  function FormsOfHunks(hunks: seq<Hunk>): (r: seq<HunkForm>)
    ensures |r| == |hunks|
    ensures forall k {:trigger r[k]} :: 0 <= k < |hunks| ==> r[k] == FormOfHunk(hunks[k])
  {
    seq(|hunks|, k requires 0 <= k < |hunks| => FormOfHunk(hunks[k]))
  }

  function FormOf(q: Patch): PatchForm {
    PatchForm(PrintedAll(q.header), [], SourceLine(NameOf(q)), TargetLine(q.target), FormsOfHunks(q.hunks))
  }

  function FormsOf(items: seq<Patch>): (r: seq<PatchForm>)
    ensures |r| == |items|
    ensures forall i {:trigger r[i]} :: 0 <= i < |items| ==> r[i] == FormOf(items[i])
  {
    seq(|items|, i requires 0 <= i < |items| => FormOf(items[i]))
  }

  lemma {:induction false} HunkFormLines(hunks: seq<Hunk>)
    ensures OfHunks(FormsOfHunks(hunks)) == HunksLines(hunks)
  {
    if hunks != [] {
      var n := |hunks| - 1;
      HunkFormLines(hunks[..n]);
      assert FormsOfHunks(hunks)[..n] == FormsOfHunks(hunks[..n]);
    }
  }

  lemma {:induction false} FormLines(q: Patch)
    ensures OfPatch(FormOf(q)) == PatchText(q)
  {
    HunkFormLines(q.hunks);
    var a, b := SourceLine(NameOf(q)), TargetLine(q.target);
    assert [] + [a] == [a];
    Assoc(PrintedAll(q.header), [a], [b]);
    assert [a] + [b] == [a, b];
  }

  lemma {:induction false} FormsLines(items: seq<Patch>)
    ensures OfPatches(FormsOf(items)) == DumpLines(items)
  {
    if items != [] {
      var n := |items| - 1;
      FormsLines(items[..n]);
      FormLines(items[n]);
      assert FormsOf(items)[..n] == FormsOf(items[..n]);
    }
  }

  lemma {:induction false} BodyIsSpelled(l: string)
    requires BodyLine(l)
    ensures BodySpelled(l, l)
  {
    assert l[0] != '\r' && l[0] != '\n';
  }

  lemma {:induction false} FormSpellsHunk(h: Hunk)
    requires GoodHunk(h)
    ensures SpellsHunk(FormOfHunk(h), Norm(h))
  {
    var g := Norm(h);
    NormGood(h);
    HunkLineSpelled(h);
    assert h.(invalid := false, desc := "", text := []) == g.(text := []);
    forall i | 0 <= i < |g.text| ensures BodySpelled(g.text[i], g.text[i]) {
      BodyIsSpelled(g.text[i]);
    }
  }

  lemma {:induction false} NameIsSpelled(prefix: string, name: string)
    requires |prefix| == 4 && CleanName(name)
    ensures NameSpelled(prefix + name + "\n", name)
  {
    var raw := name + "\n";
    assert Trimmed(raw, "", name, "\n");
    assert (prefix + name + "\n")[4..] == raw + "" && NameParts(raw, "", name);
  }

  lemma {:induction false} SourceIsNamed(name: string)
    requires CleanName(name)
    ensures NamesSource(SourceLine(name), name)
  {
    NameIsSpelled("--- ", name);
    PrefixDrop("--- ", name + "\n");
    assert SourceLine(name) == "--- " + (name + "\n");
  }

  lemma {:induction false} TargetIsNamed(name: string)
    requires CleanName(name)
    ensures IsTarget(TargetLine(name)) && NameSpelled(TargetLine(name), name)
  {
    NameIsSpelled("+++ ", name);
    PrefixDrop("+++ ", name + "\n");
    assert TargetLine(name) == "+++ " + (name + "\n");
  }

  lemma {:induction false} FormSpellsNames(q: Patch, first: bool)
    requires GoodNames(q, first)
    ensures SpellsNames(FormOf(q), NormPatch(q), first)
  {
    PrintedHeader(q.header, first);
    SourceIsNamed(q.source.value);
    TargetIsNamed(q.target);
  }

  lemma {:induction false} FormSpellsPatch(q: Patch, first: bool)
    requires GoodPatch(q, first)
    ensures SpellsPatch(FormOf(q), NormPatch(q), first)
  {
    FormSpellsNames(q, first);
    forall k | 0 <= k < |q.hunks| ensures SpellsHunk(FormsOfHunks(q.hunks)[k], NormHunks(q.hunks)[k]) {
      assert GoodHunk(q.hunks[k]);
      FormSpellsHunk(q.hunks[k]);
    }
  }

  lemma {:induction false} FormsSpell(items: seq<Patch>)
    requires GoodItems(items)
    ensures Spells(FormsOf(items), NormItems(items))
  {
    forall i | 0 <= i < |items| ensures SpellsPatch(FormsOf(items)[i], NormItems(items)[i], i == 0) {
      FormSpellsPatch(items[i], i == 0);
    }
  }

  /** Parsing the printed lines of any well-formed patch set rebuilds the set. */
  lemma {:induction false} ParseDump(items: seq<Patch>)
    requires items != [] && GoodItems(items)
    ensures Parse(DumpLines(items)) == Result(true, NormItems(items), 0)
  {
    FormsLines(items);
    FormsSpell(items);
    FormsParse(FormsOf(items), NormItems(items));
  }

  /** Printing is faithful for everything a successful parse builds: parsing the
      print of the parsed patches gives the same patches, normalised. */
  lemma {:induction false} ParseDumpParse(lines: seq<string>)
    requires SingleLines(lines) && Parse(lines).ok
    ensures Parse(DumpLines(Parse(lines).items)) == Result(true, NormItems(Parse(lines).items), 0)
  {
    ErrorFreeIsWellFormed(lines);
    ParseDump(Parse(lines).items);
  }

  // ---- the same for bytes ----

  predicate Whole(lines: seq<string>) {
    forall i :: 0 <= i < |lines| ==> SingleLine(lines[i]) && Terminated(lines[i])
  }

  lemma {:induction false} WholeAppend(a: seq<string>, b: seq<string>)
    requires Whole(a) && Whole(b)
    ensures Whole(a + b)
  {
  }

  lemma {:induction false} PrintedWhole(lines: seq<string>)
    requires SingleLines(lines)
    ensures Whole(PrintedAll(lines))
  {
    forall i | 0 <= i < |lines| ensures SingleLine(Printed(lines[i])) && Terminated(Printed(lines[i])) {
      PrintedSingle(lines[i]);
    }
  }

  lemma {:induction false} FeedLast(s: string)
    requires NoFeedIn(s)
    ensures SingleLine(s + "\n") && Terminated(s + "\n")
  {
  }

  lemma {:induction false} FeedFree(a: string, b: string)
    requires NoFeedIn(a) && NoFeedIn(b)
    ensures NoFeedIn(a + b)
  {
  }

  lemma {:induction false} RangeFeedFree(start: nat, lines: nat)
    ensures NoFeedIn(Range(start, lines))
  {
    FeedFree(",", Digits(lines));
    FeedFree(Digits(start), "," + Digits(lines));
  }

  lemma {:induction false} HunkLineWhole(h: Hunk)
    ensures SingleLine(HunkLine(h)) && Terminated(HunkLine(h))
  {
    var r0, r1 := Range(h.startSrc, h.linesSrc), Range(h.startTgt, h.linesTgt);
    RangeFeedFree(h.startSrc, h.linesSrc);
    RangeFeedFree(h.startTgt, h.linesTgt);
    FeedFree("@@ -", r0);
    FeedFree("@@ -" + r0, " +");
    FeedFree("@@ -" + r0 + " +", r1);
    FeedFree("@@ -" + r0 + " +" + r1, " @@");
    FeedLast("@@ -" + r0 + " +" + r1 + " @@");
    assert HunkLine(h) == "@@ -" + r0 + " +" + r1 + " @@" + "\n";
  }

  lemma {:induction false} HunksWhole(hunks: seq<Hunk>)
    requires GoodHunks(hunks)
    ensures Whole(HunksLines(hunks))
  {
    if hunks != [] {
      var n := |hunks| - 1;
      assert GoodHunk(hunks[n]) && GoodHunks(hunks[..n]);
      HunkLineWhole(hunks[n]);
      PrintedWhole(hunks[n].text);
      WholeAppend([HunkLine(hunks[n])], PrintedAll(hunks[n].text));
      HunksWhole(hunks[..n]);
      WholeAppend(HunksLines(hunks[..n]), HunkLines(hunks[n]));
    }
  }

  lemma {:induction false} PatchWhole(q: Patch, first: bool)
    requires GoodPatch(q, first)
    ensures Whole(PatchText(q))
  {
    PrintedWhole(q.header);
    FeedLast("--- " + q.source.value);
    FeedLast("+++ " + q.target);
    var names := [SourceLine(NameOf(q)), TargetLine(q.target)];
    assert Whole(names);
    HunksWhole(q.hunks);
    WholeAppend(PrintedAll(q.header), names);
    WholeAppend(PrintedAll(q.header) + names, HunksLines(q.hunks));
  }

  lemma {:induction false} DumpWhole(items: seq<Patch>)
    requires GoodItems(items)
    ensures Whole(DumpLines(items))
  {
    if items != [] {
      var n := |items| - 1;
      PatchWhole(items[n], n == 0);
      assert GoodItems(items[..n]);
      DumpWhole(items[..n]);
      WholeAppend(DumpLines(items[..n]), PatchText(items[n]));
    }
  }

  /** Reading the printed bytes line by line and parsing them. */
  lemma {:induction false} ParseDumpedBytes(items: seq<Patch>)
    requires items != [] && GoodItems(items)
    ensures Parse(Split(Join(DumpLines(items)))) == Result(true, NormItems(items), 0)
  {
    DumpWhole(items);
    assert LineList(DumpLines(items));
    SplitJoin(DumpLines(items));
    ParseDump(items);
  }

  // ---- two flags at once ----

  lemma {:induction false} RunFour(s: State, a: string, b: string, c: string, d: string)
    ensures Run(s, [a, b, c, d]) == Step(Step(Step(Step(s, a), b), c), d)
  {
    var s1, s2, s3 := Step(s, a), Step(Step(s, a), b), Step(Step(Step(s, a), b), c);
    assert [a, b, c, d][1..] == [b, c, d];
    assert [b, c, d][1..] == [c, d];
    assert [c, d][1..] == [d];
    assert [d][1..] == [];
    assert Run(s, [a, b, c, d]) == Run(s1, [b, c, d]) == Run(s2, [c, d]) == Run(s3, [d]);
    assert Run(s3, [d]) == Run(Step(s3, d), []);
  }

  /** Under a header that declares no lines, one line that is no hunk line leaves
      the parser in two regions at once, whatever the names, the starts and the line. */
  lemma {:induction false} TwoFlags(source: string, target: string, a: nat, c: nat, line: string)
    requires CleanName(source) && CleanName(target) && !BodyLine(Expand(line))
    ensures var head := HunkLine(Hunk(a, 0, c, 0, false, "", []));
      var s := Run(INIT, [SourceLine(source), TargetLine(target), head, line]);
      s.f == Flags(false, false, false, false, true, true)
  {
    var h := Hunk(a, 0, c, 0, false, "", []);
    var s1 := Step(INIT, SourceLine(source));
    var s2 := Step(s1, TargetLine(target));
    NamedHead(source, target);
    HunkLineReads(h);
    HeadStep(s2, [], Patch(Some(source), target, [], []), HunkLine(h));
    SpoiledTwice(Step(s2, HunkLine(h)), line);
    RunFour(INIT, SourceLine(source), TargetLine(target), HunkLine(h), line);
  }

  lemma {:induction false} TwoLines(s: State, a: string, b: string)
    ensures Run(s, [a] + [b]) == Step(Step(s, a), b)
  {
    RunMore(s, [a], b);
    RunOne(s, a);
  }

  lemma {:induction false} NamedHead(source: string, target: string)
    requires CleanName(source) && CleanName(target)
    ensures AtHead(Step(Step(INIT, SourceLine(source)), TargetLine(target)), [], Patch(Some(source), target, [], []))
  {
    var q := Patch(Some(source), target, [], []);
    FormSpellsNames(q, true);
    NamesRead(INIT, [], FormOf(q), q);
    assert BeforeTarget(FormOf(q)) + [TargetLine(target)] == [SourceLine(source)] + [TargetLine(target)];
    TwoLines(INIT, SourceLine(source), TargetLine(target));
  }

  lemma {:induction false} SpoiledTwice(s: State, line: string)
    requires s.f == Flags(false, false, false, true, false, false) && s.srcSeen == s.tgtSeen == 0
    requires s.hunk.linesSrc == s.hunk.linesTgt == 0 && !BodyLine(Expand(line))
    ensures Step(s, line).f == Flags(false, false, false, false, true, true)
  {
  }
}
