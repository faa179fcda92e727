/** Which line ends the rewriter writes, and when a round trip restores every byte. */
module LineEnds {
  import opened Lines
  import opened Edits
  import opened Hunks
  import opened Rewriter
  import opened Revert

  type Test = string -> bool

  predicate Ended(l: string, e: string) {
    l == RStrip(l) + e
  }

  function WithEnd(e: string): Test {
    (l: string) => Ended(l, e)
  }

  predicate All(ok: Test, lines: seq<string>) {
    forall i :: 0 <= i < |lines| ==> ok(lines[i])
  }

  predicate Uniform(lines: seq<string>, e: string) {
    All(WithEnd(e), lines)
  }

  predicate IsEnd(e: string) {
    e == "\n" || e == "\r\n"
  }

  // ---- a property of the lines written, told from the patch ----

  lemma {:induction false} AllAppend(ok: Test, a: seq<string>, b: seq<string>)
    ensures All(ok, a + b) <==> All(ok, a) && All(ok, b)
  {
    var c := a + b;
    assert forall i :: 0 <= i < |a| ==> a[i] == c[i];
    assert forall i :: 0 <= i < |b| ==> b[i] == c[|a| + i];
  }

  lemma {:induction false} AllCons(ok: Test, x: string, rest: seq<string>)
    ensures All(ok, [x] + rest) <==> ok(x) && All(ok, rest)
  {
    AllAppend(ok, [x], rest);
    assert [x][0] == x;
  }

  /** Do all inserted lines of a text pass?  `first` tells for those inserted before
      any source line is read, `later` for the others. */
  predicate Gets(text: seq<string>, first: Test, later: Test, started: bool) {
    if text == [] then true
    else if text[0] != "" && text[0][0] == '+' then
      (if started then later(text[0][1..]) else first(text[0][1..])) && Gets(text[1..], first, later, started)
    else Gets(text[1..], first, later, true)
  }

  /** The same for hunks, where `n` source lines count as not read. */
  predicate AllGet(hunks: seq<Hunk>, n: nat, first: Test, later: Test) {
    hunks != [] ==>
      Gets(hunks[0].text, first, later, hunks[0].startSrc - 1 > n) && AllGet(hunks[1..], n, first, later)
  }

  /** Whether an inserted line passes is what the two tests tell of its content. */
  ghost predicate Decides(ins: Insert, ok: Test, n: nat, m: nat, first: Test, later: Test) {
    forall p, content {:trigger ins(p, content)} :: n <= p <= m ==>
      (ok(ins(p, content)) <==> if p > n then later(content) else first(content))
  }

  predicate AllFrom(ok: Test, src: seq<string>, n: nat) {
    n <= |src| && forall i :: n <= i < |src| ==> ok(src[i])
  }

  lemma {:induction false} BlockGets(src: seq<string>, ins: Insert, n: nat, p: nat, text: seq<string>, ok: Test,
                                     first: Test, later: Test)
    requires Decides(ins, ok, n, |src|, first, later) && AllFrom(ok, src, n)
    requires ValidText(text) && NoMarker(text) && n <= p && p + |SourceSide(text)| <= |src|
    ensures All(ok, Block(src, ins, p, text)) <==> Gets(text, first, later, p > n)
    decreases |text|
  {
    if text != [] {
      var l, rest := text[0], text[1..];
      assert BodyLine(l);
      if l[0] == '+' {
        BlockGets(src, ins, n, p, rest, ok, first, later);
        AllCons(ok, ins(p, l[1..]), Block(src, ins, p, rest));
      } else {
        BlockGets(src, ins, n, p + 1, rest, ok, first, later);
        if l[0] == ' ' {
          AllCons(ok, src[p], Block(src, ins, p + 1, rest));
        }
      }
    }
  }

  lemma {:induction false} StretchGets(src: seq<string>, ins: Insert, n: nat, from: nat, h: Hunk, ok: Test,
                                       first: Test, later: Test)
    requires Decides(ins, ok, n, |src|, first, later) && AllFrom(ok, src, n)
    requires ValidText(h.text) && NoMarker(h.text)
    requires n <= from < h.startSrc && h.startSrc - 1 + SrcLen(h) <= |src|
    ensures All(ok, Stretch(src, ins, from, h)) <==> Gets(h.text, first, later, h.startSrc - 1 > n)
  {
    BlockGets(src, ins, n, h.startSrc - 1, h.text, ok, first, later);
    AllAppend(ok, src[from..h.startSrc - 1], Block(src, ins, h.startSrc - 1, h.text));
  }

  lemma {:induction false} SpliceGets(src: seq<string>, ins: Insert, n: nat, hunks: seq<Hunk>, from: nat, ok: Test,
                                      first: Test, later: Test)
    requires Decides(ins, ok, n, |src|, first, later) && AllFrom(ok, src, n) && n <= from
    requires PlainTexts(hunks) && Layout(|src|, EditsOf(hunks), from)
    ensures All(ok, ExactSplice(src, ins, hunks, from)) <==> AllGet(hunks, n, first, later)
    decreases |hunks|
  {
    if hunks != [] {
      var h, next := hunks[0], hunks[0].startSrc - 1 + SrcLen(hunks[0]);
      PlainTail(hunks);
      ExactStep(src, ins, hunks, from);
      SpliceGets(src, ins, n, hunks[1..], next, ok, first, later);
      StretchGets(src, ins, n, from, h, ok, first, later);
      AllAppend(ok, Stretch(src, ins, from, h), ExactSplice(src, ins, hunks[1..], next));
    }
  }

  // ---- line ends of a patched file ----

  /** The lines a hunk inserts before reading any source line carry the end `e`. */
  predicate LeadingAdds(text: seq<string>, e: string) {
    text != [] && text[0] != "" && text[0][0] == '+' ==> Ended(text[0][1..], e) && LeadingAdds(text[1..], e)
  }

  predicate LeadEnds(hunks: seq<Hunk>, e: string) {
    hunks != [] && hunks[0].startSrc == 1 ==> LeadingAdds(hunks[0].text, e)
  }

  lemma {:induction false} RStripLast(s: string)
    ensures RStrip(s) == "" || !IsEol(RStrip(s)[|RStrip(s)| - 1])
  {
    if s != "" && IsEol(s[|s| - 1]) {
      RStripLast(s[..|s| - 1]);
    }
  }

  /** `k` more lines with the end `e` were read. */
  function More(ends: Ends, e: string, k: nat): Ends {
    if e == "\n" then ends.(lf := ends.lf + k) else ends.(crlf := ends.crlf + k)
  }

  lemma {:induction false} SeenEnded(ends: Ends, l: string, e: string)
    requires Ended(l, e) && IsEnd(e)
    ensures Seen(ends, l) == More(ends, e, 1)
  {
    RStripLast(l);
  }

  lemma {:induction false} EndsUniform(lines: seq<string>, e: string)
    requires Uniform(lines, e) && IsEnd(e)
    ensures EndsOf(lines) == More(Ends(0, 0, 0), e, |lines|)
  {
    if lines != [] {
      EndsUniform(lines[..|lines| - 1], e);
      SeenEnded(EndsOf(lines[..|lines| - 1]), lines[|lines| - 1], e);
    }
  }

  lemma {:induction false} RewrittenEnded(ends: Ends, content: string)
    requires Newline(ends).0
    ensures Ended(Rewritten(ends, content), Newline(ends).1)
  {
    RStripEol(RStrip(content), Newline(ends).1);
    RStripIdempotent(content);
  }

  /** Once a line was read, an inserted line gets the file's end. */
  lemma {:induction false} InsertedEnd(src: seq<string>, p: nat, content: string, e: string)
    requires Uniform(src, e) && IsEnd(e) && p <= |src|
    ensures Ended(Inserted(src, p, content), e) <==> p > 0 || Ended(content, e)
  {
    EndsUniform(src[..p], e);
    if p > 0 {
      RewrittenEnded(EndsOf(src[..p]), content);
    }
  }

  function Always(): Test {
    (l: string) => true
  }

  lemma {:induction false} UniformDecides(src: seq<string>, e: string)
    requires Uniform(src, e) && IsEnd(e)
    ensures Decides(Inserting(src), WithEnd(e), 0, |src|, WithEnd(e), Always())
    ensures AllFrom(WithEnd(e), src, 0)
  {
    forall p: nat, content | p <= |src|
      ensures WithEnd(e)(Inserting(src)(p, content)) <==> if p > 0 then Always()(content) else WithEnd(e)(content)
    {
      InsertedEnd(src, p, content, e);
    }
  }

  lemma {:induction false} GetsLeading(text: seq<string>, e: string, started: bool)
    ensures Gets(text, WithEnd(e), Always(), started) <==> started || LeadingAdds(text, e)
  {
    if text != [] {
      GetsLeading(text[1..], e, if text[0] != "" && text[0][0] == '+' then started else true);
    }
  }

  lemma {:induction false} AllGetLater(hunks: seq<Hunk>, from: nat, e: string)
    requires from > 0 && Ordered(EditsOf(hunks), from)
    ensures AllGet(hunks, 0, WithEnd(e), Always())
    decreases |hunks|
  {
    if hunks != [] {
      EditsStep(hunks);
      GetsLeading(hunks[0].text, e, true);
      AllGetLater(hunks[1..], hunks[0].startSrc - 1 + SrcLen(hunks[0]), e);
    }
  }

  lemma {:induction false} AllGetLead(hunks: seq<Hunk>, e: string)
    requires WellPlaced(hunks)
    ensures AllGet(hunks, 0, WithEnd(e), Always()) <==> LeadEnds(hunks, e)
  {
    if hunks != [] {
      EditsStep(hunks);
      assert SrcLen(hunks[0]) >= 1;
      GetsLeading(hunks[0].text, e, hunks[0].startSrc - 1 > 0);
      AllGetLater(hunks[1..], hunks[0].startSrc - 1 + SrcLen(hunks[0]), e);
    }
  }

  /** On a file with uniform line ends the patched file has the same line ends,
      whatever the patch's own, exactly when the lines inserted before the first
      source line was read already carry them. */
  lemma {:induction false} KeepsLineEnds(src: seq<string>, hunks: seq<Hunk>, e: string)
    requires Uniform(src, e) && IsEnd(e)
    requires WellPlaced(hunks) && PlainTexts(hunks) && AllMatch(src, hunks)
    ensures Uniform(Patched(src, hunks), e) <==> LeadEnds(hunks, e)
  {
    PatchedIsSplice(src, hunks);
    PatchedIsExactSplice(src, hunks);
    UniformDecides(src, e);
    SpliceGets(src, Inserting(src), 0, hunks, 0, WithEnd(e), WithEnd(e), Always());
    AllGetLead(hunks, e);
  }

  // ---- the round trip ----

  /** What a text inserts before it reads any source line. */
  function Lead(text: seq<string>): seq<string> {
    if text != [] && text[0] != "" && text[0][0] == '+' then [text[0][1..]] + Lead(text[1..]) else []
  }

  /** The lines the patched file begins with that were inserted as they stand. */
  function LeadOf(hunks: seq<Hunk>): seq<string> {
    if hunks != [] && hunks[0].startSrc == 1 then Lead(hunks[0].text) else []
  }

  /** A file that has one kind of line end behind the lines `lead`. */
  predicate Led(out: seq<string>, lead: seq<string>, e: string) {
    |lead| <= |out| && out[..|lead|] == lead && Uniform(out[|lead|..], e)
  }

  lemma {:induction false} BlockLed(src: seq<string>, text: seq<string>, e: string)
    requires Uniform(src, e) && IsEnd(e)
    requires ValidText(text) && NoMarker(text) && |SourceSide(text)| <= |src|
    ensures Led(Block(src, Inserting(src), 0, text), Lead(text), e)
  {
    var ins := Inserting(src);
    if text != [] && text[0][0] == '+' {
      BlockLed(src, text[1..], e);
      assert ins(0, text[0][1..]) == text[0][1..];
      LedCons(text[0][1..], Block(src, ins, 0, text[1..]), Lead(text[1..]), e);
    } else {
      UniformDecides(src, e);
      BlockGets(src, ins, 0, 0, text, WithEnd(e), WithEnd(e), Always());
      GetsLeading(text, e, false);
      assert Block(src, ins, 0, text)[0..] == Block(src, ins, 0, text);
    }
  }

  lemma {:induction false} LedCons(x: string, out: seq<string>, lead: seq<string>, e: string)
    requires Led(out, lead, e)
    ensures Led([x] + out, [x] + lead, e)
  {
    assert ([x] + out)[..|lead| + 1] == [x] + out[..|lead|];
    assert ([x] + out)[|lead| + 1..] == out[|lead|..];
  }

  lemma {:induction false} LedAppend(out: seq<string>, lead: seq<string>, more: seq<string>, e: string)
    requires Led(out, lead, e) && Uniform(more, e)
    ensures Led(out + more, lead, e)
  {
    assert (out + more)[..|lead|] == out[..|lead|];
    assert (out + more)[|lead|..] == out[|lead|..] + more;
    AllAppend(WithEnd(e), out[|lead|..], more);
  }

  lemma {:induction false} LedNone(out: seq<string>, e: string)
    requires Uniform(out, e)
    ensures Led(out, [], e)
  {
    assert out[0..] == out;
  }

  lemma {:induction false} LedFrom(out: seq<string>, lead: seq<string>, e: string)
    requires Led(out, lead, e)
    ensures AllFrom(WithEnd(e), out, |lead|)
  {
    forall i | |lead| <= i < |out| ensures WithEnd(e)(out[i]) {
      assert out[i] == out[|lead|..][i - |lead|];
    }
  }

  lemma {:induction false} StretchOne(src: seq<string>, ins: Insert, h: Hunk)
    requires h.startSrc == 1
    ensures Stretch(src, ins, 0, h) == Block(src, ins, 0, h.text)
  {
  }

  /** Behind the first hunk, which starts at line 1, all lines have the file's end. */
  lemma {:induction false} RestUniform(src: seq<string>, hunks: seq<Hunk>, e: string)
    requires Uniform(src, e) && IsEnd(e)
    requires hunks != [] && PlainTexts(hunks) && SrcLen(hunks[0]) >= 1 && hunks[0].startSrc == 1
    requires Layout(|src|, EditsOf(hunks), 0) && Layout(|src|, EditsOf(hunks[1..]), SrcLen(hunks[0]))
    ensures Uniform(ExactSplice(src, Inserting(src), hunks[1..], SrcLen(hunks[0])), e)
  {
    PlainTail(hunks);
    UniformDecides(src, e);
    LayoutOrdered(|src|, EditsOf(hunks[1..]), SrcLen(hunks[0]));
    AllGetLater(hunks[1..], SrcLen(hunks[0]), e);
    SpliceGets(src, Inserting(src), 0, hunks[1..], SrcLen(hunks[0]), WithEnd(e), WithEnd(e), Always());
  }

  lemma {:induction false} PatchedLed(src: seq<string>, hunks: seq<Hunk>, e: string)
    requires Uniform(src, e) && IsEnd(e)
    requires WellPlaced(hunks) && PlainTexts(hunks) && AllMatch(src, hunks)
    ensures Led(Patched(src, hunks), LeadOf(hunks), e)
  {
    if LeadOf(hunks) == [] {
      KeepsLineEnds(src, hunks, e);
      LedNone(Patched(src, hunks), e);
    } else {
      PatchedIsSplice(src, hunks);
      PatchedIsExactSplice(src, hunks);
      assert SrcLen(hunks[0]) >= 1;
      FirstLed(src, hunks, e);
    }
  }

  lemma {:induction false} FirstLed(src: seq<string>, hunks: seq<Hunk>, e: string)
    requires Uniform(src, e) && IsEnd(e)
    requires hunks != [] && PlainTexts(hunks) && SrcLen(hunks[0]) >= 1 && hunks[0].startSrc == 1
    requires Layout(|src|, EditsOf(hunks), 0)
    ensures Led(ExactSplice(src, Inserting(src), hunks, 0), Lead(hunks[0].text), e)
  {
    var ins, text := Inserting(src), hunks[0].text;
    ExactStep(src, ins, hunks, 0);
    RestUniform(src, hunks, e);
    PlainTail(hunks);
    BlockLed(src, text, e);
    StretchOne(src, ins, hunks[0]);
    LedAppend(Block(src, ins, 0, text), Lead(text), ExactSplice(src, ins, hunks[1..], SrcLen(hunks[0])), e);
  }

  lemma {:induction false} LedEnds(out: seq<string>, lead: seq<string>, e: string, p: nat)
    requires Led(out, lead, e) && IsEnd(e) && |lead| <= p <= |out|
    ensures EndsOf(out[..p]) == More(EndsOf(lead), e, p - |lead|)
    decreases p
  {
    if p > |lead| {
      LedEnds(out, lead, e, p - 1);
      LedFrom(out, lead, e);
      assert out[..p][..p - 1] == out[..p - 1];
      SeenEnded(EndsOf(out[..p - 1]), out[p - 1], e);
    }
  }

  function Never(): Test {
    (l: string) => false
  }

  /** Does a line that is put back get the end `e`, when `ends` were read?  The end
      they agree on decides, and otherwise the line's own. */
  function Back(ends: Ends, e: string): Test {
    var nl := Newline(ends);
    if !nl.0 then WithEnd(e) else if nl.1 == e then Always() else Never()
  }

  lemma {:induction false} BackDecides(ends: Ends, content: string, e: string)
    requires IsEnd(e)
    ensures Ended(Rewritten(ends, content), e) <==> Back(ends, e)(content)
  {
    if Newline(ends).0 {
      RewrittenEnded(ends, content);
    }
  }

  lemma {:induction false} MoreAgain(ends: Ends, e: string, k: nat)
    requires k > 0 && IsEnd(e)
    ensures Newline(More(ends, e, k)) == Newline(More(ends, e, 1))
  {
  }

  lemma {:induction false} SameNewline(a: Ends, b: Ends, content: string)
    requires Newline(a) == Newline(b)
    ensures Rewritten(a, content) == Rewritten(b, content)
  {
  }

  lemma {:induction false} InsertedLed(out: seq<string>, lead: seq<string>, p: nat, content: string, e: string)
    requires Led(out, lead, e) && IsEnd(e) && |lead| <= p <= |out|
    ensures Inserted(out, p, content)
         == if p > |lead| then Rewritten(More(EndsOf(lead), e, 1), content) else Rewritten(EndsOf(lead), content)
  {
    LedEnds(out, lead, e, p);
    if p > |lead| {
      MoreAgain(EndsOf(lead), e, p - |lead|);
      SameNewline(EndsOf(out[..p]), More(EndsOf(lead), e, 1), content);
    }
  }

  lemma {:induction false} LedDecides(out: seq<string>, lead: seq<string>, e: string)
    requires Led(out, lead, e) && IsEnd(e)
    ensures Decides(Inserting(out), WithEnd(e), |lead|, |out|, Back(EndsOf(lead), e), Back(More(EndsOf(lead), e, 1), e))
  {
    forall p: nat, content | |lead| <= p <= |out|
      ensures WithEnd(e)(Inserting(out)(p, content))
         <==> if p > |lead| then Back(More(EndsOf(lead), e, 1), e)(content) else Back(EndsOf(lead), e)(content)
    {
      InsertedLed(out, lead, p, content, e);
      BackDecides(EndsOf(lead), content, e);
      BackDecides(More(EndsOf(lead), e, 1), content, e);
    }
  }

  lemma {:induction false} LeadRemoved(out: seq<string>, ins: Insert, p: nat, text: seq<string>, n: nat)
    requires n <= |text| && forall i :: 0 <= i < n ==> text[i] != "" && text[i][0] == '-'
    ensures Block(out, ins, p, text) == Block(out, ins, p + n, text[n..])
    ensures |SourceSide(text)| == n + |SourceSide(text[n..])|
    decreases n
  {
    if n > 0 {
      LeadRemoved(out, ins, p + 1, text[1..], n - 1);
      assert text[1..][n - 1..] == text[n..];
    } else {
      assert text[0..] == text;
    }
  }

  lemma {:induction false} LeadFlips(text: seq<string>)
    ensures |Lead(text)| <= |text|
    ensures forall i :: 0 <= i < |Lead(text)| ==> FlipText(text)[i] != "" && FlipText(text)[i][0] == '-'
  {
    if text != [] && text[0] != "" && text[0][0] == '+' {
      LeadFlips(text[1..]);
      assert FlipText(text)[1..] == FlipText(text[1..]);
      forall i | 0 < i < |Lead(text)| ensures FlipText(text)[i] == FlipText(text[1..])[i - 1] {}
    }
  }

  /** Every line that the reversed hunks put back gets the end `e`.  The reversed
      patch first takes the lines `lead` away, which it reads as they stand. */
  predicate ComeBack(rev: seq<Hunk>, lead: seq<string>, e: string) {
    var first, later := Back(EndsOf(lead), e), Back(More(EndsOf(lead), e, 1), e);
    rev != [] ==>
      && |lead| <= |rev[0].text|
      && Gets(rev[0].text[|lead|..], first, later, rev[0].startSrc > 1)
      && AllGet(rev[1..], |lead|, first, later)
  }

  /** The reversed patch starts with line 1 and takes `lead` away first. */
  lemma {:induction false} LeadBack(out: seq<string>, ins: Insert, rev: seq<Hunk>, n: nat, ok: Test, first: Test,
                                    later: Test)
    requires Decides(ins, ok, n, |out|, first, later) && AllFrom(ok, out, n)
    requires rev != [] && rev[0].startSrc == 1 && n <= |rev[0].text|
    requires forall i :: 0 <= i < n ==> rev[0].text[i] != "" && rev[0].text[i][0] == '-'
    requires PlainTexts(rev) && Layout(|out|, EditsOf(rev), 0)
    ensures All(ok, ExactSplice(out, ins, rev, 0))
       <==> Gets(rev[0].text[n..], first, later, false) && AllGet(rev[1..], n, first, later)
  {
    var text, next := rev[0].text, SrcLen(rev[0]);
    PlainTail(rev);
    ExactStep(out, ins, rev, 0);
    LeadRemoved(out, ins, 0, text, n);
    StretchOne(out, ins, rev[0]);
    BlockGets(out, ins, n, n, text[n..], ok, first, later);
    SpliceGets(out, ins, n, rev[1..], next, ok, first, later);
    AllAppend(ok, Block(out, ins, 0, text), ExactSplice(out, ins, rev[1..], next));
  }

  lemma {:induction false} RevertedEnds(out: seq<string>, hunks: seq<Hunk>, e: string)
    requires IsEnd(e) && Led(out, LeadOf(hunks), e)
    requires hunks != [] && hunks[0].startTgt == hunks[0].startSrc >= 1
    requires PlainTexts(ReversedAll(hunks)) && Layout(|out|, EditsOf(ReversedAll(hunks)), 0)
    ensures Uniform(ExactSplice(out, Inserting(out), ReversedAll(hunks), 0), e)
       <==> ComeBack(ReversedAll(hunks), LeadOf(hunks), e)
  {
    var rev, lead := ReversedAll(hunks), LeadOf(hunks);
    var first, later := Back(EndsOf(lead), e), Back(More(EndsOf(lead), e, 1), e);
    LedFrom(out, lead, e);
    LedDecides(out, lead, e);
    if lead == [] {
      SpliceGets(out, Inserting(out), 0, rev, 0, WithEnd(e), first, later);
      assert rev[0].text[0..] == rev[0].text;
    } else {
      LeadFlips(hunks[0].text);
      LeadBack(out, Inserting(out), rev, |lead|, WithEnd(e), first, later);
    }
  }

  lemma {:induction false} UniformBare(a: seq<string>, b: seq<string>, e: string)
    requires Uniform(a, e) && Uniform(b, e) && Bare(a) == Bare(b)
    ensures a == b
  {
    forall i | 0 <= i < |a| ensures a[i] == b[i] {
      assert Bare(a)[i] == Bare(b)[i];
      assert WithEnd(e)(a[i]) && WithEnd(e)(b[i]);
    }
  }

  /** The byte-exact round trip on a file with one kind of line end: apply, then
      revert, restores the very same lines exactly when every line that is put
      back gets the file's line end. */
  lemma {:induction false} RevertRestoresBytes(src: seq<string>, hunks: seq<Hunk>, e: string)
    requires Uniform(src, e) && IsEnd(e)
    requires WellPlaced(hunks) && PlainTexts(hunks) && TargetsConsistent(hunks) && AllMatch(src, hunks)
    ensures Patched(Patched(src, hunks), ReversedAll(hunks)) == src <==> ComeBack(ReversedAll(hunks), LeadOf(hunks), e)
  {
    var out, rev := Patched(src, hunks), ReversedAll(hunks);
    RevertUndoesApply(src, hunks);
    PatchedLed(src, hunks, e);
    PatchedIsSplice(out, rev);
    PatchedIsExactSplice(out, rev);
    if hunks == [] {
      assert out == src && Patched(out, rev) == out;
    } else {
      RevertedEnds(out, hunks, e);
      if ComeBack(rev, LeadOf(hunks), e) {
        UniformBare(Patched(out, rev), src, e);
      }
    }
  }

  /** A patch that keeps the file's line ends: apply, then revert, restores the very
      same lines exactly when the reversed patch keeps them too. */
  lemma {:induction false} KeptEndsComeBack(src: seq<string>, hunks: seq<Hunk>, e: string)
    requires Uniform(src, e) && IsEnd(e)
    requires WellPlaced(hunks) && PlainTexts(hunks) && TargetsConsistent(hunks) && TargetsNonEmpty(hunks)
    requires AllMatch(src, hunks)
    requires LeadEnds(hunks, e)
    ensures Patched(Patched(src, hunks), ReversedAll(hunks)) == src <==> LeadEnds(ReversedAll(hunks), e)
  {
    var out, rev := Patched(src, hunks), ReversedAll(hunks);
    RevertUndoesApply(src, hunks);
    KeepsLineEnds(src, hunks, e);
    ReversedNonEmpty(hunks);
    KeepsLineEnds(out, rev, e);
    if LeadEnds(rev, e) {
      UniformBare(Patched(out, rev), src, e);
    }
  }

  // ---- a patch with one kind of line end ----

  predicate TextEnds(text: seq<string>, p: string) {
    forall i :: 0 <= i < |text| ==> text[i] != "" && Ended(text[i][1..], p)
  }

  predicate OneEnd(hunks: seq<Hunk>, p: string) {
    forall k :: 0 <= k < |hunks| ==> TextEnds(hunks[k].text, p)
  }

  predicate Without(text: seq<string>, tag: char) {
    forall i :: 0 <= i < |text| ==> text[i] == "" || text[i][0] != tag
  }

  predicate AllWithout(hunks: seq<Hunk>, tag: char) {
    forall k :: 0 <= k < |hunks| ==> Without(hunks[k].text, tag)
  }

  predicate StartsWith(text: seq<string>, tag: char) {
    text != [] && text[0] != "" && text[0][0] == tag
  }

  /** The tests give one answer for all contents with the end `p`. */
  ghost predicate Constant(test: Test, p: string, answer: bool) {
    forall content {:trigger test(content)} :: Ended(content, p) ==> test(content) == answer
  }

  lemma {:induction false} GetsConstant(text: seq<string>, first: Test, later: Test, started: bool, p: string,
                                        f: bool, l: bool)
    requires TextEnds(text, p) && Constant(first, p, f) && Constant(later, p, l)
    ensures l && (f || started) ==> Gets(text, first, later, started)
    ensures l && !f && !started ==> (Gets(text, first, later, started) <==> !StartsWith(text, '+'))
    ensures !l && !f ==> (Gets(text, first, later, started) <==> Without(text, '+'))
  {
    if text != [] {
      var rest := text[1..];
      assert TextEnds(rest, p);
      GetsConstant(rest, first, later, started || text[0][0] != '+', p, f, l);
      assert Without(text, '+') <==> text[0][0] != '+' && Without(rest, '+');
    }
  }

  lemma {:induction false} AllGetConstant(hunks: seq<Hunk>, n: nat, first: Test, later: Test, p: string, f: bool,
                                          l: bool)
    requires OneEnd(hunks, p) && Constant(first, p, f) && Constant(later, p, l)
    ensures l && (f || forall k :: 0 <= k < |hunks| ==> hunks[k].startSrc - 1 > n) ==> AllGet(hunks, n, first, later)
    ensures !l && !f ==> (AllGet(hunks, n, first, later) <==> AllWithout(hunks, '+'))
  {
    if hunks != [] {
      var rest := hunks[1..];
      assert forall k :: 0 <= k < |rest| ==> rest[k] == hunks[k + 1];
      GetsConstant(hunks[0].text, first, later, hunks[0].startSrc - 1 > n, p, f, l);
      AllGetConstant(rest, n, first, later, p, f, l);
      assert AllWithout(hunks, '+') <==> Without(hunks[0].text, '+') && AllWithout(rest, '+') by {
        assert forall k :: 0 < k < |hunks| ==> hunks[k] == rest[k - 1];
      }
    }
  }

  lemma {:induction false} EndsDiffer(content: string, p: string, e: string)
    requires IsEnd(e) && IsEnd(p) && Ended(content, p)
    ensures Ended(content, e) <==> e == p
  {
  }

  lemma {:induction false} LeadUniform(text: seq<string>, p: string)
    requires TextEnds(text, p)
    ensures Uniform(Lead(text), p)
  {
    if StartsWith(text, '+') {
      assert TextEnds(text[1..], p);
      LeadUniform(text[1..], p);
      AllCons(WithEnd(p), text[0][1..], Lead(text[1..]));
    }
  }

  /** The two tests of the way back, for lines with the end `p`. */
  lemma {:induction false} BackConstant(lead: seq<string>, p: string, e: string)
    requires IsEnd(e) && IsEnd(p) && Uniform(lead, p)
    ensures Constant(Back(EndsOf(lead), e), p, e == p)
    ensures Constant(Back(More(EndsOf(lead), e, 1), e), p, e == p || lead == [])
  {
    EndsUniform(lead, p);
    forall content | Ended(content, p) ensures WithEnd(e)(content) == (e == p) {
      EndsDiffer(content, p, e);
    }
  }

  lemma {:induction false} FlipEnds(hunks: seq<Hunk>, p: string)
    requires OneEnd(hunks, p)
    ensures OneEnd(ReversedAll(hunks), p)
    ensures AllWithout(ReversedAll(hunks), '+') <==> AllWithout(hunks, '-')
  {
    forall k | 0 <= k < |hunks|
      ensures TextEnds(ReversedAll(hunks)[k].text, p)
      ensures Without(ReversedAll(hunks)[k].text, '+') <==> Without(hunks[k].text, '-')
    {
      FlipTextEnds(hunks[k].text, p);
    }
  }

  lemma {:induction false} FlipTextEnds(text: seq<string>, p: string)
    requires TextEnds(text, p)
    ensures TextEnds(FlipText(text), p)
    ensures Without(FlipText(text), '+') <==> Without(text, '-')
  {
    forall i | 0 <= i < |text|
      ensures Flip(text[i]) != "" && Flip(text[i])[1..] == text[i][1..]
      ensures Flip(text[i])[0] == '+' <==> text[i][0] == '-'
    {
    }
    if Without(FlipText(text), '+') {
      forall i | 0 <= i < |text| ensures text[i][0] != '-' {
        assert FlipText(text)[i] == Flip(text[i]);
      }
    }
  }

  lemma {:induction false} PlacedAfter(hunks: seq<Hunk>, from: nat)
    requires Ordered(EditsOf(hunks), from)
    ensures forall k :: 0 <= k < |hunks| ==> hunks[k].startSrc > from
    decreases |hunks|
  {
    if hunks != [] {
      EditsStep(hunks);
      PlacedAfter(hunks[1..], hunks[0].startSrc - 1 + SrcLen(hunks[0]));
      assert forall k :: 0 < k < |hunks| ==> hunks[k] == hunks[1..][k - 1];
    }
  }

  /** Nothing is inserted in front: only a line put back in front can go wrong. */
  lemma {:induction false} NoLeadBack(rev: seq<Hunk>, p: string, e: string)
    requires IsEnd(e) && IsEnd(p) && OneEnd(rev, p) && Placed(rev) && rev != []
    requires rev[0].text != [] && !StartsWith(rev[0].text, '-') && ValidText(rev[0].text) && NoMarker(rev[0].text)
    ensures ComeBack(rev, [], e) <==> e == p || rev[0].startSrc > 1 || !StartsWith(rev[0].text, '+')
  {
    var first, later := Back(EndsOf([]), e), Back(More(EndsOf([]), e, 1), e);
    var text, rest := rev[0].text, rev[1..];
    BackConstant([], p, e);
    assert text[0..] == text;
    GetsConstant(text, first, later, rev[0].startSrc > 1, p, e == p, true);
    EditsStep(rev);
    PlacedAfter(rest, rev[0].startSrc - 1 + SrcLen(rev[0]));
    assert OneEnd(rest, p) by { assert forall k :: 0 <= k < |rest| ==> rest[k] == rev[k + 1]; }
    AllGetConstant(rest, 0, first, later, p, e == p, true);
    assert BodyLine(text[0]) && (text[0][0] == ' ' ==> SrcLen(rev[0]) >= 1);
  }

  /** Lines inserted in front with the end `p`: with another end in the file
      nothing can be put back. */
  lemma {:induction false} LeadLost(rev: seq<Hunk>, lead: seq<string>, p: string, e: string)
    requires IsEnd(e) && IsEnd(p) && OneEnd(rev, p) && Uniform(lead, p) && lead != []
    requires rev != [] && rev[0].startSrc == 1 && |lead| <= |rev[0].text| && Without(rev[0].text[..|lead|], '+')
    ensures ComeBack(rev, lead, e) <==> e == p || AllWithout(rev, '+')
  {
    var first, later := Back(EndsOf(lead), e), Back(More(EndsOf(lead), e, 1), e);
    var text, rest, n := rev[0].text, rev[1..], |lead|;
    BackConstant(lead, p, e);
    assert TextEnds(text[n..], p) by { assert TextEnds(text, p); }
    GetsConstant(text[n..], first, later, false, p, e == p, e == p);
    assert OneEnd(rest, p) by { assert forall k :: 0 <= k < |rest| ==> rest[k] == rev[k + 1]; }
    AllGetConstant(rest, n, first, later, p, e == p, e == p);
    WithoutParts(text, n);
    assert AllWithout(rev, '+') <==> Without(text, '+') && AllWithout(rest, '+') by {
      assert forall k :: 0 < k < |rev| ==> rev[k] == rest[k - 1];
      assert forall k :: 0 <= k < |rest| ==> rest[k] == rev[k + 1];
    }
  }

  lemma {:induction false} WithoutParts(text: seq<string>, n: nat)
    requires n <= |text| && Without(text[..n], '+')
    ensures Without(text, '+') <==> Without(text[n..], '+')
  {
    assert forall i :: 0 <= i < n ==> text[i] == text[..n][i];
    assert forall i :: n <= i < |text| ==> text[i] == text[n..][i - n];
  }

  /** Below line 1 everything is put back with the file's end. */
  lemma {:induction false} LaterBack(rev: seq<Hunk>, p: string, e: string)
    requires IsEnd(e) && IsEnd(p) && OneEnd(rev, p) && Placed(rev) && rev != [] && rev[0].startSrc > 1
    ensures ComeBack(rev, [], e)
  {
    var first, later := Back(EndsOf([]), e), Back(More(EndsOf([]), e, 1), e);
    BackConstant([], p, e);
    assert rev[0].text[0..] == rev[0].text;
    GetsConstant(rev[0].text, first, later, true, p, e == p, true);
    EditsStep(rev);
    PlacedAfter(rev[1..], rev[0].startSrc - 1 + SrcLen(rev[0]));
    assert OneEnd(rev[1..], p) by { assert forall k :: 0 <= k < |rev[1..]| ==> rev[1..][k] == rev[k + 1]; }
    AllGetConstant(rev[1..], 0, first, later, p, e == p, true);
  }

  lemma {:induction false} FlipStarts(text: seq<string>)
    requires text != [] && ValidText(text) && NoMarker(text)
    ensures FlipText(text) != [] && (StartsWith(FlipText(text), '+') <==> StartsWith(text, '-'))
    ensures StartsWith(FlipText(text), '-') <==> StartsWith(text, '+')
    ensures StartsWith(text, ' ') <==> !StartsWith(text, '+') && !StartsWith(text, '-')
  {
    assert BodyLine(text[0]) && FlipText(text)[0] == Flip(text[0]);
  }

  /** The patch starts below line 1, or with a context line, or by inserting and
      then removes nothing at all. */
  predicate FrontKept(hunks: seq<Hunk>)
    requires hunks != []
  {
    || hunks[0].startSrc > 1
    || StartsWith(hunks[0].text, ' ')
    || (StartsWith(hunks[0].text, '+') && AllWithout(hunks, '-'))
  }

  lemma {:induction false} OneEndBack(hunks: seq<Hunk>, e: string, p: string)
    requires IsEnd(e) && IsEnd(p) && OneEnd(hunks, p) && hunks != []
    requires hunks[0].startTgt == hunks[0].startSrc >= 1 && hunks[0].text != []
    requires PlainTexts(hunks) && Placed(ReversedAll(hunks)) && PlainTexts(ReversedAll(hunks))
    ensures ComeBack(ReversedAll(hunks), LeadOf(hunks), e) <==> e == p || FrontKept(hunks)
  {
    var rev, text := ReversedAll(hunks), hunks[0].text;
    FlipEnds(hunks, p);
    PlainTail(hunks);
    PlainTail(rev);
    FlipStarts(text);
    if hunks[0].startSrc > 1 {
      LaterBack(rev, p, e);
    } else if StartsWith(text, '+') {
      FrontLost(hunks, e, p);
    } else {
      NoLeadBack(rev, p, e);
    }
  }

  lemma {:induction false} FrontLost(hunks: seq<Hunk>, e: string, p: string)
    requires IsEnd(e) && IsEnd(p) && OneEnd(hunks, p) && OneEnd(ReversedAll(hunks), p) && hunks != []
    requires hunks[0].startTgt == hunks[0].startSrc == 1 && StartsWith(hunks[0].text, '+')
    ensures ComeBack(ReversedAll(hunks), LeadOf(hunks), e) <==> e == p || AllWithout(ReversedAll(hunks), '+')
  {
    LeadUniform(hunks[0].text, p);
    LeadFlips(hunks[0].text);
    LeadLost(ReversedAll(hunks), Lead(hunks[0].text), p, e);
  }

  /** When all lines of the patch have one end and those of the file another, the
      round trip restores the bytes exactly when the patch keeps the front. */
  lemma {:induction false} OneEndRestores(src: seq<string>, hunks: seq<Hunk>, e: string, p: string)
    requires Uniform(src, e) && IsEnd(e) && IsEnd(p) && OneEnd(hunks, p)
    requires WellPlaced(hunks) && PlainTexts(hunks) && TargetsConsistent(hunks) && AllMatch(src, hunks)
    requires hunks != []
    ensures Patched(Patched(src, hunks), ReversedAll(hunks)) == src <==> e == p || FrontKept(hunks)
  {
    RevertRestoresBytes(src, hunks, e);
    RevertUndoesApply(src, hunks);
    assert SrcLen(hunks[0]) >= 1;
    OneEndBack(hunks, e, p);
  }
}
