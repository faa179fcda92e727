/**
 The bytes the rewriter writes, for every file and every list of hunks: told from
 the lines read before an insertion, without the rewriter's counters.
 */
module PatchedBytes {
  import opened Lines
  import opened Edits
  import opened Hunks
  import opened Rewriter

  // ---- which line ends were read ----

  predicate EndsIn(line: string, e: string) {
    |e| <= |line| && line[|line| - |e|..] == e
  }

  /** Does the line end in `e`?  A line feed behind a carriage return is no end of its own. */
  predicate HasEnd(line: string, e: string) {
    || (e == "\r\n" && EndsIn(line, e))
    || (e == "\n" && EndsIn(line, e) && !EndsIn(line, "\r\n"))
    || (e == "\r" && EndsIn(line, e))
  }

  ghost predicate Some(lines: seq<string>, ok: string -> bool) {
    exists i :: 0 <= i < |lines| && ok(lines[i])
  }

  ghost predicate Occurs(lines: seq<string>, e: string) {
    Some(lines, (l: string) => HasEnd(l, e))
  }

  /** This line end occurs and no other. */
  ghost predicate OneKind(lines: seq<string>, e: string) {
    Occurs(lines, e) && forall f :: Occurs(lines, f) ==> f == e
  }

  function Count(ends: Ends, e: string): nat {
    if e == "\n" then ends.lf else if e == "\r\n" then ends.crlf else if e == "\r" then ends.cr else 0
  }

  lemma {:induction false} SeenCounts(ends: Ends, line: string, e: string)
    ensures Count(Seen(ends, line), e) == Count(ends, e) + if HasEnd(line, e) then 1 else 0
  {
  }

  lemma {:induction false} SomeSnoc(lines: seq<string>, ok: string -> bool)
    requires lines != []
    ensures Some(lines, ok) <==> Some(lines[..|lines| - 1], ok) || ok(lines[|lines| - 1])
  {
    var init := lines[..|lines| - 1];
    if Some(init, ok) {
      var i :| 0 <= i < |init| && ok(init[i]);
      assert ok(lines[i]);
    }
    if Some(lines, ok) {
      var i :| 0 <= i < |lines| && ok(lines[i]);
      assert i < |init| ==> ok(init[i]);
    }
  }

  lemma {:induction false} EndsCount(lines: seq<string>, e: string)
    ensures Count(EndsOf(lines), e) > 0 <==> Occurs(lines, e)
  {
    if lines != [] {
      EndsCount(lines[..|lines| - 1], e);
      SeenCounts(EndsOf(lines[..|lines| - 1]), lines[|lines| - 1], e);
      SomeSnoc(lines, (l: string) => HasEnd(l, e));
    }
  }

  predicate OnlyCount(ends: Ends, e: string) {
    && Count(ends, e) > 0
    && (e == "\n" || Count(ends, "\n") == 0) && (e == "\r\n" || Count(ends, "\r\n") == 0)
    && (e == "\r" || Count(ends, "\r") == 0)
  }

  lemma {:induction false} NewlineOf(ends: Ends, e: string)
    ensures Newline(ends) == (true, e) <==> OnlyCount(ends, e)
  {
  }

  /** Only three kinds of end can occur. */
  lemma {:induction false} KindOfEnd(lines: seq<string>, e: string)
    requires Occurs(lines, e)
    ensures e == "\n" || e == "\r\n" || e == "\r"
  {
  }

  lemma {:induction false} OneKindCounts(lines: seq<string>, e: string)
    ensures OneKind(lines, e) <==> OnlyCount(EndsOf(lines), e)
  {
    EndsCount(lines, e);
    EndsCount(lines, "\n");
    EndsCount(lines, "\r\n");
    EndsCount(lines, "\r");
    if OnlyCount(EndsOf(lines), e) {
      forall f | Occurs(lines, f) ensures f == e {
        KindOfEnd(lines, f);
      }
    }
  }

  lemma {:induction false} NewlineMeans(lines: seq<string>, e: string)
    ensures Newline(EndsOf(lines)) == (true, e) <==> OneKind(lines, e)
  {
    NewlineOf(EndsOf(lines), e);
    OneKindCounts(lines, e);
  }

  lemma {:induction false} NoNewlineMeans(lines: seq<string>)
    ensures !Newline(EndsOf(lines)).0 <==> forall e :: !OneKind(lines, e)
  {
    NewlineMeans(lines, Newline(EndsOf(lines)).1);
    if !Newline(EndsOf(lines)).0 {
      forall e ensures !OneKind(lines, e) {
        NewlineMeans(lines, e);
      }
    }
  }

  // ---- what is inserted ----

  /** A content cut in front of its line end. */
  predicate Cut(content: string, body: string, tail: string) {
    && content == body + tail
    && (forall i :: 0 <= i < |tail| ==> tail[i] == '\r' || tail[i] == '\n')
    && (body != "" ==> body[|body| - 1] != '\r' && body[|body| - 1] != '\n')
  }

  /** How lines are to be inserted: with the line end of the lines read, if they
      have one kind, and with the patch's own if they have several or none. */
  ghost predicate Adapts(ins: Insert, src: seq<string>) {
    && (forall p: nat, body, tail, e {:trigger ins(p, body + tail), OneKind(src[..p], e)} ::
         p <= |src| && OneKind(src[..p], e) && Cut(body + tail, body, tail) ==> ins(p, body + tail) == body + e)
    && (forall p: nat, content {:trigger ins(p, content)} ::
         p <= |src| && (forall e :: !OneKind(src[..p], e)) ==> ins(p, content) == content)
  }

  lemma {:induction false} CutStrips(body: string, tail: string)
    requires Cut(body + tail, body, tail)
    ensures RStrip(body + tail) == body
    decreases |tail|
  {
    if tail == "" {
      assert body + tail == body;
    } else {
      var init := tail[..|tail| - 1];
      assert (body + tail)[..|body + tail| - 1] == body + init;
      assert (body + tail)[|body + tail| - 1] == tail[|tail| - 1];
      CutStrips(body, init);
    }
  }

  lemma {:induction false} StripCuts(content: string) returns (tail: string)
    ensures Cut(content, RStrip(content), tail)
  {
    tail := "";
    if content != "" && IsEol(content[|content| - 1]) {
      var init := StripCuts(content[..|content| - 1]);
      tail := init + [content[|content| - 1]];
      assert content == content[..|content| - 1] + [content[|content| - 1]];
    }
  }

  /** The bytes of an inserted line, told from the lines read before. */
  lemma {:induction false} InsertedBytes(src: seq<string>, p: nat, body: string, tail: string, e: string)
    requires p <= |src| && Cut(body + tail, body, tail)
    ensures OneKind(src[..p], e) ==> Inserted(src, p, body + tail) == body + e
    ensures (forall f :: !OneKind(src[..p], f)) ==> Inserted(src, p, body + tail) == body + tail
  {
    NewlineMeans(src[..p], e);
    NoNewlineMeans(src[..p]);
    CutStrips(body, tail);
  }

  lemma {:induction false} InsertingAdapts(src: seq<string>)
    ensures Adapts(Inserting(src), src)
  {
    var ins := Inserting(src);
    forall p: nat, body, tail, e | p <= |src| && OneKind(src[..p], e) && Cut(body + tail, body, tail)
      ensures ins(p, body + tail) == body + e
    {
      InsertedBytes(src, p, body, tail, e);
    }
    forall p: nat, content | p <= |src| && (forall e :: !OneKind(src[..p], e))
      ensures ins(p, content) == content
    {
      NoNewlineMeans(src[..p]);
    }
  }

  /** There is one way to adapt. */
  lemma {:induction false} AdaptsOne(ins: Insert, src: seq<string>, p: nat, content: string)
    requires Adapts(ins, src) && p <= |src|
    ensures ins(p, content) == Inserted(src, p, content)
  {
    InsertingAdapts(src);
    if e :| OneKind(src[..p], e) {
      var tail := StripCuts(content);
      assert content == RStrip(content) + tail;
      InsertedBytes(src, p, RStrip(content), tail, e);
    } else {
      NoNewlineMeans(src[..p]);
    }
  }

  // ---- every hunk, every file ----

  /** What a line of a text is to the rewriter: a marker is a line to be removed,
      whatever has no tag is a context line. */
  function Plainly(l: string): string {
    if l != "" && (l[0] == '-' || l[0] == '+' || l[0] == ' ') then l
    else if l != "" && l[0] == '\\' then "-" + l[1..]
    else " " + l
  }

  function PlainText(text: seq<string>): (r: seq<string>)
    ensures ValidText(r) && NoMarker(r)
  {
    if text == [] then [] else [Plainly(text[0])] + PlainText(text[1..])
  }

  /** The start of a hunk, or the line behind those dealt with. */
  function NotBefore(start: nat, from: nat): nat {
    if start <= from then from + 1 else start
  }

  /** A hunk as the rewriter takes it when `from` lines are dealt with: it never goes back. */
  function Settle(h: Hunk, from: nat): (r: Hunk)
    ensures r.startSrc > from && ValidText(r.text) && NoMarker(r.text)
  {
    h.(startSrc := NotBefore(h.startSrc, from), text := PlainText(h.text))
  }

  /** The lines dealt with after a settled hunk. */
  function Behind(h: Hunk): nat
    requires h.startSrc > 0
  {
    h.startSrc - 1 + SrcLen(h)
  }

  function Settled(hunks: seq<Hunk>, from: nat): seq<Hunk>
    decreases |hunks|
  {
    if hunks == [] then []
    else
      var h := Settle(hunks[0], from);
      [h] + Settled(hunks[1..], Behind(h))
  }

  lemma {:induction false} PlainRuns(src: seq<string>, c: Cursor, text: seq<string>)
    ensures RunText(src, c, PlainText(text)) == RunText(src, c, text)
    decreases |text|
  {
    if text != [] {
      assert TextStep(src, c, Plainly(text[0])) == TextStep(src, c, text[0]);
      PlainRuns(src, TextStep(src, c, text[0]), text[1..]);
    }
  }

  lemma {:induction false} ReadPosition(src: seq<string>, c: Cursor, text: seq<string>)
    requires ValidText(text) && NoMarker(text)
    ensures RunText(src, c, text).pos == c.pos + |SourceSide(text)|
    decreases |text|
  {
    if text != [] {
      assert BodyLine(text[0]);
      ReadPosition(src, TextStep(src, c, text[0]), text[1..]);
    }
  }

  lemma {:induction false} SkipPosition(src: seq<string>, c: Cursor, start: nat)
    ensures SkipTo(src, c, start).pos + 1 == NotBefore(start, c.pos)
    ensures SkipTo(src, c, start) == SkipTo(src, c, NotBefore(start, c.pos))
    decreases start - c.pos
  {
    if c.pos + 1 < start {
      SkipPosition(src, Cursor(c.pos + 1, c.out + [Fetch(src, c.pos)]), start);
    }
  }

  lemma {:induction false} SettledRuns(src: seq<string>, c: Cursor, hunks: seq<Hunk>)
    ensures RunHunks(src, c, Settled(hunks, c.pos)) == RunHunks(src, c, hunks)
    decreases |hunks|
  {
    if hunks != [] {
      var text := PlainText(hunks[0].text);
      var c1 := SkipTo(src, c, hunks[0].startSrc);
      SkipPosition(src, c, hunks[0].startSrc);
      PlainRuns(src, c1, hunks[0].text);
      ReadPosition(src, c1, text);
      SettledRuns(src, RunText(src, c1, text), hunks[1..]);
    }
  }

  // ---- a file that ends too early ----

  /** `readline()` goes on yielding nothing at the end of a file. */
  function Padded(src: seq<string>, n: nat): seq<string> {
    src + seq(n, i => "")
  }

  lemma {:induction false} EndsPadded(src: seq<string>, n: nat)
    ensures EndsOf(Padded(src, n)) == EndsOf(src)
  {
    if n == 0 {
      assert Padded(src, 0) == src;
    } else {
      EndsPadded(src, n - 1);
      assert Padded(src, n)[..|src| + n - 1] == Padded(src, n - 1);
    }
  }

  lemma {:induction false} ReadPadded(src: seq<string>, n: nat, pos: nat)
    ensures EndsOf(Read(Padded(src, n), pos)) == EndsOf(Read(src, pos))
    ensures Fetch(Padded(src, n), pos) == Fetch(src, pos)
  {
    if pos <= |src| {
      assert Padded(src, n)[..pos] == src[..pos];
    } else {
      var k := if pos <= |src| + n then pos - |src| else n;
      assert Read(Padded(src, n), pos) == Padded(src, k);
      EndsPadded(src, k);
    }
  }

  lemma {:induction false} StepPadded(src: seq<string>, n: nat, c: Cursor, l: string)
    ensures TextStep(Padded(src, n), c, l) == TextStep(src, c, l)
  {
    ReadPadded(src, n, c.pos);
  }

  lemma {:induction false} TextPadded(src: seq<string>, n: nat, c: Cursor, text: seq<string>)
    ensures RunText(Padded(src, n), c, text) == RunText(src, c, text)
    decreases |text|
  {
    if text != [] {
      StepPadded(src, n, c, text[0]);
      TextPadded(src, n, TextStep(src, c, text[0]), text[1..]);
    }
  }

  lemma {:induction false} SkipPadded(src: seq<string>, n: nat, c: Cursor, start: nat)
    ensures SkipTo(Padded(src, n), c, start) == SkipTo(src, c, start)
    decreases start - c.pos
  {
    if c.pos + 1 < start {
      ReadPadded(src, n, c.pos);
      SkipPadded(src, n, Cursor(c.pos + 1, c.out + [Fetch(src, c.pos)]), start);
    }
  }

  lemma {:induction false} RunPadded(src: seq<string>, n: nat, c: Cursor, hunks: seq<Hunk>)
    ensures RunHunks(Padded(src, n), c, hunks) == RunHunks(src, c, hunks)
    decreases |hunks|
  {
    if hunks != [] {
      var c1 := SkipTo(src, c, hunks[0].startSrc);
      SkipPadded(src, n, c, hunks[0].startSrc);
      TextPadded(src, n, c1, hunks[0].text);
      RunPadded(src, n, RunText(src, c1, hunks[0].text), hunks[1..]);
    }
  }

  lemma {:induction false} JoinPadded(lines: seq<string>, n: nat)
    ensures Join(Padded(lines, n)) == Join(lines)
  {
    if lines != [] {
      JoinPadded(lines[1..], n);
      assert Padded(lines, n)[1..] == Padded(lines[1..], n);
    } else if n > 0 {
      JoinPadded([], n - 1);
      assert Padded([], n)[1..] == Padded([], n - 1) && Padded([], n)[0] == "";
    } else {
      assert Padded([], 0) == [];
    }
  }

  lemma {:induction false} PatchedPadded(src: seq<string>, n: nat, hunks: seq<Hunk>)
    ensures Join(Patched(Padded(src, n), hunks)) == Join(Patched(src, hunks))
  {
    var c := RunHunks(src, Cursor(0, []), hunks);
    RunPadded(src, n, Cursor(0, []), hunks);
    var k := if c.pos <= |src| then n else if c.pos <= |src| + n then |src| + n - c.pos else 0;
    assert Finish(Padded(src, n), c) == Padded(Finish(src, c), k);
    JoinPadded(Finish(src, c), k);
  }

  // ---- the bytes ----

  lemma {:induction false} SameBlock(src: seq<string>, ins: Insert, also: Insert, p: nat, text: seq<string>)
    requires forall q: nat, content :: q <= |src| ==> ins(q, content) == also(q, content)
    requires ValidText(text) && NoMarker(text) && p + |SourceSide(text)| <= |src|
    ensures Block(src, ins, p, text) == Block(src, also, p, text)
    decreases |text|
  {
    if text != [] {
      assert BodyLine(text[0]);
      SameBlock(src, ins, also, if text[0][0] == '+' then p else p + 1, text[1..]);
    }
  }

  lemma {:induction false} SameSplice(src: seq<string>, ins: Insert, also: Insert, hunks: seq<Hunk>, from: nat)
    requires forall q: nat, content :: q <= |src| ==> ins(q, content) == also(q, content)
    requires PlainTexts(hunks) && Layout(|src|, EditsOf(hunks), from)
    ensures ExactSplice(src, ins, hunks, from) == ExactSplice(src, also, hunks, from)
    decreases |hunks|
  {
    if hunks != [] {
      PlainTail(hunks);
      ExactStep(src, ins, hunks, from);
      ExactStep(src, also, hunks, from);
      SameBlock(src, ins, also, hunks[0].startSrc - 1, hunks[0].text);
      SameSplice(src, ins, also, hunks[1..], hunks[0].startSrc - 1 + SrcLen(hunks[0]));
    }
  }

  /** For hunks that fit: every source line stays as it is, and every inserted line
      adapts to the lines read before it. */
  lemma {:induction false} PatchedExactly(src: seq<string>, hunks: seq<Hunk>, ins: Insert)
    requires Adapts(ins, src) && PlainTexts(hunks) && Layout(|src|, EditsOf(hunks), 0)
    ensures Patched(src, hunks) == ExactSplice(src, ins, hunks, 0)
  {
    forall q: nat, content | q <= |src| ensures ins(q, content) == Inserting(src)(q, content) {
      AdaptsOne(ins, src, q, content);
    }
    PatchedIsExactSplice(src, hunks);
    SameSplice(src, ins, Inserting(src), hunks, 0);
  }

  lemma {:induction false} PlainCons(h: Hunk, rest: seq<Hunk>)
    requires ValidText(h.text) && NoMarker(h.text) && PlainTexts(rest)
    ensures PlainTexts([h] + rest)
  {
  }

  lemma {:induction false} SettledPlain(hunks: seq<Hunk>, from: nat)
    ensures PlainTexts(Settled(hunks, from))
    decreases |hunks|
  {
    if hunks != [] {
      var h := Settle(hunks[0], from);
      SettledPlain(hunks[1..], Behind(h));
      PlainCons(h, Settled(hunks[1..], Behind(h)));
    }
  }

  lemma {:induction false} PatchedSettled(src: seq<string>, hunks: seq<Hunk>)
    ensures Patched(src, Settled(hunks, 0)) == Patched(src, hunks)
  {
    SettledRuns(src, Cursor(0, []), hunks);
  }

  /** For every file and every list of hunks, also with markers, out of order,
      overlapping or beyond the end: the bytes written are those of the settled hunks
      spliced into the file, which is as long as they need. */
  lemma {:induction false} PatchedAlways(src: seq<string>, hunks: seq<Hunk>, n: nat, ins: Insert)
    requires Adapts(ins, Padded(src, n))
    requires Needed(hunks, 0) <= |src| + n
    ensures Layout(|src| + n, EditsOf(Settled(hunks, 0)), 0)
    ensures Join(Patched(src, hunks)) == Join(ExactSplice(Padded(src, n), ins, Settled(hunks, 0), 0))
  {
    SettledPlain(hunks, 0);
    SettledFits(hunks, 0, |src| + n);
    PatchedSettled(Padded(src, n), hunks);
    PatchedExactly(Padded(src, n), Settled(hunks, 0), ins);
    PatchedPadded(src, n, hunks);
  }

  lemma {:induction false} LayoutCons(len: nat, h: Hunk, rest: seq<Hunk>, from: nat)
    requires from < h.startSrc && Layout(len, EditsOf(rest), h.startSrc - 1 + SrcLen(h))
    requires h.startSrc - 1 + SrcLen(h) <= len
    ensures Layout(len, EditsOf([h] + rest), from)
  {
    EditsStep([h] + rest);
    assert ([h] + rest)[1..] == rest;
  }

  /** The line behind the last one that settled hunks need. */
  function Needed(hunks: seq<Hunk>, from: nat): nat
    decreases |hunks|
  {
    if hunks == [] then from else Needed(hunks[1..], Behind(Settle(hunks[0], from)))
  }

  /** Settled hunks fit every file that is long enough. */
  lemma {:induction false} SettledFits(hunks: seq<Hunk>, from: nat, len: nat)
    requires Needed(hunks, from) <= len
    ensures from <= len && Layout(len, EditsOf(Settled(hunks, from)), from)
    decreases |hunks|
  {
    if hunks != [] {
      var h := Settle(hunks[0], from);
      var next := Behind(h);
      SettledFits(hunks[1..], next, len);
      LayoutCons(len, h, Settled(hunks[1..], next), from);
    }
  }
}
