/** The streaming rewriter: a generator that copies the source and edits hunk by hunk. */
module Rewriter {
  import opened Lines
  import opened Edits
  import opened Hunks

  /** Where reading stands and what was yielded so far. */
  datatype Cursor = Cursor(pos: nat, out: seq<string>)

  /** How many lines of each terminator were read. */
  datatype Ends = Ends(lf: nat, crlf: nat, cr: nat)

  function Seen(ends: Ends, line: string): Ends {
    if line == "" then ends
    else if line[|line| - 1] == '\n' then
      if |line| > 1 && line[|line| - 2] == '\r' then ends.(crlf := ends.crlf + 1) else ends.(lf := ends.lf + 1)
    else if line[|line| - 1] == '\r' then ends.(cr := ends.cr + 1)
    else ends
  }

  function EndsOf(lines: seq<string>): Ends {
    if lines == [] then Ends(0, 0, 0) else Seen(EndsOf(lines[..|lines| - 1]), lines[|lines| - 1])
  }

  /** The terminator to use, when all the lines read so far agree on one. */
  function Newline(ends: Ends): (r: (bool, string)) {
    if ends.lf != 0 && ends.crlf == 0 && ends.cr == 0 then (true, "\n")
    else if ends.lf == 0 && ends.crlf != 0 && ends.cr == 0 then (true, "\r\n")
    else if ends.lf == 0 && ends.crlf == 0 && ends.cr != 0 then (true, "\r")
    else (false, "")
  }

  /** `readline()`: empty at the end of the file. */
  function Fetch(src: seq<string>, pos: nat): string {
    if pos < |src| then src[pos] else ""
  }

  function Read(src: seq<string>, pos: nat): seq<string> {
    if pos <= |src| then src[..pos] else src
  }

  /** A patch line with the terminator of the lines read, if they agree on one. */
  function Rewritten(ends: Ends, content: string): string {
    var nl := Newline(ends);
    if nl.0 then RStrip(content) + nl.1 else content
  }

  function Inserted(src: seq<string>, pos: nat, content: string): string {
    Rewritten(EndsOf(Read(src, pos)), content)
  }

  function SkipTo(src: seq<string>, c: Cursor, start: nat): Cursor
    decreases start - c.pos
  {
    if c.pos + 1 < start then SkipTo(src, Cursor(c.pos + 1, c.out + [Fetch(src, c.pos)]), start) else c
  }

  function TextStep(src: seq<string>, c: Cursor, hline: string): Cursor {
    if hline != "" && (hline[0] == '-' || hline[0] == '\\') then c.(pos := c.pos + 1)
    else if hline != "" && hline[0] == '+' then c.(out := c.out + [Inserted(src, c.pos, hline[1..])])
    else Cursor(c.pos + 1, c.out + [Fetch(src, c.pos)])
  }

  function RunText(src: seq<string>, c: Cursor, text: seq<string>): Cursor
    decreases |text|
  {
    if text == [] then c else RunText(src, TextStep(src, c, text[0]), text[1..])
  }

  function RunHunks(src: seq<string>, c: Cursor, hunks: seq<Hunk>): Cursor
    decreases |hunks|
  {
    if hunks == [] then c
    else RunHunks(src, RunText(src, SkipTo(src, c, hunks[0].startSrc), hunks[0].text), hunks[1..])
  }

  function Finish(src: seq<string>, c: Cursor): seq<string> {
    if c.pos <= |src| then c.out + src[c.pos..] else c.out
  }

  /** The whole stream, for any source and any hunks. */
  function Patched(src: seq<string>, hunks: seq<Hunk>): seq<string> {
    Finish(src, RunHunks(src, Cursor(0, []), hunks))
  }

  /** The generator, with its read position and its line end counters. */
  method PatchStream(src: seq<string>, hunks: seq<Hunk>) returns (out: seq<string>)
    ensures out == Patched(src, hunks)
  {
    var pos: nat, ends := 0, Ends(0, 0, 0);
    out := [];
    for hno := 0 to |hunks|
      invariant ends == EndsOf(Read(src, pos))
      invariant RunHunks(src, Cursor(pos, out), hunks[hno..]) == RunHunks(src, Cursor(0, []), hunks)
    {
      var h := hunks[hno];
      ghost var skipped := SkipTo(src, Cursor(pos, out), h.startSrc);
      while pos + 1 < h.startSrc
        invariant ends == EndsOf(Read(src, pos))
        invariant SkipTo(src, Cursor(pos, out), h.startSrc) == skipped
      {
        out := out + [Fetch(src, pos)];
        pos, ends := GetLine(src, pos, ends);
      }
      pos, ends, out := WriteHunk(src, pos, ends, out, h.text);
      assert hunks[hno..][0] == h && hunks[hno..][1..] == hunks[hno + 1..];
    }
    if pos <= |src| {
      out := out + src[pos..];
    }
  }

  method WriteHunk(src: seq<string>, pos0: nat, ends0: Ends, out0: seq<string>, text: seq<string>)
    returns (pos: nat, ends: Ends, out: seq<string>)
    requires ends0 == EndsOf(Read(src, pos0))
    ensures ends == EndsOf(Read(src, pos))
    ensures Cursor(pos, out) == RunText(src, Cursor(pos0, out0), text)
  {
    pos, ends, out := pos0, ends0, out0;
    for i := 0 to |text|
      invariant ends == EndsOf(Read(src, pos))
      invariant RunText(src, Cursor(pos, out), text[i..]) == RunText(src, Cursor(pos0, out0), text)
    {
      var hline := text[i];
      assert text[i..][0] == hline && text[i..][1..] == text[i + 1..];
      if hline != "" && (hline[0] == '-' || hline[0] == '\\') {
        pos, ends := GetLine(src, pos, ends);
        continue;
      }
      if hline == "" || hline[0] != '+' {
        out := out + [Fetch(src, pos)];
        pos, ends := GetLine(src, pos, ends);
        continue;
      }
      var newline := Newline(ends);
      if newline.0 {
        out := out + [RStrip(hline[1..]) + newline.1];
      } else {
        out := out + [hline[1..]];
      }
    }
  }

  method GetLine(src: seq<string>, pos: nat, ends: Ends) returns (pos': nat, ends': Ends)
    requires ends == EndsOf(Read(src, pos))
    ensures pos' == pos + 1
    ensures ends' == EndsOf(Read(src, pos + 1))
  {
    pos', ends' := pos + 1, Seen(ends, Fetch(src, pos));
    if pos < |src| {
      assert src[..pos + 1][..pos] == src[..pos];
    } else {
      assert src[..|src|] == src;
    }
  }

  // ---- the stream is a splice ----

  /** What becomes of a patch line that is inserted when `p` lines were read. */
  type Insert = (nat, string) -> string

  function Inserting(src: seq<string>): Insert {
    (p: nat, content: string) => Inserted(src, p, content)
  }

  /** `ins` is how the rewriter inserts into `src`. */
  ghost predicate InsertsInto(ins: Insert, src: seq<string>) {
    forall p, content {:trigger ins(p, content)} :: ins(p, content) == Inserted(src, p, content)
  }

  /** Only the line end of an inserted line may change. */
  ghost predicate KeepsContent(ins: Insert) {
    forall p, content {:trigger ins(p, content)} :: RStrip(ins(p, content)) == RStrip(content)
  }

  lemma {:induction false} InsertingFacts(src: seq<string>)
    ensures InsertsInto(Inserting(src), src) && KeepsContent(Inserting(src))
  {
    forall p: nat, content ensures RStrip(Inserting(src)(p, content)) == RStrip(content) {
      InsertedBare(src, p, content);
    }
  }

  /** What a hunk yields, byte for byte, when its first source line is line `p`. */
  function Block(src: seq<string>, ins: Insert, p: nat, text: seq<string>): seq<string>
    decreases |text|
  {
    if text == [] then []
    else if text[0] != "" && (text[0][0] == '-' || text[0][0] == '\\') then Block(src, ins, p + 1, text[1..])
    else if text[0] != "" && text[0][0] == '+' then [ins(p, text[0][1..])] + Block(src, ins, p, text[1..])
    else [Fetch(src, p)] + Block(src, ins, p + 1, text[1..])
  }

  /** The lines up to and including those of `h`, when `from` lines are dealt with. */
  function Stretch(src: seq<string>, ins: Insert, from: nat, h: Hunk): seq<string>
    requires from < h.startSrc <= |src| + 1
  {
    src[from..h.startSrc - 1] + Block(src, ins, h.startSrc - 1, h.text)
  }

  /** Like `Splice`, keeping the bytes: gaps and context lines are source lines. */
  function ExactSplice(src: seq<string>, ins: Insert, hunks: seq<Hunk>, from: nat): seq<string>
    requires Layout(|src|, EditsOf(hunks), from)
    decreases |hunks|
  {
    if hunks == [] then src[from..]
    else
      EditsStep(hunks);
      Stretch(src, ins, from, hunks[0]) + ExactSplice(src, ins, hunks[1..], hunks[0].startSrc - 1 + SrcLen(hunks[0]))
  }

  lemma {:induction false} ExactStep(src: seq<string>, ins: Insert, hunks: seq<Hunk>, from: nat)
    requires hunks != [] && Layout(|src|, EditsOf(hunks), from)
    ensures var h, next := hunks[0], hunks[0].startSrc - 1 + SrcLen(hunks[0]);
      && from < h.startSrc <= |src| + 1 && Layout(|src|, EditsOf(hunks[1..]), next)
      && ExactSplice(src, ins, hunks, from) == Stretch(src, ins, from, h) + ExactSplice(src, ins, hunks[1..], next)
  {
    EditsStep(hunks);
  }

  lemma {:induction false} SkipCopies(src: seq<string>, c: Cursor, start: nat)
    requires c.pos < start <= |src| + 1
    ensures SkipTo(src, c, start) == Cursor(start - 1, c.out + src[c.pos..start - 1])
    decreases start - c.pos
  {
    if c.pos + 1 < start {
      SkipCopies(src, Cursor(c.pos + 1, c.out + [Fetch(src, c.pos)]), start);
      assert src[c.pos..start - 1] == [src[c.pos]] + src[c.pos + 1..start - 1];
    } else {
      assert c.out + src[c.pos..start - 1] == c.out;
    }
  }

  /** What one line of a text yields when `p` lines were read. */
  function Yielded(src: seq<string>, ins: Insert, p: nat, l: string): seq<string> {
    if l != "" && (l[0] == '-' || l[0] == '\\') then []
    else if l != "" && l[0] == '+' then [ins(p, l[1..])]
    else [Fetch(src, p)]
  }

  function ReadFor(l: string): nat {
    if l != "" && l[0] == '+' then 0 else 1
  }

  lemma {:induction false} StepYields(src: seq<string>, ins: Insert, c: Cursor, l: string)
    requires InsertsInto(ins, src)
    ensures TextStep(src, c, l) == Cursor(c.pos + ReadFor(l), c.out + Yielded(src, ins, c.pos, l))
  {
    assert c.out + [] == c.out;
  }

  lemma {:induction false} BlockStep(src: seq<string>, ins: Insert, p: nat, text: seq<string>)
    requires text != [] && NoMarker(text) && ValidText(text)
    ensures NoMarker(text[1..]) && ValidText(text[1..])
    ensures Block(src, ins, p, text) == Yielded(src, ins, p, text[0]) + Block(src, ins, p + ReadFor(text[0]), text[1..])
    ensures |SourceSide(text)| == ReadFor(text[0]) + |SourceSide(text[1..])|
  {
    assert BodyLine(text[0]);
  }

  lemma {:induction false} TextYieldsBlock(src: seq<string>, ins: Insert, c: Cursor, text: seq<string>)
    requires InsertsInto(ins, src) && NoMarker(text) && ValidText(text)
    ensures RunText(src, c, text) == Cursor(c.pos + |SourceSide(text)|, c.out + Block(src, ins, c.pos, text))
    decreases |text|
  {
    if text == [] {
      assert c.out + [] == c.out;
    } else {
      StepYields(src, ins, c, text[0]);
      BlockStep(src, ins, c.pos, text);
      var c1 := TextStep(src, c, text[0]);
      TextYieldsBlock(src, ins, c1, text[1..]);
      Assoc(c.out, Yielded(src, ins, c.pos, text[0]), Block(src, ins, c1.pos, text[1..]));
    }
  }

  /** The cursor after the first hunk. */
  function After(src: seq<string>, ins: Insert, c: Cursor, h: Hunk): Cursor
    requires c.pos < h.startSrc <= |src| + 1
  {
    Cursor(h.startSrc - 1 + SrcLen(h), c.out + Stretch(src, ins, c.pos, h))
  }

  lemma {:induction false} HunkYields(src: seq<string>, ins: Insert, c: Cursor, h: Hunk)
    requires InsertsInto(ins, src) && NoMarker(h.text) && ValidText(h.text)
    requires c.pos < h.startSrc <= |src| + 1
    ensures RunText(src, SkipTo(src, c, h.startSrc), h.text) == After(src, ins, c, h)
  {
    SkipCopies(src, c, h.startSrc);
    TextYieldsBlock(src, ins, SkipTo(src, c, h.startSrc), h.text);
    Assoc(c.out, src[c.pos..h.startSrc - 1], Block(src, ins, h.startSrc - 1, h.text));
  }

  /** The first hunk's lines come first; `rest` is what the others yield. */
  lemma {:induction false} RunFirst(src: seq<string>, ins: Insert, c: Cursor, hunks: seq<Hunk>, rest: seq<string>)
    requires InsertsInto(ins, src) && hunks != [] && PlainTexts(hunks)
    requires c.pos < hunks[0].startSrc <= |src| + 1
    requires var c1 := After(src, ins, c, hunks[0]); Finish(src, RunHunks(src, c1, hunks[1..])) == c1.out + rest
    ensures Finish(src, RunHunks(src, c, hunks)) == c.out + (Stretch(src, ins, c.pos, hunks[0]) + rest)
  {
    PlainTail(hunks);
    HunkYields(src, ins, c, hunks[0]);
    Assoc(c.out, Stretch(src, ins, c.pos, hunks[0]), rest);
  }

  lemma {:induction false} RunIsSplice(src: seq<string>, ins: Insert, c: Cursor, hunks: seq<Hunk>)
    requires InsertsInto(ins, src) && PlainTexts(hunks) && Layout(|src|, EditsOf(hunks), c.pos)
    ensures Finish(src, RunHunks(src, c, hunks)) == c.out + ExactSplice(src, ins, hunks, c.pos)
    decreases |hunks|
  {
    if hunks != [] {
      var c1 := After(src, ins, c, hunks[0]);
      ExactStep(src, ins, hunks, c.pos);
      PlainTail(hunks);
      RunIsSplice(src, ins, c1, hunks[1..]);
      RunFirst(src, ins, c, hunks, ExactSplice(src, ins, hunks[1..], c1.pos));
    }
  }

  /** For placed hunks that fit, the stream is the source with each source
      block replaced; every other line is the source's own, byte for byte. */
  lemma {:induction false} PatchedIsExactSplice(src: seq<string>, hunks: seq<Hunk>)
    requires PlainTexts(hunks) && Layout(|src|, EditsOf(hunks), 0)
    ensures Patched(src, hunks) == ExactSplice(src, Inserting(src), hunks, 0)
  {
    InsertingFacts(src);
    RunIsSplice(src, Inserting(src), Cursor(0, []), hunks);
  }

  lemma {:induction false} InsertedBare(src: seq<string>, p: nat, content: string)
    ensures RStrip(Inserted(src, p, content)) == RStrip(content)
  {
    var nl := Newline(EndsOf(Read(src, p)));
    if nl.0 {
      RStripEol(RStrip(content), nl.1);
      RStripIdempotent(content);
    }
  }

  lemma {:induction false} StandsTail(src: seq<string>, p: nat, block: seq<string>)
    requires block != [] && StandsAt(src, p, block)
    ensures RStrip(src[p]) == block[0]
    ensures StandsAt(src, p + 1, block[1..])
  {
    var bare := Bare(src);
    assert bare[p..p + |block|][0] == bare[p];
    assert bare[p + 1..p + |block|] == bare[p..p + |block|][1..];
  }

  /** Where the source side stands, the block is the target side. */
  lemma {:induction false} BlockIsTarget(src: seq<string>, ins: Insert, p: nat, text: seq<string>)
    requires KeepsContent(ins) && ValidText(text) && NoMarker(text)
    requires StandsAt(src, p, SourceSide(text))
    ensures Bare(Block(src, ins, p, text)) == TargetSide(text)
    decreases |text|
  {
    if text != [] {
      var l, rest := text[0], text[1..];
      assert BodyLine(l);
      if l[0] == '+' {
        BlockIsTarget(src, ins, p, rest);
        BareConcat([ins(p, l[1..])], Block(src, ins, p, rest));
      } else {
        var s := SourceSide(text);
        assert s[1..] == SourceSide(rest);
        StandsTail(src, p, s);
        BlockIsTarget(src, ins, p + 1, rest);
        if l[0] == ' ' {
          BareConcat([src[p]], Block(src, ins, p + 1, rest));
        }
      }
    }
  }

  /** The parts of the source, with what the hunks write in place of their blocks. */
  function ExactParts(src: seq<string>, ins: Insert, hunks: seq<Hunk>, from: nat): seq<Part<string>>
    requires Layout(|src|, EditsOf(hunks), from)
    decreases |hunks|
  {
    if hunks == [] then []
    else
      EditsStep(hunks);
      var p, next := hunks[0].startSrc - 1, hunks[0].startSrc - 1 + SrcLen(hunks[0]);
      [Part(src[from..p], src[p..next], Block(src, ins, p, hunks[0].text))] + ExactParts(src, ins, hunks[1..], next)
  }

  lemma {:induction false} ExactIsParts(src: seq<string>, ins: Insert, hunks: seq<Hunk>, from: nat)
    requires Layout(|src|, EditsOf(hunks), from)
    ensures ExactSplice(src, ins, hunks, from)
         == Behind(ExactParts(src, ins, hunks, from), Tail(src, EditsOf(hunks), from))
    decreases |hunks|
  {
    if hunks != [] {
      ExactStep(src, ins, hunks, from);
      ExactIsParts(src, ins, hunks[1..], hunks[0].startSrc - 1 + SrcLen(hunks[0]));
      PartsStep(src, ins, hunks, from);
    }
  }

  lemma {:induction false} PartsStep(src: seq<string>, ins: Insert, hunks: seq<Hunk>, from: nat)
    requires hunks != [] && Layout(|src|, EditsOf(hunks), from)
    ensures var next, es := hunks[0].startSrc - 1 + SrcLen(hunks[0]), EditsOf(hunks[1..]);
      && from < hunks[0].startSrc <= |src| + 1 && Layout(|src|, es, next)
      && Behind(ExactParts(src, ins, hunks, from), Tail(src, EditsOf(hunks), from))
      == Stretch(src, ins, from, hunks[0]) + Behind(ExactParts(src, ins, hunks[1..], next), Tail(src, es, next))
  {
    EditsStep(hunks);
    BehindStep(ExactParts(src, ins, hunks, from), Tail(src, EditsOf(hunks), from));
  }

  function BareParts(ps: seq<Part<string>>): seq<Part<string>> {
    if ps == [] then [] else [Part(Bare(ps[0].gap), Bare(ps[0].old_), Bare(ps[0].new_))] + BareParts(ps[1..])
  }

  lemma {:induction false} BehindBare(ps: seq<Part<string>>, tail: seq<string>)
    ensures Bare(Behind(ps, tail)) == Behind(BareParts(ps), Bare(tail))
  {
    if ps != [] {
      BehindBare(ps[1..], tail);
      BareConcat(ps[0].new_, Behind(ps[1..], tail));
      BareConcat(ps[0].gap, ps[0].new_ + Behind(ps[1..], tail));
    }
  }

  lemma {:induction false} TailBare(src: seq<string>, es: seq<Edit<string>>, from: nat)
    requires Layout(|src|, es, from)
    ensures Bare(Tail(src, es, from)) == Tail(Bare(src), es, from)
    decreases |es|
  {
    if es == [] {
      BareSlice(src, from, |src|);
    } else {
      TailBare(src, es[1..], es[0].start - 1 + |es[0].old_|);
    }
  }

  /** Where every hunk matches, the parts are those of the splice, line ends aside. */
  lemma {:induction false} PartsBare(src: seq<string>, ins: Insert, hunks: seq<Hunk>, from: nat)
    requires KeepsContent(ins) && PlainTexts(hunks) && AllMatch(src, hunks) && Layout(|src|, EditsOf(hunks), from)
    ensures BareParts(ExactParts(src, ins, hunks, from)) == Parts(Bare(src), EditsOf(hunks), from)
    decreases |hunks|
  {
    if hunks != [] {
      var next := hunks[0].startSrc - 1 + SrcLen(hunks[0]);
      EditsStep(hunks);
      MatchTail(src, hunks);
      PartsBare(src, ins, hunks[1..], next);
      FirstBare(src, ins, hunks, from, next);
    }
  }

  lemma {:induction false} FirstBare(src: seq<string>, ins: Insert, hunks: seq<Hunk>, from: nat, next: nat)
    requires KeepsContent(ins) && hunks != [] && Layout(|src|, EditsOf(hunks), from)
    requires Matches(src, hunks[0]) && ValidText(hunks[0].text) && NoMarker(hunks[0].text)
    requires next == hunks[0].startSrc - 1 + SrcLen(hunks[0]) && Layout(|src|, EditsOf(hunks[1..]), next)
    requires BareParts(ExactParts(src, ins, hunks[1..], next)) == Parts(Bare(src), EditsOf(hunks[1..]), next)
    ensures BareParts(ExactParts(src, ins, hunks, from)) == Parts(Bare(src), EditsOf(hunks), from)
  {
    EditPartsStep(Bare(src), hunks, from);
    ExactPartsStep(src, ins, hunks, from);
  }

  lemma {:induction false} ExactPartsStep(src: seq<string>, ins: Insert, hunks: seq<Hunk>, from: nat)
    requires KeepsContent(ins) && hunks != [] && Layout(|src|, EditsOf(hunks), from)
    requires Matches(src, hunks[0]) && ValidText(hunks[0].text) && NoMarker(hunks[0].text)
    ensures var p, next := hunks[0].startSrc - 1, hunks[0].startSrc - 1 + SrcLen(hunks[0]);
      && from <= p <= |src| && Layout(|src|, EditsOf(hunks[1..]), next)
      && BareParts(ExactParts(src, ins, hunks, from))
      == [Part(Bare(src)[from..p], SourceSide(hunks[0].text), TargetSide(hunks[0].text))]
       + BareParts(ExactParts(src, ins, hunks[1..], next))
  {
    EditsStep(hunks);
    PartBare(src, ins, hunks[0], from);
  }

  lemma {:induction false} EditPartsStep(doc: seq<string>, hunks: seq<Hunk>, from: nat)
    requires hunks != [] && Layout(|doc|, EditsOf(hunks), from)
    ensures var p, next := hunks[0].startSrc - 1, hunks[0].startSrc - 1 + SrcLen(hunks[0]);
      && from <= p <= |doc| && Layout(|doc|, EditsOf(hunks[1..]), next)
      && Parts(doc, EditsOf(hunks), from)
      == [Part(doc[from..p], SourceSide(hunks[0].text), TargetSide(hunks[0].text))]
       + Parts(doc, EditsOf(hunks[1..]), next)
  {
    EditsStep(hunks);
  }

  lemma {:induction false} PartBare(src: seq<string>, ins: Insert, h: Hunk, from: nat)
    requires KeepsContent(ins) && Matches(src, h) && ValidText(h.text) && NoMarker(h.text) && from < h.startSrc
    ensures var p := h.startSrc - 1;
      && Bare(src[from..p]) == Bare(src)[from..p] && Bare(src[p..p + SrcLen(h)]) == SourceSide(h.text)
      && Bare(Block(src, ins, p, h.text)) == TargetSide(h.text)
  {
    var p := h.startSrc - 1;
    BareSlice(src, from, p);
    BareSlice(src, p, p + SrcLen(h));
    BlockIsTarget(src, ins, p, h.text);
  }

  lemma {:induction false} MatchTail(src: seq<string>, hunks: seq<Hunk>)
    requires hunks != [] && PlainTexts(hunks) && AllMatch(src, hunks)
    ensures PlainTexts(hunks[1..]) && AllMatch(src, hunks[1..])
    ensures Matches(src, hunks[0]) && ValidText(hunks[0].text) && NoMarker(hunks[0].text)
  {
  }

  /** The splice theorem: on a source every hunk matches, the stream, line ends
      aside, is the source with each source side replaced by the target side. */
  lemma {:induction false} PatchedIsSplice(src: seq<string>, hunks: seq<Hunk>)
    requires Placed(hunks) && PlainTexts(hunks) && AllMatch(src, hunks)
    ensures Layout(|src|, EditsOf(hunks), 0)
    ensures Bare(Patched(src, hunks)) == Splice(Bare(src), EditsOf(hunks), 0)
  {
    AllMatchApplies(src, hunks);
    OrderedLayout(Bare(src), EditsOf(hunks), 0);
    PatchedIsExactSplice(src, hunks);
    InsertingFacts(src);
    ExactBare(src, Inserting(src), hunks);
  }

  lemma {:induction false} ExactBare(src: seq<string>, ins: Insert, hunks: seq<Hunk>)
    requires KeepsContent(ins) && PlainTexts(hunks) && AllMatch(src, hunks) && Layout(|src|, EditsOf(hunks), 0)
    ensures Bare(ExactSplice(src, ins, hunks, 0)) == Splice(Bare(src), EditsOf(hunks), 0)
  {
    ExactIsParts(src, ins, hunks, 0);
    BehindBare(ExactParts(src, ins, hunks, 0), Tail(src, EditsOf(hunks), 0));
    PartsBare(src, ins, hunks, 0);
    TailBare(src, EditsOf(hunks), 0);
  }

  /** By how many lines the file grows, going by the hunks' headers. */
  function DeclaredGrowth(hunks: seq<Hunk>): int {
    if hunks == [] then 0 else hunks[0].linesTgt - hunks[0].linesSrc + DeclaredGrowth(hunks[1..])
  }

  lemma {:induction false} GrowthDeclared(hunks: seq<Hunk>)
    requires CountsAgree(hunks)
    ensures Growth(EditsOf(hunks)) == DeclaredGrowth(hunks)
  {
    if hunks != [] {
      EditsStep(hunks);
      assert CountsAgree(hunks[1..]);
      GrowthDeclared(hunks[1..]);
    }
  }

  /** The length law: the file grows as the hunks' headers declare. */
  lemma {:induction false} PatchedLength(src: seq<string>, hunks: seq<Hunk>)
    requires Placed(hunks) && PlainTexts(hunks) && AllMatch(src, hunks) && CountsAgree(hunks)
    ensures |Patched(src, hunks)| == |src| + DeclaredGrowth(hunks)
  {
    GrowthDeclared(hunks);
    PatchedIsSplice(src, hunks);
    SpliceLength(Bare(src), EditsOf(hunks), 0);
    assert |Bare(Patched(src, hunks))| == |Patched(src, hunks)|;
  }
}
