/** Hunks of a unified diff: the data, the two sides of the text, the placement. */
module Hunks {
  import opened Lines
  import opened Edits

  datatype Hunk = Hunk(startSrc: nat, linesSrc: nat, startTgt: nat, linesTgt: nat,
                       invalid: bool, desc: string, text: seq<string>)

  /** What the parser lets into a hunk's text. */
  predicate BodyLine(l: string) {
    l != "" && (l[0] == '-' || l[0] == ' ' || l[0] == '+' || l[0] == '\\')
  }

  predicate ValidText(text: seq<string>) {
    forall i :: 0 <= i < |text| ==> BodyLine(text[i])
  }

  predicate NoMarker(text: seq<string>) {
    forall i :: 0 <= i < |text| ==> text[i] != "" && text[i][0] != '\\'
  }

  /** The lines of one side: the context lines and the ones tagged `tag`,
      without the tag and the line end. */
  function Side(text: seq<string>, tag: char): seq<string> {
    if text == [] then []
    else (if text[0] != "" && (text[0][0] == ' ' || text[0][0] == tag)
          then [RStrip(text[0][1..])] else []) + Side(text[1..], tag)
  }

  function SourceSide(text: seq<string>): seq<string> {
    Side(text, '-')
  }

  function TargetSide(text: seq<string>): seq<string> {
    Side(text, '+')
  }

  lemma {:induction false} SideAppend(a: seq<string>, b: seq<string>, tag: char)
    ensures Side(a + b, tag) == Side(a, tag) + Side(b, tag)
  {
    if a == [] {
      assert a + b == b;
    } else {
      assert (a + b)[1..] == a[1..] + b;
      SideAppend(a[1..], b, tag);
    }
  }

  function SrcLen(h: Hunk): nat {
    |SourceSide(h.text)|
  }

  function TgtLen(h: Hunk): nat {
    |TargetSide(h.text)|
  }

  /** What a hunk means, line ends aside. */
  function EditOf(h: Hunk): Edit<string> {
    Edit(h.startSrc, h.startTgt, SourceSide(h.text), TargetSide(h.text))
  }

  function EditsOf(hunks: seq<Hunk>): (es: seq<Edit<string>>)
    ensures |es| == |hunks|
    ensures forall k {:trigger es[k]} {:trigger hunks[k]} :: 0 <= k < |hunks| ==> es[k] == EditOf(hunks[k])
  {
    seq(|hunks|, k requires 0 <= k < |hunks| => EditOf(hunks[k]))
  }

  lemma {:induction false} EditsStep(hunks: seq<Hunk>)
    requires hunks != []
    ensures EditsOf(hunks)[0] == EditOf(hunks[0]) && EditsOf(hunks)[1..] == EditsOf(hunks[1..])
  {
  }

  /** The ranges of the header count the lines of the text. */
  predicate CountsAgree(hunks: seq<Hunk>) {
    forall k :: 0 <= k < |hunks| ==> hunks[k].linesSrc == SrcLen(hunks[k]) && hunks[k].linesTgt == TgtLen(hunks[k])
  }

  predicate PlainTexts(hunks: seq<Hunk>) {
    forall k :: 0 <= k < |hunks| ==> ValidText(hunks[k].text) && NoMarker(hunks[k].text)
  }

  lemma {:induction false} PlainTail(hunks: seq<Hunk>)
    requires hunks != [] && PlainTexts(hunks)
    ensures PlainTexts(hunks[1..])
    ensures ValidText(hunks[0].text) && NoMarker(hunks[0].text)
  {
  }

  /** Ascending, non-overlapping source ranges from line 1 on. */
  predicate Placed(hunks: seq<Hunk>) {
    Ordered(EditsOf(hunks), 0)
  }

  /** Placed, and no hunk's source side is empty. */
  predicate WellPlaced(hunks: seq<Hunk>) {
    && Placed(hunks)
    && forall k :: 0 <= k < |hunks| ==> SrcLen(hunks[k]) >= 1
  }

  /** No hunk's target side is empty. */
  predicate TargetsNonEmpty(hunks: seq<Hunk>) {
    forall k :: 0 <= k < |hunks| ==> TgtLen(hunks[k]) >= 1
  }

  /** `block` is what the file holds from line `p` on (zero-based), line ends aside. */
  ghost predicate StandsAt(lines: seq<string>, p: nat, block: seq<string>) {
    BlockAt(Bare(lines), p, block)
  }

  /** The hunk's source side is what the file holds at its source start. */
  ghost predicate Matches(src: seq<string>, h: Hunk) {
    h.startSrc >= 1 && StandsAt(src, h.startSrc - 1, SourceSide(h.text))
  }

  ghost predicate AllMatch(src: seq<string>, hunks: seq<Hunk>) {
    forall k :: 0 <= k < |hunks| ==> Matches(src, hunks[k])
  }

  lemma {:induction false} AllMatchApplies(src: seq<string>, hunks: seq<Hunk>)
    ensures AllMatch(src, hunks) <==> Applies(Bare(src), EditsOf(hunks))
  {
    var es := EditsOf(hunks);
    if Applies(Bare(src), es) {
      forall k | 0 <= k < |hunks| ensures Matches(src, hunks[k]) {
        assert es[k] == EditOf(hunks[k]);
      }
    }
  }

  /** The target starts are the source starts moved by what earlier hunks add. */
  predicate TargetsConsistent(hunks: seq<Hunk>) {
    Consistent(EditsOf(hunks), 0)
  }
}
