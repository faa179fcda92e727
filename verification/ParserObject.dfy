/** The parser as it runs: flags, buffers and counters updated line by line. */
module ParserObject {
  import opened Lines
  import opened Wrappers
  import opened Hunks
  import opened PatchLines
  import opened PatchParser
  import opened ParserFacts

  class PatchSet {
    var headscan: bool
    var filenames: bool
    var hunkhead: bool
    var hunkbody: bool
    var hunkskip: bool
    var hunkparsed: bool
    var items: seq<Patch>
    var p: Option<Patch>
    var hunk: Hunk
    var srcSeen: nat
    var tgtSeen: nat
    var header: seq<string>
    var srcname: Option<string>
    var tgtname: Option<string>
    var errors: nat

    ghost function Value(scanning: bool): State
      reads this
    {
      State(Flags(headscan, filenames, hunkhead, hunkbody, hunkskip, hunkparsed), scanning,
            items, p, hunk, srcSeen, tgtSeen, header, srcname, tgtname, errors)
    }

    constructor ()
      ensures Value(false) == INIT
    {
      headscan, filenames, hunkhead, hunkbody, hunkskip, hunkparsed := true, false, false, false, false, false;
      items, p, hunk, srcSeen, tgtSeen := [], None, NO_HUNK, 0, 0;
      header, srcname, tgtname, errors := [], None, None, 0;
    }

    method Append(h: Hunk)
      modifies this`p
      ensures p == AddHunk(old(p), h)
    {
      match p
      case None =>
      case Some(q) => p := Some(q.(hunks := q.hunks + [h]));
    }

    method DecideRegion(line: string)
      modifies this
      ensures Value(false) == Decide(old(Value(false)), line)
    {
      if hunkparsed {
        hunkparsed := false;
        if ParseHeader(line).Some? {
          hunkhead := true;
        } else if IsSource(line) {
          filenames := true;
        } else {
          headscan := true;
        }
      }
    }

    method SpoilHunk()
      modifies this
      ensures Value(false) == Spoil(old(Value(false)))
    {
      hunk := hunk.(invalid := true);
      Append(hunk);
      errors := errors + 1;
      hunkbody, hunkskip := false, true;
    }

    method CountBody(line: string)
      requires BodyLine(line)
      modifies this
      ensures Value(false) == CountLine(old(Value(false)), line)
    {
      if line[0] == '-' {
        srcSeen := srcSeen + 1;
      } else if line[0] == '+' {
        tgtSeen := tgtSeen + 1;
      } else if line[0] != '\\' {
        srcSeen := srcSeen + 1;
        tgtSeen := tgtSeen + 1;
      }
      hunk := hunk.(text := hunk.text + [line]);
    }

    method TakeBody(line: string)
      modifies this
      ensures Value(false) == Body(old(Value(false)), line)
    {
      if BodyLine(line) {
        CountBody(line);
      } else {
        SpoilHunk();
      }
      if srcSeen > hunk.linesSrc || tgtSeen > hunk.linesTgt {
        SpoilHunk();
      } else if hunk.linesSrc == srcSeen && hunk.linesTgt == tgtSeen {
        Append(hunk);
        hunkbody, hunkparsed := false, true;
      }
    }

    method TakeSkip(line: string)
      modifies this
      ensures Value(false) == Skip(old(Value(false)), line)
    {
      if hunkskip {
        if ParseHeader(line).Some? {
          hunkskip, hunkhead := false, true;
        } else if IsSource(line) {
          hunkskip, filenames := false, true;
        }
      }
    }

    method TakeSourceName(name: Option<string>)
      modifies this
      ensures Value(false) == SourceName(old(Value(false)), name)
    {
      srcname := None;
      if name.Some? {
        srcname := name;
      } else {
        errors := errors + 1;
        filenames, headscan := false, true;
      }
    }

    method TakeTargetName(name: Option<string>) returns (done: bool)
      modifies this
      ensures (Value(false), done) == TargetName(old(Value(false)), name)
    {
      done := false;
      if tgtname.Some? {
        errors := errors + 1;
        srcname, tgtname := None, None;
        filenames, headscan := false, true;
      } else if name.None? {
        errors := errors + 1;
        srcname := None;
        filenames, headscan := false, true;
      } else {
        OpenPatch(name.value);
        done := true;
      }
    }

    /** The patch before, if any, is complete, and the next one is opened. */
    method OpenPatch(name: string)
      requires tgtname.None?
      modifies this
      ensures (Value(false), true) == TargetName(old(Value(false)), Some(name))
    {
      if p.Some? {
        items := items + [p.value];
      }
      p := Some(Patch(srcname, name, header, []));
      srcname, header := None, [];
      filenames, hunkhead := false, true;
    }

    method TakeNoTarget()
      modifies this
      ensures Value(false) == NoTarget(old(Value(false)))
    {
      if srcname.Some? {
        errors := errors + 1;
        srcname := None;
      }
      filenames, headscan := false, true;
    }

    method TakeHunkHead(m: Option<Hunk>)
      modifies this
      ensures Value(false) == HunkHead(old(Value(false)), m)
    {
      match m {
        case None =>
          if NoHunks(p) {
            errors := errors + 1;
          }
          hunkhead, headscan := false, true;
        case Some(h) =>
          hunk := h;
          srcSeen, tgtSeen := 0, 0;
          hunkhead, hunkbody := false, true;
      }
    }

    method TakeNames(line: string) returns (done: bool)
      modifies this
      ensures (Value(false), done) == Names(old(Value(false)), line)
    {
      done := false;
      if IsSource(line) {
        TakeSourceName(FileName(line));
      } else if !IsTarget(line) {
        TakeNoTarget();
      } else {
        done := TakeTargetName(FileName(line));
      }
    }

    method TakeRegions(line0: string)
      modifies this
      ensures Value(false) == Region(old(Value(false)), line0)
    {
      var line := line0;
      if hunkbody {
        line := Expand(line);
        TakeBody(line);
        if hunkparsed {
          return;
        }
      }
      TakeSkip(line);
      if filenames {
        var done := TakeNames(line);
        if done {
          return;
        }
      }
      if hunkhead {
        TakeHunkHead(ParseHeader(line));
      }
    }

    /** The inner loop over header lines. */
    method ScanHeader(lines: seq<string>, i0: nat) returns (i: nat)
      requires i0 < |lines| && headscan && !hunkparsed
      modifies this
      ensures i0 <= i <= |lines| && headscan && !hunkparsed
      ensures i < |lines| ==> IsSource(lines[i])
      ensures Run(Value(i > i0), lines[i..]) == Run(old(Value(false)), lines[i0..])
    {
      i := i0;
      while i < |lines| && !IsSource(lines[i])
        invariant i0 <= i <= |lines| && headscan && !hunkparsed
        invariant Run(Value(i > i0), lines[i..]) == Run(old(Value(false)), lines[i0..])
      {
        assert lines[i..][0] == lines[i] && lines[i..][1..] == lines[i + 1..];
        header := header + [lines[i]];
        i := i + 1;
      }
    }

    /** What follows the last line; `scanning` when it was a header line. */
    method Conclude(scanning: bool) returns (ok: bool)
      modifies this
      ensures Result(ok, items, errors) == End(old(Value(scanning)))
    {
      if scanning && p.None? {
        errors := errors + 1;
      }
      if p.Some? {
        items := items + [p.value];
      }
      if !hunkparsed && !hunkskip {
        if headscan {
          if items == [] {
            return false;
          }
        } else {
          errors := errors + 1;
          if items == [] {
            return false;
          }
        }
      }
      return errors == 0;
    }

    /** What is left to do once line `i` is the one for the regions. */
    ghost function Remaining(lines: seq<string>, i: nat, scanning: bool): State
      requires i <= |lines|
      reads this
    {
      if i == |lines| then Value(scanning) else Run(Region(Value(false), lines[i]), lines[i + 1..])
    }

    /** The deciders and, in the header, the inner loop. */
    method Prepare(lines: seq<string>, i0: nat) returns (i: nat, scanning: bool)
      requires i0 < |lines|
      modifies this
      ensures i0 <= i <= |lines| && (scanning ==> i == |lines|)
      ensures Remaining(lines, i, scanning) == Run(old(Value(false)), lines[i0..])
    {
      i, scanning := i0, false;
      ghost var before := Value(false);
      DecideRegion(lines[i]);
      RunDecided(before, lines, i);
      if headscan {
        i := ScanHeader(lines, i);
        if i == |lines| {
          scanning := i > i0;
        } else {
          RunSource(Value(i > i0), lines, i);
          headscan, filenames := false, true;
        }
      }
    }

    /** The main loop and what follows it. */
    method Parse(lines: seq<string>) returns (ok: bool)
      requires Value(false) == INIT
      modifies this
      ensures Result(ok, items, errors) == PatchParser.Parse(lines)
    {
      var i: nat := 0;
      var scanning := false;
      while i < |lines|
        invariant 0 <= i <= |lines|
        invariant scanning ==> i == |lines|
        invariant Run(Value(scanning), lines[i..]) == Run(INIT, lines)
      {
        i, scanning := Prepare(lines, i);
        if i == |lines| {
          continue;
        }
        TakeRegions(lines[i]);
        i := i + 1;
      }
      ok := Conclude(scanning);
    }
  }

  lemma {:induction false} RunDecided(s: State, lines: seq<string>, i: nat)
    requires i < |lines|
    ensures var d := Decide(s, lines[i]);
      && !d.f.hunkparsed
      && (d.f.headscan ==> Run(d, lines[i..]) == Run(s, lines[i..]))
      && (!d.f.headscan ==> Run(s, lines[i..]) == Run(Region(d, lines[i]), lines[i + 1..]))
  {
    assert lines[i..][0] == lines[i] && lines[i..][1..] == lines[i + 1..];
  }

  lemma {:induction false} RunSource(s: State, lines: seq<string>, i: nat)
    requires i < |lines| && IsSource(lines[i]) && s.f.headscan && !s.f.hunkparsed
    ensures Run(s, lines[i..])
         == Run(Region(s.(scanning := false, f := s.f.(headscan := false, filenames := true)), lines[i]),
           lines[i + 1..])
  {
    assert lines[i..][0] == lines[i] && lines[i..][1..] == lines[i + 1..];
  }
}
