/** The line parser of unified diffs: six state flags, header and name buffers, line counts. */
module PatchParser {
  import opened Wrappers
  import opened Hunks
  import opened PatchLines

  datatype Patch = Patch(source: Option<string>, target: string, header: seq<string>, hunks: seq<Hunk>)

  /** Which region the next line belongs to. */
  datatype Flags = Flags(headscan: bool, filenames: bool, hunkhead: bool, hunkbody: bool, hunkskip: bool,
    hunkparsed: bool)

  /** The parser between two lines; `scanning` means inside the header loop. */
  datatype State = State(
    f: Flags, scanning: bool,
    items: seq<Patch>, p: Option<Patch>,
    hunk: Hunk, srcSeen: nat, tgtSeen: nat,
    header: seq<string>, srcname: Option<string>, tgtname: Option<string>,
    errors: nat)

  datatype Result = Result(ok: bool, items: seq<Patch>, errors: nat)

  const NO_HUNK := Hunk(0, 0, 0, 0, false, "", [])

  const INIT := State(Flags(true, false, false, false, false, false), false, [], None, NO_HUNK, 0, 0, [], None, None, 0)

  function AddHunk(p: Option<Patch>, h: Hunk): Option<Patch> {
    match p
    case None => None
    case Some(q) => Some(q.(hunks := q.hunks + [h]))
  }

  predicate NoHunks(p: Option<Patch>) {
    p.Some? ==> p.value.hunks == []
  }

  /** After a complete hunk the next line decides the region. */
  function Decide(s: State, line: string): State {
    if !s.f.hunkparsed then s
    else
      var f := s.f.(hunkparsed := false);
      s.(f := if HunkStart(line) then f.(hunkhead := true)
              else if IsSource(line) then f.(filenames := true)
              else f.(headscan := true))
  }

  predicate IsBlank(line: string) {
    forall i :: 0 <= i < |line| ==> line[i] == '\r' || line[i] == '\n'
  }

  /** An empty line in a hunk stands for an empty context line. */
  function Expand(line: string): string {
    if IsBlank(line) then " " + line else line
  }

  function CountLine(s: State, line: string): State
    requires line != ""
  {
    s.(srcSeen := s.srcSeen + (if line[0] == '-' || line[0] == ' ' then 1 else 0),
       tgtSeen := s.tgtSeen + (if line[0] == '+' || line[0] == ' ' then 1 else 0),
       hunk := s.hunk.(text := s.hunk.text + [line]))
  }

  function Spoil(s: State): State {
    var bad := s.hunk.(invalid := true);
    s.(hunk := bad, p := AddHunk(s.p, bad), errors := s.errors + 1,
       f := s.f.(hunkbody := false, hunkskip := true))
  }

  function Body(s: State, line: string): State {
    var s := if BodyLine(line) then CountLine(s, line) else Spoil(s);
    if s.srcSeen > s.hunk.linesSrc || s.tgtSeen > s.hunk.linesTgt then Spoil(s)
    else if s.srcSeen == s.hunk.linesSrc && s.tgtSeen == s.hunk.linesTgt then
      s.(p := AddHunk(s.p, s.hunk), f := s.f.(hunkbody := false, hunkparsed := true))
    else s
  }

  function Skip(s: State, line: string): State {
    if !s.f.hunkskip then s
    else if HunkStart(line) then s.(f := s.f.(hunkskip := false, hunkhead := true))
    else if IsSource(line) then s.(f := s.f.(hunkskip := false, filenames := true))
    else s
  }

  function Rescan(s: State): State {
    s.(f := s.f.(filenames := false, headscan := true))
  }

  function Flush(s: State): seq<Patch> {
    if s.p.Some? then s.items + [s.p.value] else s.items
  }

  /** A `--- ` line; `name` is the name read from it, if any. */
  function SourceName(s: State, name: Option<string>): State {
    match name
    case Some(_) => s.(srcname := name)
    case None => Rescan(s.(srcname := None, errors := s.errors + 1))
  }

  /** A `+++ ` line, and whether it completes the names. */
  function TargetName(s: State, name: Option<string>): (State, bool) {
    if s.tgtname.Some? then (Rescan(s.(srcname := None, tgtname := None, errors := s.errors + 1)), false)
    else match name
      case None => (Rescan(s.(srcname := None, errors := s.errors + 1)), false)
      case Some(name) =>
        (s.(items := Flush(s), p := Some(Patch(s.srcname, name, s.header, [])),
            srcname := None, header := [],
            f := s.f.(filenames := false, hunkhead := true)), true)
  }

  function NoTarget(s: State): State {
    Rescan(s.(srcname := None, errors := s.errors + (if s.srcname.Some? then 1 else 0)))
  }

  /** A line in the names region. */
  function Names(s: State, line: string): (State, bool) {
    if IsSource(line) then (SourceName(s, FileName(line)), false)
    else if !IsTarget(line) then (NoTarget(s), false)
    else TargetName(s, FileName(line))
  }

  /** A line where a hunk header is expected; `header` is the one read from it. */
  function HunkHead(s: State, header: Option<Hunk>): State {
    match header
    case None =>
      s.(errors := s.errors + (if NoHunks(s.p) then 1 else 0), f := s.f.(hunkhead := false, headscan := true))
    case Some(h) =>
      s.(hunk := h, srcSeen := 0, tgtSeen := 0, f := s.f.(hunkhead := false, hunkbody := true))
  }

  function AfterBody(s: State, line: string): State {
    var s := Skip(s, line);
    var (s, done) := if s.f.filenames then Names(s, line) else (s, false);
    if !done && s.f.hunkhead then HunkHead(s, ParseHeader(line)) else s
  }

  function Region(s: State, line: string): State {
    if !s.f.hunkbody then AfterBody(s, line)
    else
      var line := Expand(line);
      var s := Body(s, line);
      if s.f.hunkparsed then s else AfterBody(s, line)
  }

  /** One line. */
  function Step(s: State, line: string): State {
    var s := Decide(s, line);
    if s.f.headscan && !IsSource(line) then s.(scanning := true, header := s.header + [line])
    else if s.f.headscan then Region(s.(scanning := false, f := s.f.(headscan := false, filenames := true)), line)
    else Region(s, line)
  }

  function Run(s: State, lines: seq<string>): State
    decreases |lines|
  {
    if lines == [] then s else Run(Step(s, lines[0]), lines[1..])
  }

  /** The end of the stream. */
  function End(s: State): Result {
    var errors := s.errors + (if s.scanning && s.p.None? then 1 else 0);
    var items := Flush(s);
    if s.f.hunkparsed || s.f.hunkskip then Result(errors == 0, items, errors)
    else if s.f.headscan then Result(errors == 0 && items != [], items, errors)
    else Result(false, items, errors + 1)
  }

  /** The whole parse, before types are detected and names normalised. */
  function Parse(lines: seq<string>): Result {
    End(Run(INIT, lines))
  }
}
