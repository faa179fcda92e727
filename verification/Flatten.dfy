/**
 Flattening a tree of reStructuredText files: `toctree` and `include` directives
 are replaced by the files they name, at the heading level where they stand.

 `fuel` bounds the depth of inclusion; see `FlattenDepth`.
 */
module Flatten {
  import opened Strings
  import opened Wrappers
  import opened Headings
  import PathNames

  type Files = map<string, seq<string>>

  datatype Failure = MissingFile | BadInclude | LevelRange | TooDeep

  /** `found`: the global flag that the table of contents was placed. */
  datatype Result = Done(out: seq<string>, found: bool) | Stopped(why: Failure)

  // ---- directives ----

  predicate IsToctree(line: string) {
    ".. toctree::" <= Strip(line)
  }

  predicate IsInclude(line: string) {
    ".. include::" <= Strip(line)
  }

  /** The path after `.. include:: `. */
  function IncludePath(line: string): Option<string> {
    var t := Strip(line);
    if ".. include:: " <= t then Some(t[13..]) else None
  }

  /** The value of a `:caption: value` line. */
  function CaptionOf(line: string): Option<string> {
    var t := Strip(line);
    if ":caption: " <= t then Some(t[10..]) else None
  }

  /** The file an entry of a toctree names; none for the blank line that ends it. */
  function EntryOf(line: string): Option<string> {
    if Strip(line) == "" then None else Some(Strip(line) + ".rst")
  }

  /** What a line is to the loop over a file's lines. */
  datatype Line =
    | Heading(text: string, level: nat)
    | Plain(text: string)
    | TreeDirective
    | IncludeDirective(file: Option<string>)

  function LineOf(line: string): Line {
    if IsHeader(line) then Heading(StripRight(line), Level(line))
    else if IsToctree(line) then TreeDirective
    else if IsInclude(line) then IncludeDirective(IncludePath(line))
    else Plain(StripRight(line))
  }

  // ---- paths ----

  function Resolve(parent: string, name: string): string {
    var dir := PathNames.Head(parent);
    if name != "" && name[0] == '/' then name
    else if dir == "" || dir[|dir| - 1] == '/' then dir + name
    else dir + "/" + name
  }

  // ---- the text written around included files ----

  const CONTENTS := ["", ".. raw:: latex", "", "    \\tableofcontents", "    \\newpage", ""]

  function Contents(contents: seq<string>, found: bool): seq<string> {
    if found then [] else contents
  }

  function CaptionBlock(caption: Option<string>, level: nat): seq<string>
    requires caption.Some? ==> level < |MAIN|
  {
    match caption
    case None => []
    case Some(c) => ["", c, Repeat(MAIN[level], |c|), ""]
  }

  // ---- flattening ----

  /** What reading a file for a heading level gives. */
  datatype Loaded = Missing | Unfit | Text(lines: seq<string>)

  /** What is read, how a line is read in a file, among the options and among the
      entries of a toctree, and the text that places the table of contents. */
  datatype Input = Input(load: (string, nat) -> Loaded, line: string -> Line, caption: string -> Option<string>,
                         entry: string -> Option<string>, contents: seq<string>)

  /** Files are converted to the level where they are included. */
  function Reading(fs: Files): Input {
    Input((path: string, start: nat) =>
        if path !in fs then Missing
        else if Converted(fs[path], start).None? then Unfit
        else Text(Converted(fs[path], start).value),
      LineOf, CaptionOf, EntryOf, CONTENTS)
  }

  /** First blank line from `i` on, or the end. */
  function BlankFrom(input: Input, lines: seq<string>, i: nat): (n: nat)
    requires i <= |lines|
    ensures i <= n <= |lines|
    ensures n < |lines| ==> input.entry(lines[n]).None?
    decreases |lines| - i
  {
    if i == |lines| || input.entry(lines[i]).None? then i else BlankFrom(input, lines, i + 1)
  }

  /** The last caption option wins. */
  function Caption(input: Input, lines: seq<string>, i: nat, end: nat): Option<string>
    requires i <= end <= |lines|
    decreases end - i
  {
    if i == end then None else Later(input.caption(lines[i]), Caption(input, lines, i + 1, end))
  }

  function Later(a: Option<string>, b: Option<string>): Option<string> {
    if b.Some? then b else a
  }

  /** Lines still to come. */
  function Left(lines: seq<string>, i: nat): nat {
    if i < |lines| then |lines| - i else 0
  }

  function Prepend(a: seq<string>, r: Result): Result {
    match r
    case Done(out, found) => Done(a + out, found)
    case Stopped(_) => r
  }

  function Append(r: Result, b: seq<string>): Result {
    match r
    case Done(out, found) => Done(out + b, found)
    case Stopped(_) => r
  }

  function FlattenFile(input: Input, path: string, start: nat, found: bool, fuel: nat): Result
    decreases fuel, 0, 0
  {
    if fuel == 0 then Stopped(TooDeep)
    else match input.load(path, start)
      case Missing => Stopped(MissingFile)
      case Unfit => Stopped(LevelRange)
      case Text(lines) => FlattenLines(input, path, lines, 0, start, found, fuel - 1)
  }

  /** A file named in another one, then an empty line. */
  function Included(input: Input, path: string, name: string, level: nat, found: bool, fuel: nat): Result
    decreases fuel, 0, 1
  {
    Append(FlattenFile(input, Resolve(path, name), level, found, fuel), [""])
  }

  /** The lines from `i` on; `level` is that of the last heading. */
  function FlattenLines(input: Input, path: string, lines: seq<string>, i: nat, level: nat, found: bool,
                        fuel: nat): Result
    decreases fuel, 1, 4 * Left(lines, i)
  {
    if i >= |lines| then Done([], found)
    else
      var (part, next, inner) := OneLine(input, path, lines, i, level, found, fuel);
      if part.Stopped? then part
      else Prepend(part.out, FlattenLines(input, path, lines, next, inner, part.found, fuel))
  }

  /** What line `i` becomes, and where to go on at which level. */
  function OneLine(input: Input, path: string, lines: seq<string>, i: nat, level: nat, found: bool,
                   fuel: nat): (r: (Result, nat, nat))
    requires i < |lines|
    ensures r.1 > i
    decreases fuel, 1, 4 * Left(lines, i) - 1
  {
    match input.line(lines[i])
    case Heading(text, inner) => (Done([text], found), i + 1, inner)
    case Plain(text) => (Done([text], found), i + 1, level)
    case TreeDirective =>
      var (r, next) := Toctree(input, path, lines, i, level, found, fuel);
      (r, next, level)
    case IncludeDirective(file) =>
      if file.None? then (Stopped(BadInclude), i + 1, level)
      else (Included(input, path, file.value, level, found, fuel), i + 1, level)
  }

  /** The text before the entries of a toctree: the table of contents the first
      time, and the caption. */
  function Front(input: Input, caption: Option<string>, level: nat, found: bool): seq<string>
    requires caption.Some? ==> level < |MAIN|
  {
    Contents(input.contents, found) + CaptionBlock(caption, level)
  }

  /** Entries stand one level below a caption. */
  function Inner(caption: Option<string>, level: nat): nat {
    if caption.Some? then level + 1 else level
  }

  /** A toctree directive at line `i`, and the line after it. */
  function Toctree(input: Input, path: string, lines: seq<string>, i: nat, level: nat, found: bool,
                   fuel: nat): (r: (Result, nat))
    requires i < |lines|
    ensures r.1 > i
    decreases fuel, 1, 4 * Left(lines, i) - 2
  {
    var end := BlankFrom(input, lines, i + 1);
    var caption := Caption(input, lines, i + 1, end);
    if caption.Some? && level >= |MAIN| then (Stopped(LevelRange), end + 1)
    else
      var (r, next) := Entries(input, path, lines, end + 1, Inner(caption, level), true, fuel);
      (Prepend(Front(input, caption, level, found), r), next)
  }

  /** The entries of a toctree up to a blank line, each followed by an empty line. */
  function Entries(input: Input, path: string, lines: seq<string>, i: nat, level: nat, found: bool,
                   fuel: nat): (r: (Result, nat))
    ensures r.1 >= i
    decreases fuel, 1, 4 * Left(lines, i) + 1
  {
    if i >= |lines| || input.entry(lines[i]).None? then (Done([], found), i)
    else
      var part := Included(input, path, input.entry(lines[i]).value, level, found, fuel);
      if part.Stopped? then (part, i)
      else
        var (r, next) := Entries(input, path, lines, i + 1, level, part.found, fuel);
        (Prepend(part.out, r), next)
  }

  // ---- the script ----

  class Script {
    const fs: Files
    ghost const input: Input
    var tocFound: bool

    ghost predicate Valid() {
      input == Reading(fs)
    }

    constructor (fs: Files)
      ensures Valid() && this.fs == fs && !tocFound
    {
      this.fs := fs;
      input := Reading(fs);
      tocFound := false;
    }

    /** `flatten_files`: the file is read, converted and flattened line by line. */
    method FlattenFiles(path: string, start: nat, fuel: nat) returns (r: Result)
      requires Valid()
      modifies this
      ensures r == FlattenFile(input, path, start, old(tocFound), fuel)
      ensures r.Done? ==> tocFound == r.found
      decreases fuel, 0, 0
    {
      if fuel == 0 {
        return Stopped(TooDeep);
      }
      var loaded := Load(path, start);
      if loaded.Missing? {
        return Stopped(MissingFile);
      }
      if loaded.Unfit? {
        return Stopped(LevelRange);
      }
      r := FlattenAll(path, loaded.lines, start, fuel - 1);
    }

    method Load(path: string, start: nat) returns (r: Loaded)
      requires Valid()
      ensures r == input.load(path, start)
    {
      if path !in fs {
        return Missing;
      }
      var hierarchy := FileHeadingHierarchy(fs[path]);
      var converted := ConvertHierarchy(fs[path], hierarchy, start);
      return if converted.None? then Unfit else Text(converted.value);
    }

    method FlattenAll(path: string, lines: seq<string>, start: nat, fuel: nat) returns (r: Result)
      requires Valid()
      modifies this
      ensures r == FlattenLines(input, path, lines, 0, start, old(tocFound), fuel)
      ensures r.Done? ==> tocFound == r.found
      decreases fuel, 2, 0
    {
      var out: seq<string> := [];
      var i: nat, level := 0, start;
      ghost var whole := FlattenLines(input, path, lines, 0, start, tocFound, fuel);
      PrependNothing(whole);
      while i < |lines|
        invariant Prepend(out, FlattenLines(input, path, lines, i, level, tocFound, fuel)) == whole
        decreases |lines| - i
      {
        var part, next, inner := FlattenLine(path, lines, i, level, fuel);
        if part.Stopped? {
          return part;
        }
        PrependTwice(out, part.out, FlattenLines(input, path, lines, next, inner, part.found, fuel));
        out, i, level := out + part.out, next, inner;
      }
      assert out + [] == out;
      return Done(out, tocFound);
    }

    /** One pass of the loop. */
    method FlattenLine(path: string, lines: seq<string>, i: nat, level0: nat, fuel: nat)
      returns (part: Result, next: nat, level: nat)
      requires Valid() && i < |lines|
      modifies this
      ensures (part, next, level) == OneLine(input, path, lines, i, level0, old(tocFound), fuel)
      ensures part.Done? ==> tocFound == part.found
      decreases fuel, 1, 2
    {
      next, level := i + 1, level0;
      if IsHeader(lines[i]) {
        level := Level(lines[i]);
        part := Done([StripRight(lines[i])], tocFound);
      } else if IsToctree(lines[i]) {
        part, next := FlattenToctree(path, lines, i, level, fuel);
      } else if IsInclude(lines[i]) {
        var file := IncludePath(lines[i]);
        if file.None? {
          part := Stopped(BadInclude);
        } else {
          part := FlattenIncluded(path, file.value, level, fuel);
        }
      } else {
        part := Done([StripRight(lines[i])], tocFound);
      }
    }

    method FlattenIncluded(path: string, name: string, level: nat, fuel: nat) returns (r: Result)
      requires Valid()
      modifies this
      ensures r == Included(input, path, name, level, old(tocFound), fuel)
      ensures r.Done? ==> tocFound == r.found
      decreases fuel, 0, 1
    {
      r := FlattenFiles(Resolve(path, name), level, fuel);
      if r.Done? {
        r := Done(r.out + [""], r.found);
      }
    }

    /** The options of a toctree: the last caption, and the blank line after them. */
    method ToctreeOptions(lines: seq<string>, first: nat) returns (caption: Option<string>, i: nat)
      requires Valid() && first <= |lines|
      ensures i == BlankFrom(input, lines, first) && caption == Caption(input, lines, first, i)
    {
      i, caption := first, None;
      ghost var end := BlankFrom(input, lines, first);
      while i < |lines| && EntryOf(lines[i]).Some?
        invariant first <= i <= end && BlankFrom(input, lines, i) == end
        invariant Later(caption, Caption(input, lines, i, end)) == Caption(input, lines, first, end)
      {
        var option := CaptionOf(lines[i]);
        if option.Some? {
          caption := option;
        }
        i := i + 1;
      }
    }

    method FlattenToctree(path: string, lines: seq<string>, start: nat, level0: nat, fuel: nat)
      returns (r: Result, i: nat)
      requires Valid() && start < |lines|
      modifies this
      ensures (r, i) == Toctree(input, path, lines, start, level0, old(tocFound), fuel)
      ensures r.Done? ==> tocFound == r.found
      decreases fuel, 1, 1
    {
      var out, level := [], level0;
      if !tocFound {
        out := out + CONTENTS;
        tocFound := true;
      }
      var caption;
      caption, i := ToctreeOptions(lines, start + 1);
      i := i + 1;
      if caption.Some? {
        if level >= |MAIN| {
          return Stopped(LevelRange), i;
        }
        out := out + CaptionBlock(caption, level);
        level := level + 1;
      }
      assert out == Front(input, caption, level0, old(tocFound));
      r, i := FlattenEntries(path, lines, i, level, fuel);
      if r.Done? {
        r := Done(out + r.out, r.found);
      }
    }

    method FlattenEntries(path: string, lines: seq<string>, first: nat, level: nat, fuel: nat)
      returns (r: Result, i: nat)
      requires Valid()
      modifies this
      ensures (r, i) == Entries(input, path, lines, first, level, old(tocFound), fuel)
      ensures r.Done? ==> tocFound == r.found
      decreases fuel, 1, 0
    {
      var out: seq<string> := [];
      i := first;
      ghost var whole := Entries(input, path, lines, first, level, tocFound, fuel);
      ghost var rest := whole;
      PrependNothing(whole.0);
      while i < |lines| && EntryOf(lines[i]).Some?
        invariant rest == Entries(input, path, lines, i, level, tocFound, fuel)
        invariant Prepend(out, rest.0) == whole.0 && rest.1 == whole.1
        decreases |lines| - i
      {
        ghost var found := tocFound;
        r := FlattenIncluded(path, EntryOf(lines[i]).value, level, fuel);
        rest := EntriesStep(input, path, lines, i, level, found, fuel, r);
        if r.Stopped? {
          return;
        }
        PrependTwice(out, r.out, rest.0);
        out, i := out + r.out, i + 1;
      }
      EntriesDone(input, path, lines, i, level, tocFound, fuel);
      assert out + [] == out;
      r := Done(out, tocFound);
    }
  }

  lemma {:induction false} EntriesStep(input: Input, path: string, lines: seq<string>, i: nat, level: nat,
                                       found: bool, fuel: nat, part: Result) returns (rest: (Result, nat))
    requires i < |lines| && input.entry(lines[i]).Some?
    requires part == Included(input, path, input.entry(lines[i]).value, level, found, fuel)
    ensures part.Stopped? ==> Entries(input, path, lines, i, level, found, fuel) == (part, i)
    ensures part.Done? ==> rest == Entries(input, path, lines, i + 1, level, part.found, fuel)
    ensures part.Done? ==>
      Entries(input, path, lines, i, level, found, fuel) == (Prepend(part.out, rest.0), rest.1)
  {
    if part.Done? {
      rest := Entries(input, path, lines, i + 1, level, part.found, fuel);
    } else {
      rest := (part, i);
    }
  }

  lemma {:induction false} EntriesDone(input: Input, path: string, lines: seq<string>, i: nat, level: nat,
                                       found: bool, fuel: nat)
    requires i >= |lines| || input.entry(lines[i]).None?
    ensures Entries(input, path, lines, i, level, found, fuel) == (Done([], found), i)
  {
  }

  lemma {:induction false} PrependNothing(r: Result)
    ensures Prepend([], r) == r
  {
    if r.Done? {
      assert [] + r.out == r.out;
    }
  }

  lemma {:induction false} PrependTwice(a: seq<string>, b: seq<string>, r: Result)
    ensures Prepend(a, Prepend(b, r)) == Prepend(a + b, r)
  {
    if r.Done? {
      assert a + (b + r.out) == a + b + r.out;
    }
  }

  // ---- the outline is kept ----

  /** `deep` says of a line whether it is at a level or deeper. */
  ghost predicate Deep(deep: (string, nat) -> bool, out: seq<string>, start: nat) {
    forall i :: 0 <= i < |out| ==> deep(out[i], start)
  }

  ghost predicate DeepResult(deep: (string, nat) -> bool, r: Result, start: nat) {
    r.Done? ==> Deep(deep, r.out, start)
  }

  /** What a line of a file becomes by itself is deep, and so is its caption option. */
  ghost predicate PreparedLine(input: Input, deep: (string, nat) -> bool, line: string, start: nat) {
    && (input.caption(line).Some? ==> deep(input.caption(line).value, start))
    && (input.line(line).Plain? ==> deep(input.line(line).text, start))
    && (input.line(line).Heading? ==> deep(input.line(line).text, start) && input.line(line).level >= start)
  }

  ghost predicate Prepared(input: Input, deep: (string, nat) -> bool, lines: seq<string>, start: nat) {
    forall k :: 0 <= k < |lines| ==> PreparedLine(input, deep, lines[k], start)
  }

  /** Whatever is read is prepared for the level it is read at. */
  ghost predicate FilesPrepared(input: Input, deep: (string, nat) -> bool) {
    forall path, start: nat :: input.load(path, start).Text? ==>
      Prepared(input, deep, input.load(path, start).lines, start)
  }

  /** The text around included files is deep. */
  ghost predicate AroundDeep(contents: seq<string>, deep: (string, nat) -> bool) {
    && (forall start: nat :: Deep(deep, contents, start))
    && (forall start: nat :: deep("", start))
    && (forall level: nat, n: nat, start: nat :: start <= level < |MAIN| ==> deep(Repeat(MAIN[level], n), start))
  }

  ghost predicate DeeperIsDeep(deep: (string, nat) -> bool) {
    forall line, start: nat, inner: nat {:trigger deep(line, start), deep(line, inner)} ::
      start <= inner && deep(line, inner) ==> deep(line, start)
  }

  ghost predicate Sound(input: Input, deep: (string, nat) -> bool) {
    FilesPrepared(input, deep) && AroundDeep(input.contents, deep) && DeeperIsDeep(deep)
  }

  lemma {:induction false} DeepAppend(deep: (string, nat) -> bool, a: seq<string>, b: seq<string>, start: nat)
    requires Deep(deep, a, start) && Deep(deep, b, start)
    ensures Deep(deep, a + b, start)
  {
  }

  lemma {:induction false} DeeperStill(input: Input, deep: (string, nat) -> bool, out: seq<string>, start: nat,
                                       inner: nat)
    requires Sound(input, deep) && start <= inner && Deep(deep, out, inner)
    ensures Deep(deep, out, start)
  {
  }

  lemma {:induction false} CaptionDeep(input: Input, deep: (string, nat) -> bool, caption: Option<string>,
                                       level: nat, start: nat)
    requires Sound(input, deep) && start <= level
    requires caption.Some? ==> level < |MAIN| && deep(caption.value, start)
    ensures Deep(deep, CaptionBlock(caption, level), start)
  {
  }

  lemma {:induction false} FrontDeep(input: Input, deep: (string, nat) -> bool, found: bool,
                                     caption: Option<string>, level: nat, start: nat)
    requires Sound(input, deep) && start <= level
    requires caption.Some? ==> level < |MAIN| && deep(caption.value, start)
    ensures Deep(deep, Front(input, caption, level, found), start)
  {
    CaptionDeep(input, deep, caption, level, start);
    DeepAppend(deep, Contents(input.contents, found), CaptionBlock(caption, level), start);
  }

  lemma {:induction false} CaptionFound(input: Input, deep: (string, nat) -> bool, lines: seq<string>, i: nat,
                                        end: nat, start: nat)
    requires Prepared(input, deep, lines, start) && i <= end <= |lines|
    ensures Caption(input, lines, i, end).Some? ==> deep(Caption(input, lines, i, end).value, start)
    decreases end - i
  {
    if i < end {
      CaptionFound(input, deep, lines, i + 1, end, start);
      assert PreparedLine(input, deep, lines[i], start);
    }
  }

  lemma {:induction false} PrependDeep(deep: (string, nat) -> bool, a: seq<string>, r: Result, start: nat)
    requires Deep(deep, a, start) && DeepResult(deep, r, start)
    ensures DeepResult(deep, Prepend(a, r), start)
  {
    if r.Done? {
      DeepAppend(deep, a, r.out, start);
    }
  }

  lemma {:induction false} FileDeep(input: Input, deep: (string, nat) -> bool, path: string, start: nat,
                                    found: bool, fuel: nat)
    requires Sound(input, deep)
    ensures DeepResult(deep, FlattenFile(input, path, start, found, fuel), start)
    decreases fuel, 0, 0
  {
    if fuel > 0 && input.load(path, start).Text? {
      LinesDeep(input, deep, path, input.load(path, start).lines, 0, start, start, found, fuel - 1);
    }
  }

  lemma {:induction false} IncludedDeep(input: Input, deep: (string, nat) -> bool, path: string, name: string,
                                        start: nat, level: nat, found: bool, fuel: nat)
    requires Sound(input, deep) && start <= level
    ensures DeepResult(deep, Included(input, path, name, level, found, fuel), start)
    decreases fuel, 0, 1
  {
    FileDeep(input, deep, Resolve(path, name), level, found, fuel);
    var r := FlattenFile(input, Resolve(path, name), level, found, fuel);
    if r.Done? {
      DeeperStill(input, deep, r.out, start, level);
      DeepAppend(deep, r.out, [""], start);
    }
  }

  lemma {:induction false} LinesDeep(input: Input, deep: (string, nat) -> bool, path: string, lines: seq<string>,
                                     i: nat, start: nat, level: nat, found: bool, fuel: nat)
    requires Sound(input, deep) && Prepared(input, deep, lines, start) && start <= level
    ensures DeepResult(deep, FlattenLines(input, path, lines, i, level, found, fuel), start)
    decreases fuel, 1, 4 * Left(lines, i)
  {
    if i < |lines| {
      OneLineDeep(input, deep, path, lines, i, start, level, found, fuel);
      var (part, next, inner) := OneLine(input, path, lines, i, level, found, fuel);
      if part.Done? {
        LinesDeep(input, deep, path, lines, next, start, inner, part.found, fuel);
        PrependDeep(deep, part.out, FlattenLines(input, path, lines, next, inner, part.found, fuel), start);
      }
    }
  }

  lemma {:induction false} OneLineDeep(input: Input, deep: (string, nat) -> bool, path: string, lines: seq<string>,
                                       i: nat, start: nat, level: nat, found: bool, fuel: nat)
    requires Sound(input, deep) && Prepared(input, deep, lines, start) && start <= level && i < |lines|
    ensures DeepResult(deep, OneLine(input, path, lines, i, level, found, fuel).0, start)
    ensures OneLine(input, path, lines, i, level, found, fuel).2 >= start
    decreases fuel, 1, 4 * Left(lines, i) - 1
  {
    assert PreparedLine(input, deep, lines[i], start);
    match input.line(lines[i])
    case Heading(_, _) =>
    case Plain(_) =>
    case TreeDirective => ToctreeDeep(input, deep, path, lines, i, start, level, found, fuel);
    case IncludeDirective(file) =>
      if file.Some? {
        IncludedDeep(input, deep, path, file.value, start, level, found, fuel);
      }
  }

  lemma {:induction false} ToctreeDeep(input: Input, deep: (string, nat) -> bool, path: string, lines: seq<string>,
                                       i: nat, start: nat, level: nat, found: bool, fuel: nat)
    requires Sound(input, deep) && Prepared(input, deep, lines, start) && start <= level && i < |lines|
    ensures DeepResult(deep, Toctree(input, path, lines, i, level, found, fuel).0, start)
    decreases fuel, 1, 4 * Left(lines, i) - 2
  {
    var end := BlankFrom(input, lines, i + 1);
    var caption := Caption(input, lines, i + 1, end);
    if caption.None? || level < |MAIN| {
      CaptionFound(input, deep, lines, i + 1, end, start);
      FrontDeep(input, deep, found, caption, level, start);
      EntriesDeep(input, deep, path, lines, end + 1, start, Inner(caption, level), true, fuel);
      PrependDeep(deep, Front(input, caption, level, found),
        Entries(input, path, lines, end + 1, Inner(caption, level), true, fuel).0, start);
    }
  }

  lemma {:induction false} EntriesDeep(input: Input, deep: (string, nat) -> bool, path: string, lines: seq<string>,
                                       i: nat, start: nat, level: nat, found: bool, fuel: nat)
    requires Sound(input, deep) && start <= level
    ensures DeepResult(deep, Entries(input, path, lines, i, level, found, fuel).0, start)
    decreases fuel, 1, 4 * Left(lines, i) + 1
  {
    if i < |lines| && input.entry(lines[i]).Some? {
      var name := input.entry(lines[i]).value;
      IncludedDeep(input, deep, path, name, start, level, found, fuel);
      var part := Included(input, path, name, level, found, fuel);
      if part.Done? {
        EntriesDeep(input, deep, path, lines, i + 1, start, level, part.found, fuel);
        PrependDeep(deep, part.out, Entries(input, path, lines, i + 1, level, part.found, fuel).0, start);
      }
    }
  }

  // ---- what the script reads is sound ----

  /** The caption option of some line of some file. */
  ghost predicate IsCaption(fs: Files, text: string) {
    exists path, k: nat :: path in fs && k < |fs[path]| && CaptionOf(fs[path][k]) == Some(text)
  }

  /** A heading is at level `start` or deeper, unless a caption reads like it. */
  ghost predicate DeepLine(fs: Files, line: string, start: nat) {
    IsHeader(line) ==> Level(line) >= start || IsCaption(fs, line)
  }

  ghost function DeepIn(fs: Files): (string, nat) -> bool {
    (line: string, start: nat) => DeepLine(fs, line, start)
  }

  lemma {:induction false} ConvertedCaption(line: string, local: seq<char>, start: nat)
    requires ConvertLine(line, local, start).Some?
    ensures CaptionOf(ConvertLine(line, local, start).value).Some? ==>
      CaptionOf(ConvertLine(line, local, start).value) == CaptionOf(line)
  {
    var l := ConvertLine(line, local, start).value;
    ConvertLineMeans(line, local, start);
    StripSpaceFirst(line);
    if IsHeader(line) {
      HeaderIsNoCaption(l);
    }
  }

  lemma {:induction false} StripSpaceFirst(line: string)
    ensures Strip(StripRight(line)) == Strip(line)
  {
    StripEitherWay(StripRight(line));
    StripEitherWay(line);
    StripRightFacts(line);
  }

  lemma {:induction false} HeaderIsNoCaption(l: string)
    requires IsHeader(l)
    ensures CaptionOf(l).None?
  {
    StripKeepsHeader(l);
    MainChars(l[0]);
    assert Strip(l)[0] == l[0];
  }

  lemma {:induction false} StrippedDeep(fs: Files, line: string, start: nat)
    requires IsHeader(line) ==> Level(line) >= start
    ensures DeepLine(fs, StripRight(line), start)
  {
    StripKeepsHeader(line);
  }

  lemma {:induction false} UnderlineDeep(fs: Files, level: nat, n: nat, start: nat)
    requires start <= level < |MAIN|
    ensures DeepLine(fs, Repeat(MAIN[level], n), start)
  {
    var l := Repeat(MAIN[level], n);
    if IsHeader(l) {
      LevelOf(l, level);
    }
  }

  lemma {:induction false} ConvertedLine(line: string, local: seq<char>, start: nat)
    requires ConvertLine(line, local, start).Some? && IsHeader(ConvertLine(line, local, start).value)
    ensures Level(ConvertLine(line, local, start).value) >= start
  {
    ConvertLineMeans(line, local, start);
    LevelOf(ConvertLine(line, local, start).value, start + IndexOf(line[0], local));
  }

  lemma {:induction false} LinePrepared(fs: Files, line: string, start: nat)
    requires IsHeader(line) ==> Level(line) >= start
    requires CaptionOf(line).Some? ==> IsCaption(fs, CaptionOf(line).value)
    ensures PreparedLine(Reading(fs), DeepIn(fs), line, start)
  {
    StrippedDeep(fs, line, start);
  }

  lemma {:induction false} ConvertedPrepared(fs: Files, path: string, start: nat)
    requires path in fs && Converted(fs[path], start).Some?
    ensures Prepared(Reading(fs), DeepIn(fs), Converted(fs[path], start).value, start)
  {
    var raw, h, lines := fs[path], Hierarchy(fs[path]), Converted(fs[path], start).value;
    ConvertAllMeans(raw, h, start);
    forall k | 0 <= k < |lines|
      ensures PreparedLine(Reading(fs), DeepIn(fs), lines[k], start)
    {
      ConvertedCaption(raw[k], h, start);
      if IsHeader(lines[k]) {
        ConvertedLine(raw[k], h, start);
      }
      LinePrepared(fs, lines[k], start);
    }
  }

  lemma {:induction false} ReadingPrepared(fs: Files)
    ensures FilesPrepared(Reading(fs), DeepIn(fs))
  {
    var input := Reading(fs);
    forall path, start: nat | input.load(path, start).Text?
      ensures Prepared(input, DeepIn(fs), input.load(path, start).lines, start)
    {
      ConvertedPrepared(fs, path, start);
    }
  }

  lemma {:induction false} ContentsPlain(k: nat)
    requires k < |CONTENTS|
    ensures !IsHeader(CONTENTS[k])
  {
    var l := CONTENTS[k];
    assert l == "" || l[0] == '.' || l[0] == ' ';
  }

  lemma {:induction false} PlainDeep(fs: Files, lines: seq<string>, start: nat)
    requires forall k :: 0 <= k < |lines| ==> !IsHeader(lines[k])
    ensures Deep(DeepIn(fs), lines, start)
  {
  }

  lemma {:induction false} ContentsAround(fs: Files)
    ensures AroundDeep(CONTENTS, DeepIn(fs))
  {
    forall start: nat
      ensures Deep(DeepIn(fs), CONTENTS, start)
    {
      forall k: nat | k < |CONTENTS| ensures !IsHeader(CONTENTS[k]) {
        ContentsPlain(k);
      }
      PlainDeep(fs, CONTENTS, start);
    }
    forall level: nat, n: nat, start: nat | start <= level < |MAIN|
      ensures DeepIn(fs)(Repeat(MAIN[level], n), start)
    {
      UnderlineDeep(fs, level, n, start);
    }
  }

  lemma {:induction false} DeeperIn(fs: Files)
    ensures DeeperIsDeep(DeepIn(fs))
  {
  }

  /** Over the whole tree of files, whatever it includes and however deep, every
      heading of the flattened text is at the level it was flattened at or deeper,
      or is the text of a caption. */
  lemma {:induction false} HeadingsDeep(fs: Files, path: string, start: nat, found: bool, fuel: nat, i: nat)
    requires FlattenFile(Reading(fs), path, start, found, fuel).Done?
    requires i < |FlattenFile(Reading(fs), path, start, found, fuel).out|
    ensures var l := FlattenFile(Reading(fs), path, start, found, fuel).out[i];
      IsHeader(l) ==> Level(l) >= start || IsCaption(fs, l)
  {
    ReadingPrepared(fs);
    ContentsAround(fs);
    DeeperIn(fs);
    FileDeep(Reading(fs), DeepIn(fs), path, start, found, fuel);
    DeepAt(fs, FlattenFile(Reading(fs), path, start, found, fuel).out, start, i);
  }

  lemma {:induction false} DeepAt(fs: Files, out: seq<string>, start: nat, i: nat)
    requires Deep(DeepIn(fs), out, start) && i < |out|
    ensures DeepLine(fs, out[i], start)
  {
  }

  /** No heading is shallower when no caption reads like a heading itself. */
  lemma {:induction false} NoHeadingShallower(fs: Files, path: string, start: nat, found: bool, fuel: nat, i: nat)
    requires FlattenFile(Reading(fs), path, start, found, fuel).Done?
    requires forall text :: IsCaption(fs, text) ==> !IsHeader(text)
    requires i < |FlattenFile(Reading(fs), path, start, found, fuel).out|
    requires IsHeader(FlattenFile(Reading(fs), path, start, found, fuel).out[i])
    ensures Level(FlattenFile(Reading(fs), path, start, found, fuel).out[i]) >= start
  {
    HeadingsDeep(fs, path, start, found, fuel, i);
  }

  // ---- the text is kept ----

  /** The line after a toctree's entries. */
  function EntriesEnd(input: Input, lines: seq<string>, i: nat): (n: nat)
    ensures n >= i
  {
    if i <= |lines| then BlankFrom(input, lines, i) else i
  }

  /** The line after what starts at line `i`. */
  function LineEnd(input: Input, lines: seq<string>, i: nat): (n: nat)
    requires i < |lines|
    ensures n > i
  {
    if input.line(lines[i]).TreeDirective? then EntriesEnd(input, lines, BlankFrom(input, lines, i + 1) + 1)
    else i + 1
  }

  /** A line that is no directive stays. */
  function Own(line: Line): seq<string> {
    if line.Heading? || line.Plain? then [line.text] else []
  }

  /** The lines of a file that are not part of a directive. */
  function OwnText(input: Input, lines: seq<string>, i: nat): seq<string>
    decreases |lines| - i
  {
    if i >= |lines| then [] else Own(input.line(lines[i])) + OwnText(input, lines, LineEnd(input, lines, i))
  }

  /** `a` is what is left of `b` when some lines are taken out. */
  predicate Within(a: seq<string>, b: seq<string>) {
    a == [] || (b != [] && (if a[0] == b[0] then Within(a[1..], b[1..]) else Within(a, b[1..])))
  }

  lemma {:induction false} WithinTail(a: seq<string>, b: seq<string>)
    requires a != [] && Within(a, b)
    ensures Within(a[1..], b)
    decreases |b|
  {
    if a[0] == b[0] {
      if |a| > 1 && a[1] != b[0] {
      } else if |a| > 1 {
        WithinTail(a[1..], b[1..]);
      }
    } else {
      WithinTail(a, b[1..]);
      if |a| > 1 && a[1] == b[0] {
        WithinTail(a[1..], b[1..]);
      }
    }
  }

  lemma {:induction false} WithinAfter(a: seq<string>, x: seq<string>, b: seq<string>)
    requires Within(a, b)
    ensures Within(a, x + b)
    decreases |x|
  {
    if x == [] {
      assert x + b == b;
    } else {
      assert (x + b)[1..] == x[1..] + b && (x + b)[0] == x[0];
      WithinAfter(a, x[1..], b);
      if a != [] && a[0] == x[0] {
        WithinTail(a, x[1..] + b);
      }
    }
  }

  lemma {:induction false} WithinCons(l: string, a: seq<string>, b: seq<string>)
    requires Within(a, b)
    ensures Within([l] + a, [l] + b)
  {
    assert ([l] + a)[1..] == a && ([l] + b)[1..] == b;
  }

  lemma {:induction false} EntriesStopAtBlank(input: Input, path: string, lines: seq<string>, i: nat, level: nat,
                                              found: bool, fuel: nat)
    ensures var (r, next) := Entries(input, path, lines, i, level, found, fuel);
      r.Done? ==> next == EntriesEnd(input, lines, i)
    decreases |lines| - i
  {
    if i < |lines| && input.entry(lines[i]).Some? {
      var part := Included(input, path, input.entry(lines[i]).value, level, found, fuel);
      if part.Done? {
        EntriesStopAtBlank(input, path, lines, i + 1, level, part.found, fuel);
      }
    }
  }

  lemma {:induction false} LineStops(input: Input, path: string, lines: seq<string>, i: nat, level: nat, found: bool,
                                     fuel: nat)
    requires i < |lines|
    ensures var (r, next, _) := OneLine(input, path, lines, i, level, found, fuel);
      r.Done? ==> next == LineEnd(input, lines, i)
  {
    var end := BlankFrom(input, lines, i + 1);
    var caption := Caption(input, lines, i + 1, end);
    EntriesStopAtBlank(input, path, lines, end + 1, Inner(caption, level), true, fuel);
  }

  /** Nothing of a file's own text is lost or reordered: its lines outside the
      directives, converted, appear in the flattened text in their order. */
  lemma {:induction false} OwnTextKept(input: Input, path: string, lines: seq<string>, i: nat, level: nat,
                                       found: bool, fuel: nat)
    requires FlattenLines(input, path, lines, i, level, found, fuel).Done?
    ensures Within(OwnText(input, lines, i), FlattenLines(input, path, lines, i, level, found, fuel).out)
    decreases |lines| - i
  {
    if i < |lines| {
      var (part, next, inner) := OneLine(input, path, lines, i, level, found, fuel);
      var rest := FlattenLines(input, path, lines, next, inner, part.found, fuel);
      LineStops(input, path, lines, i, level, found, fuel);
      OwnTextKept(input, path, lines, next, inner, part.found, fuel);
      OwnKept(input.line(lines[i]), OwnText(input, lines, next), part.out, rest.out);
    }
  }

  /** A line of its own is all its pass puts out, a directive leaves no text of its own. */
  lemma {:induction false} OwnKept(line: Line, own: seq<string>, out: seq<string>, rest: seq<string>)
    requires Within(own, rest)
    requires Own(line) != [] ==> out == Own(line)
    ensures Within(Own(line) + own, out + rest)
  {
    if Own(line) == [] {
      assert Own(line) + own == own;
      WithinAfter(own, out, rest);
    } else {
      WithinCons(line.text, own, rest);
    }
  }

  lemma {:induction false} LoadedTextKept(input: Input, path: string, start: nat, found: bool, fuel: nat)
    requires FlattenFile(input, path, start, found, fuel).Done?
    ensures input.load(path, start).Text?
    ensures Within(OwnText(input, input.load(path, start).lines, 0), FlattenFile(input, path, start, found, fuel).out)
  {
    OwnTextKept(input, path, input.load(path, start).lines, 0, start, found, fuel - 1);
  }

  lemma {:induction false} FileTextKept(fs: Files, path: string, start: nat, found: bool, fuel: nat)
    requires FlattenFile(Reading(fs), path, start, found, fuel).Done?
    ensures path in fs && Converted(fs[path], start).Some?
    ensures Within(OwnText(Reading(fs), Converted(fs[path], start).value, 0),
                   FlattenFile(Reading(fs), path, start, found, fuel).out)
  {
    LoadedTextKept(Reading(fs), path, start, found, fuel);
  }
}
