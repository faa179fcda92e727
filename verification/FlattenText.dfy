/** What the flattened text of a tree of files is, file by file. */
module FlattenText {
  import opened Wrappers
  import opened Headings
  import opened Flatten
  import opened FlattenDepth
  import Lines

  /** A line of a file, the empty line behind an included file, or the place of a toctree. */
  datatype Piece = Line(text: string) | Gap | Tree(caption: Option<string>, level: nat)

  datatype Expansion = Expanded(pieces: seq<Piece>) | Failed(why: Failure)

  function Chain(a: Expansion, b: Expansion): Expansion {
    if a.Failed? then a else if b.Failed? then b else Expanded(a.pieces + b.pieces)
  }

  /** The files named in the entries from line `i` on. */
  function EntryNames(input: Input, lines: seq<string>, i: nat): seq<string>
    decreases |lines| - i
  {
    if i >= |lines| || input.entry(lines[i]).None? then []
    else [input.entry(lines[i]).value] + EntryNames(input, lines, i + 1)
  }

  function FilePieces(input: Input, path: string, start: nat, fuel: nat): Expansion
    decreases fuel, 0, 0
  {
    if fuel == 0 then Failed(TooDeep)
    else match input.load(path, start)
      case Missing => Failed(MissingFile)
      case Unfit => Failed(LevelRange)
      case Text(lines) => LinePieces(input, path, lines, 0, start, fuel - 1)
  }

  /** Named files one after the other, an empty line behind each. */
  function NamedPieces(input: Input, path: string, names: seq<string>, level: nat, fuel: nat): Expansion
    decreases fuel, 0, 1 + |names|
  {
    if names == [] then Expanded([])
    else
      Chain(Chain(FilePieces(input, Resolve(path, names[0]), level, fuel), Expanded([Gap])),
            NamedPieces(input, path, names[1..], level, fuel))
  }

  /** The files a toctree names stand at its place, one level below its caption. */
  function TreePieces(input: Input, path: string, lines: seq<string>, i: nat, level: nat, fuel: nat): Expansion
    requires i < |lines|
    decreases fuel, 1, 0
  {
    var end := BlankFrom(input, lines, i + 1);
    var caption := Caption(input, lines, i + 1, end);
    if caption.None? then
      Chain(Expanded([Tree(None, level)]), NamedPieces(input, path, EntryNames(input, lines, end + 1), level, fuel))
    else if level >= |MAIN| then Failed(LevelRange)
    else
      Chain(Expanded([Tree(caption, level)]),
            NamedPieces(input, path, EntryNames(input, lines, end + 1), level + 1, fuel))
  }

  function OnePieces(input: Input, path: string, lines: seq<string>, i: nat, level: nat, fuel: nat): Expansion
    requires i < |lines|
    decreases fuel, 2, 0
  {
    match input.line(lines[i])
    case Heading(text, _) => Expanded([Line(text)])
    case Plain(text) => Expanded([Line(text)])
    case TreeDirective => TreePieces(input, path, lines, i, level, fuel)
    case IncludeDirective(file) =>
      if file.None? then Failed(BadInclude) else NamedPieces(input, path, [file.value], level, fuel)
  }

  /** A heading sets the level for what follows it. */
  function LevelAfter(line: Flatten.Line, level: nat): nat {
    if line.Heading? then line.level else level
  }

  /** The lines from `i` on. */
  function LinePieces(input: Input, path: string, lines: seq<string>, i: nat, level: nat, fuel: nat): Expansion
    decreases fuel, 3, Left(lines, i)
  {
    if i >= |lines| then Expanded([])
    else
      Chain(OnePieces(input, path, lines, i, level, fuel),
            LinePieces(input, path, lines, LineEnd(input, lines, i), LevelAfter(input.line(lines[i]), level), fuel))
  }

  // ---- writing pieces out ----

  /** The first toctree brings the table of contents, a caption its heading. */
  function Written(p: Piece, contents: seq<string>, found: bool): seq<string> {
    match p
    case Line(text) => [text]
    case Gap => [""]
    case Tree(caption, level) =>
      (if found then [] else contents)
      + (if caption.Some? && level < |MAIN| then ["", caption.value, Repeat(MAIN[level], |caption.value|), ""] else [])
  }

  predicate HasTree(ps: seq<Piece>) {
    exists i :: 0 <= i < |ps| && ps[i].Tree?
  }

  function WrittenAll(ps: seq<Piece>, contents: seq<string>, found: bool): seq<string> {
    if ps == [] then []
    else Written(ps[0], contents, found) + WrittenAll(ps[1..], contents, found || ps[0].Tree?)
  }

  function Outcome(e: Expansion, contents: seq<string>, found: bool): Result {
    match e
    case Expanded(ps) => Done(WrittenAll(ps, contents, found), found || HasTree(ps))
    case Failed(why) => Stopped(why)
  }

  lemma {:induction false} HasTreeAppend(a: seq<Piece>, b: seq<Piece>)
    ensures HasTree(a + b) <==> HasTree(a) || HasTree(b)
  {
    if HasTree(a) {
      var i :| 0 <= i < |a| && a[i].Tree?;
      assert (a + b)[i].Tree?;
    }
    if HasTree(b) {
      var i :| 0 <= i < |b| && b[i].Tree?;
      assert (a + b)[|a| + i].Tree?;
    }
  }

  lemma {:induction false} WrittenAppend(a: seq<Piece>, b: seq<Piece>, contents: seq<string>, found: bool)
    ensures WrittenAll(a + b, contents, found)
         == WrittenAll(a, contents, found) + WrittenAll(b, contents, found || HasTree(a))
    decreases |a|
  {
    if a == [] {
      assert a + b == b;
    } else {
      assert (a + b)[1..] == a[1..] + b;
      WrittenAppend(a[1..], b, contents, found || a[0].Tree?);
      assert a == [a[0]] + a[1..];
      HasTreeAppend([a[0]], a[1..]);
      assert HasTree([a[0]]) <==> a[0].Tree? by { assert [a[0]][0] == a[0]; }
      Lines.Assoc(Written(a[0], contents, found), WrittenAll(a[1..], contents, found || a[0].Tree?),
        WrittenAll(b, contents, found || HasTree(a)));
    }
  }

  lemma {:induction false} WrittenOne(p: Piece, contents: seq<string>, found: bool)
    ensures WrittenAll([p], contents, found) == Written(p, contents, found)
    ensures HasTree([p]) <==> p.Tree?
  {
    assert [p][1..] == [] && [p][0] == p;
    assert Written(p, contents, found) + [] == Written(p, contents, found);
  }

  /** Two expansions in a row, when the first one flattens to `r`. */
  lemma {:induction false} OutcomeChain(a: Expansion, b: Expansion, contents: seq<string>, found: bool)
    ensures var r := Outcome(a, contents, found);
      Outcome(Chain(a, b), contents, found)
      == if r.Stopped? then r else Prepend(r.out, Outcome(b, contents, r.found))
  {
    if a.Expanded? && b.Expanded? {
      WrittenAppend(a.pieces, b.pieces, contents, found);
      HasTreeAppend(a.pieces, b.pieces);
    }
  }

  // ---- flattening is expanding and writing ----

  lemma {:induction false} FileFlattens(input: Input, path: string, start: nat, found: bool, fuel: nat)
    ensures FlattenFile(input, path, start, found, fuel)
         == Outcome(FilePieces(input, path, start, fuel), input.contents, found)
    decreases fuel, 0, 0
  {
    if fuel > 0 && input.load(path, start).Text? {
      LinesFlatten(input, path, input.load(path, start).lines, 0, start, found, fuel - 1);
    }
  }

  /** One named file and the empty line behind it. */
  function OneNamed(input: Input, path: string, name: string, level: nat, fuel: nat): Expansion {
    Chain(FilePieces(input, Resolve(path, name), level, fuel), Expanded([Gap]))
  }

  lemma {:induction false} NamedFlattens(input: Input, path: string, name: string, level: nat, found: bool,
                                         fuel: nat)
    ensures Included(input, path, name, level, found, fuel)
         == Outcome(OneNamed(input, path, name, level, fuel), input.contents, found)
    decreases fuel, 0, 1
  {
    FileFlattens(input, Resolve(path, name), level, found, fuel);
    var file := FilePieces(input, Resolve(path, name), level, fuel);
    OutcomeChain(file, Expanded([Gap]), input.contents, found);
    if file.Expanded? {
      WrittenOne(Gap, input.contents, found || HasTree(file.pieces));
    }
  }

  lemma {:induction false} EntriesFlatten(input: Input, path: string, lines: seq<string>, i: nat, level: nat,
                                          found: bool, fuel: nat)
    ensures Entries(input, path, lines, i, level, found, fuel).0
         == Outcome(NamedPieces(input, path, EntryNames(input, lines, i), level, fuel), input.contents, found)
    decreases fuel, 1, 4 * Left(lines, i) + 1
  {
    if i < |lines| && input.entry(lines[i]).Some? {
      var name, names := input.entry(lines[i]).value, EntryNames(input, lines, i + 1);
      assert EntryNames(input, lines, i)[1..] == names;
      NamedFlattens(input, path, name, level, found, fuel);
      var part := Included(input, path, name, level, found, fuel);
      OutcomeChain(OneNamed(input, path, name, level, fuel), NamedPieces(input, path, names, level, fuel),
        input.contents, found);
      if part.Done? {
        EntriesFlatten(input, path, lines, i + 1, level, part.found, fuel);
      }
    }
  }

  lemma {:induction false} FrontWritten(input: Input, caption: Option<string>, level: nat, found: bool)
    requires caption.Some? ==> level < |MAIN|
    ensures Front(input, caption, level, found) == Written(Tree(caption, level), input.contents, found)
  {
  }

  lemma {:induction false} TreeFlattens(input: Input, path: string, lines: seq<string>, i: nat, level: nat,
                                        found: bool, fuel: nat)
    requires i < |lines|
    ensures Toctree(input, path, lines, i, level, found, fuel).0
         == Outcome(TreePieces(input, path, lines, i, level, fuel), input.contents, found)
    decreases fuel, 1, 4 * Left(lines, i) - 2
  {
    var end := BlankFrom(input, lines, i + 1);
    var caption := Caption(input, lines, i + 1, end);
    if caption.None? || level < |MAIN| {
      var named := NamedPieces(input, path, EntryNames(input, lines, end + 1), Inner(caption, level), fuel);
      EntriesFlatten(input, path, lines, end + 1, Inner(caption, level), true, fuel);
      FrontWritten(input, caption, level, found);
      WrittenOne(Tree(caption, level), input.contents, found);
      OutcomeChain(Expanded([Tree(caption, level)]), named, input.contents, found);
    }
  }

  lemma {:induction false} OneFlattens(input: Input, path: string, lines: seq<string>, i: nat, level: nat,
                                       found: bool, fuel: nat)
    requires i < |lines|
    ensures var (part, next, inner) := OneLine(input, path, lines, i, level, found, fuel);
      && part == Outcome(OnePieces(input, path, lines, i, level, fuel), input.contents, found)
      && inner == LevelAfter(input.line(lines[i]), level)
    decreases fuel, 1, 4 * Left(lines, i) - 1
  {
    match input.line(lines[i])
    case Heading(text, _) => WrittenOne(Line(text), input.contents, found);
    case Plain(text) => WrittenOne(Line(text), input.contents, found);
    case TreeDirective => TreeFlattens(input, path, lines, i, level, found, fuel);
    case IncludeDirective(file) =>
      if file.Some? {
        NamedFlattens(input, path, file.value, level, found, fuel);
        OnlyName(input, path, file.value, level, fuel);
      }
  }

  lemma {:induction false} OnlyName(input: Input, path: string, name: string, level: nat, fuel: nat)
    ensures NamedPieces(input, path, [name], level, fuel) == OneNamed(input, path, name, level, fuel)
  {
    var one := OneNamed(input, path, name, level, fuel);
    assert [name][1..] == [] && [name][0] == name;
    if one.Expanded? {
      assert one.pieces + [] == one.pieces;
    }
  }

  lemma {:induction false} LinesFlatten(input: Input, path: string, lines: seq<string>, i: nat, level: nat,
                                        found: bool, fuel: nat)
    ensures FlattenLines(input, path, lines, i, level, found, fuel)
         == Outcome(LinePieces(input, path, lines, i, level, fuel), input.contents, found)
    decreases fuel, 1, 4 * Left(lines, i)
  {
    if i < |lines| {
      var (part, next, inner) := OneLine(input, path, lines, i, level, found, fuel);
      OneFlattens(input, path, lines, i, level, found, fuel);
      LineStops(input, path, lines, i, level, found, fuel);
      OutcomeChain(OnePieces(input, path, lines, i, level, fuel),
        LinePieces(input, path, lines, LineEnd(input, lines, i), inner, fuel), input.contents, found);
      if part.Done? {
        LinesFlatten(input, path, lines, next, inner, part.found, fuel);
      }
    }
  }

  // ---- the text of every file that is reached ----

  /** The lines of files and the empty lines between them, without what toctrees bring. */
  function Kept(ps: seq<Piece>): seq<string> {
    if ps == [] then []
    else (if ps[0].Line? then [ps[0].text] else if ps[0].Gap? then [""] else []) + Kept(ps[1..])
  }

  lemma {:induction false} KeptWithin(ps: seq<Piece>, contents: seq<string>, found: bool)
    ensures Within(Kept(ps), WrittenAll(ps, contents, found))
    decreases |ps|
  {
    if ps != [] {
      var rest := WrittenAll(ps[1..], contents, found || ps[0].Tree?);
      KeptWithin(ps[1..], contents, found || ps[0].Tree?);
      if ps[0].Tree? {
        assert [] + Kept(ps[1..]) == Kept(ps[1..]);
        WithinAfter(Kept(ps[1..]), Written(ps[0], contents, found), rest);
      } else {
        WithinCons(Written(ps[0], contents, found)[0], Kept(ps[1..]), rest);
      }
    }
  }

  /** The text of the whole tree of files, in the order of lines and directives,
      appears in the output. */
  lemma {:induction false} TreeTextKept(input: Input, path: string, start: nat, found: bool, fuel: nat)
    requires FlattenFile(input, path, start, found, fuel).Done?
    ensures FilePieces(input, path, start, fuel).Expanded?
    ensures Within(Kept(FilePieces(input, path, start, fuel).pieces), FlattenFile(input, path, start, found, fuel).out)
  {
    FileFlattens(input, path, start, found, fuel);
    KeptWithin(FilePieces(input, path, start, fuel).pieces, input.contents, found);
  }

  function AtLevel(path: string, names: seq<string>, level: nat): seq<(string, nat)> {
    if names == [] then [] else [(Resolve(path, names[0]), level)] + AtLevel(path, names[1..], level)
  }

  /** The files that the directive at line `i` names, with the level they are
      included at. */
  function NamedAt(input: Input, path: string, lines: seq<string>, i: nat, level: nat): seq<(string, nat)>
    requires i < |lines|
  {
    match input.line(lines[i])
    case Heading(_, _) => []
    case Plain(_) => []
    case TreeDirective =>
      var end := BlankFrom(input, lines, i + 1);
      AtLevel(path, EntryNames(input, lines, end + 1), Inner(Caption(input, lines, i + 1, end), level))
    case IncludeDirective(file) => if file.Some? then [(Resolve(path, file.value), level)] else []
  }

  function NamedFrom(input: Input, path: string, lines: seq<string>, i: nat, level: nat): seq<(string, nat)>
    decreases Left(lines, i)
  {
    if i >= |lines| then []
    else
      NamedAt(input, path, lines, i, level)
      + NamedFrom(input, path, lines, LineEnd(input, lines, i), LevelAfter(input.line(lines[i]), level))
  }

  /** A file named in `path`, or in a file that is reached from it, and its level. */
  ghost predicate Reached(input: Input, path: string, start: nat, file: (string, nat), depth: nat)
    decreases depth
  {
    depth > 0 && input.load(path, start).Text? &&
    var named := NamedFrom(input, path, input.load(path, start).lines, 0, start);
    file in named || exists k :: 0 <= k < |named| && Reached(input, named[k].0, named[k].1, file, depth - 1)
  }

  /** These pieces and an empty line behind them stand among the others. */
  ghost predicate Holds(ps: seq<Piece>, part: seq<Piece>) {
    exists a, b :: ps == Around(a, part, b)
  }

  function Around(a: seq<Piece>, part: seq<Piece>, b: seq<Piece>): seq<Piece> {
    a + ((part + [Gap]) + b)
  }

  lemma {:induction false} HoldsBefore(ps: seq<Piece>, part: seq<Piece>, more: seq<Piece>)
    requires Holds(ps, part)
    ensures Holds(ps + more, part)
  {
    var a, b :| ps == Around(a, part, b);
    assert ps + more == Around(a, part, b + more);
  }

  lemma {:induction false} HoldsBehind(more: seq<Piece>, ps: seq<Piece>, part: seq<Piece>)
    requires Holds(ps, part)
    ensures Holds(more + ps, part)
  {
    var a, b :| ps == Around(a, part, b);
    assert more + ps == Around(more + a, part, b);
  }

  lemma {:induction false} HoldsWithin(ps: seq<Piece>, inner: seq<Piece>, part: seq<Piece>)
    requires Holds(ps, inner) && Holds(inner, part)
    ensures Holds(ps, part)
  {
    var a, b :| ps == Around(a, inner, b);
    HoldsBefore(inner, part, [Gap]);
    HoldsBefore(inner + [Gap], part, b);
    HoldsBehind(a, (inner + [Gap]) + b, part);
  }

  lemma {:induction false} NamedHolds(input: Input, path: string, names: seq<string>, level: nat, fuel: nat,
                                      file: (string, nat))
    requires NamedPieces(input, path, names, level, fuel).Expanded? && file in AtLevel(path, names, level)
    ensures FilePieces(input, file.0, file.1, fuel).Expanded?
    ensures Holds(NamedPieces(input, path, names, level, fuel).pieces, FilePieces(input, file.0, file.1, fuel).pieces)
    decreases |names|
  {
    var first := FilePieces(input, Resolve(path, names[0]), level, fuel);
    var rest := NamedPieces(input, path, names[1..], level, fuel);
    if file == (Resolve(path, names[0]), level) {
      assert (first.pieces + [Gap]) + rest.pieces == Around([], first.pieces, rest.pieces);
    } else {
      assert file in AtLevel(path, names[1..], level);
      NamedHolds(input, path, names[1..], level, fuel, file);
      HoldsBehind(first.pieces + [Gap], rest.pieces, FilePieces(input, file.0, file.1, fuel).pieces);
    }
  }

  lemma {:induction false} OneHolds(input: Input, path: string, lines: seq<string>, i: nat, level: nat, fuel: nat,
                                    file: (string, nat))
    requires i < |lines| && OnePieces(input, path, lines, i, level, fuel).Expanded?
    requires file in NamedAt(input, path, lines, i, level)
    ensures FilePieces(input, file.0, file.1, fuel).Expanded?
    ensures Holds(OnePieces(input, path, lines, i, level, fuel).pieces, FilePieces(input, file.0, file.1, fuel).pieces)
  {
    match input.line(lines[i])
    case TreeDirective =>
      var end := BlankFrom(input, lines, i + 1);
      var caption := Caption(input, lines, i + 1, end);
      var names, inner := EntryNames(input, lines, end + 1), Inner(caption, level);
      NamedHolds(input, path, names, inner, fuel, file);
      HoldsBehind([Tree(caption, level)], NamedPieces(input, path, names, inner, fuel).pieces,
        FilePieces(input, file.0, file.1, fuel).pieces);
    case IncludeDirective(name) =>
      assert AtLevel(path, [name.value], level) == [(Resolve(path, name.value), level)] by {
        assert [name.value][1..] == [];
      }
      NamedHolds(input, path, [name.value], level, fuel, file);
  }

  lemma {:induction false} LinesHold(input: Input, path: string, lines: seq<string>, i: nat, level: nat, fuel: nat,
                                     file: (string, nat))
    requires LinePieces(input, path, lines, i, level, fuel).Expanded?
    requires file in NamedFrom(input, path, lines, i, level)
    ensures FilePieces(input, file.0, file.1, fuel).Expanded?
    ensures Holds(LinePieces(input, path, lines, i, level, fuel).pieces,
                  FilePieces(input, file.0, file.1, fuel).pieces)
    decreases Left(lines, i)
  {
    var one := OnePieces(input, path, lines, i, level, fuel);
    var next, inner := LineEnd(input, lines, i), LevelAfter(input.line(lines[i]), level);
    var rest := LinePieces(input, path, lines, next, inner, fuel);
    if file in NamedAt(input, path, lines, i, level) {
      OneHolds(input, path, lines, i, level, fuel, file);
      HoldsBefore(one.pieces, FilePieces(input, file.0, file.1, fuel).pieces, rest.pieces);
    } else {
      LinesHold(input, path, lines, next, inner, fuel, file);
      HoldsBehind(one.pieces, rest.pieces, FilePieces(input, file.0, file.1, fuel).pieces);
    }
  }

  lemma {:induction false} FileIsLines(input: Input, path: string, start: nat, fuel: nat)
    requires FilePieces(input, path, start, fuel).Expanded?
    ensures fuel > 0 && input.load(path, start).Text?
    ensures FilePieces(input, path, start, fuel)
         == LinePieces(input, path, input.load(path, start).lines, 0, start, fuel - 1)
  {
  }

  lemma {:induction false} NamedIsReached(input: Input, path: string, start: nat, file: (string, nat), depth: nat)
    returns (next: (string, nat))
    requires Reached(input, path, start, file, depth)
    ensures depth > 0 && input.load(path, start).Text?
    ensures next in NamedFrom(input, path, input.load(path, start).lines, 0, start)
    ensures next == file || Reached(input, next.0, next.1, file, depth - 1)
  {
    var named := NamedFrom(input, path, input.load(path, start).lines, 0, start);
    next := file;
    if file !in named {
      var k :| 0 <= k < |named| && Reached(input, named[k].0, named[k].1, file, depth - 1);
      next := named[k];
    }
  }

  lemma {:induction false} ReachedHolds(input: Input, path: string, start: nat, fuel: nat, file: (string, nat),
                                        depth: nat)
    returns (inner: nat)
    requires FilePieces(input, path, start, fuel).Expanded? && Reached(input, path, start, file, depth)
    ensures inner < fuel && FilePieces(input, file.0, file.1, inner).Expanded?
    ensures Holds(FilePieces(input, path, start, fuel).pieces, FilePieces(input, file.0, file.1, inner).pieces)
    decreases depth
  {
    FileIsLines(input, path, start, fuel);
    var next := NamedIsReached(input, path, start, file, depth);
    inner := fuel - 1;
    LinesHold(input, path, input.load(path, start).lines, 0, start, inner, next);
    if next != file {
      var between := FilePieces(input, next.0, next.1, inner).pieces;
      inner := ReachedHolds(input, next.0, next.1, inner, file, depth - 1);
      HoldsWithin(FilePieces(input, path, start, fuel).pieces, between,
        FilePieces(input, file.0, file.1, inner).pieces);
    }
  }

  lemma {:induction false} GapWritten(part: seq<Piece>, contents: seq<string>, found: bool)
    ensures WrittenAll(part + [Gap], contents, found) == WrittenAll(part, contents, found) + [""]
  {
    WrittenAppend(part, [Gap], contents, found);
    WrittenOne(Gap, contents, found || HasTree(part));
  }

  lemma {:induction false} AroundWritten(a: seq<Piece>, part: seq<Piece>, b: seq<Piece>, contents: seq<string>,
                                         found: bool)
    returns (after: seq<string>)
    ensures WrittenAll(Around(a, part, b), contents, found)
         == WrittenAll(a, contents, found) + ((WrittenAll(part, contents, found || HasTree(a)) + [""]) + after)
  {
    WrittenAppend(a, (part + [Gap]) + b, contents, found);
    WrittenAppend(part + [Gap], b, contents, found || HasTree(a));
    GapWritten(part, contents, found || HasTree(a));
    after := WrittenAll(b, contents, (found || HasTree(a)) || HasTree(part + [Gap]));
  }

  lemma {:induction false} Regroup<T>(a: seq<T>, b: seq<T>, c: seq<T>, d: seq<T>)
    ensures a + ((b + c) + d) == a + b + c + d
  {
  }

  /** When a file flattens, so does every file it reaches, at the level where it is
      included: its flattened text stands in the output with one empty line behind it. */
  lemma {:induction false} ReachedStands(input: Input, path: string, start: nat, found: bool, fuel: nat,
                                         file: (string, nat), depth: nat)
    returns (before: seq<string>, placed: bool, after: seq<string>)
    requires FlattenFile(input, path, start, found, fuel).Done? && Reached(input, path, start, file, depth)
    ensures FlattenFile(input, file.0, file.1, placed, fuel).Done?
    ensures FlattenFile(input, path, start, found, fuel).out
         == before + FlattenFile(input, file.0, file.1, placed, fuel).out + [""] + after
  {
    FileFlattens(input, path, start, found, fuel);
    var inner := ReachedHolds(input, path, start, fuel, file, depth);
    var ps, part := FilePieces(input, path, start, fuel).pieces, FilePieces(input, file.0, file.1, inner).pieces;
    var a, b :| ps == Around(a, part, b);
    placed := found || HasTree(a);
    before := WrittenAll(a, input.contents, found);
    after := AroundWritten(a, part, b, input.contents, found);
    FileFlattens(input, file.0, file.1, placed, inner);
    Regroup(before, WrittenAll(part, input.contents, placed), [""], after);
    DepthIrrelevant(input, file.0, file.1, placed, inner, fuel);
  }

  /** And so the own text of every file that is reached, converted to the level where
      it is included, appears in the output. */
  lemma {:induction false} ReachedTextKept(input: Input, path: string, start: nat, found: bool, fuel: nat,
                                           file: (string, nat), depth: nat)
    requires FlattenFile(input, path, start, found, fuel).Done? && Reached(input, path, start, file, depth)
    ensures input.load(file.0, file.1).Text?
    ensures Within(OwnText(input, input.load(file.0, file.1).lines, 0),
                   FlattenFile(input, path, start, found, fuel).out)
  {
    var before, placed, after := ReachedStands(input, path, start, found, fuel, file, depth);
    LoadedTextKept(input, file.0, file.1, placed, fuel);
    WithinAround(OwnText(input, input.load(file.0, file.1).lines, 0), before,
      FlattenFile(input, file.0, file.1, placed, fuel).out, [""], after);
  }

  lemma {:induction false} WithinAround(own: seq<string>, before: seq<string>, out: seq<string>, gap: seq<string>,
                                        after: seq<string>)
    requires Within(own, out)
    ensures Within(own, before + out + gap + after)
  {
    WithinAfter(own, before, out);
    WithinBefore(own, before + out, gap);
    WithinBefore(own, before + out + gap, after);
  }

  lemma {:induction false} WithinBefore(a: seq<string>, b: seq<string>, more: seq<string>)
    requires Within(a, b)
    ensures Within(a, b + more)
    decreases |b|
  {
    if a != [] {
      assert (b + more)[1..] == b[1..] + more && (b + more)[0] == b[0];
      WithinBefore(if a[0] == b[0] then a[1..] else a, b[1..], more);
    }
  }

  // ---- the table of contents ----

  lemma {:induction false} TreesOnly(ps: seq<Piece>, contents: seq<string>)
    requires !HasTree(ps)
    ensures WrittenAll(ps, contents, false) == WrittenAll(ps, contents, true)
    decreases |ps|
  {
    if ps != [] {
      assert !ps[0].Tree? && ps == [ps[0]] + ps[1..];
      HasTreeAppend([ps[0]], ps[1..]);
      TreesOnly(ps[1..], contents);
    }
  }

  /** The first toctree, in reading order. */
  lemma {:induction false} FirstTree(ps: seq<Piece>) returns (k: nat)
    requires HasTree(ps)
    ensures k < |ps| && ps[k].Tree? && !HasTree(ps[..k])
  {
    k := 0;
    while !ps[k].Tree?
      invariant k < |ps| && !HasTree(ps[..k]) && exists i :: k <= i < |ps| && ps[i].Tree?
      decreases |ps| - k
    {
      assert forall i :: 0 <= i < k ==> !ps[..k][i].Tree?;
      k := k + 1;
    }
  }

  lemma {:induction false} ContentsInPieces(ps: seq<Piece>, contents: seq<string>)
    returns (before: seq<string>, after: seq<string>)
    ensures WrittenAll(ps, contents, true) == before + after
    ensures WrittenAll(ps, contents, false) == if HasTree(ps) then before + contents + after else before + after
  {
    if HasTree(ps) {
      var k := FirstTree(ps);
      SplitAtTree(ps, k, contents, false);
      SplitAtTree(ps, k, contents, true);
      TreesOnly(ps[..k], contents);
      before := WrittenAll(ps[..k], contents, true);
      after := Written(ps[k], contents, true) + WrittenAll(ps[k + 1..], contents, true);
      assert before + [] == before;
    } else {
      TreesOnly(ps, contents);
      before, after := WrittenAll(ps, contents, true), [];
      assert before + after == before;
    }
  }

  /** The table of contents is placed once, at the first toctree that is met, and
      that it was placed before changes nothing else. */
  lemma {:induction false} ContentsOnce(input: Input, path: string, start: nat, fuel: nat)
    returns (before: seq<string>, after: seq<string>)
    requires FlattenFile(input, path, start, false, fuel).Done?
    ensures FilePieces(input, path, start, fuel).Expanded?
    ensures FlattenFile(input, path, start, true, fuel) == Done(before + after, true)
    ensures FlattenFile(input, path, start, false, fuel) ==
      if HasTree(FilePieces(input, path, start, fuel).pieces) then Done(before + input.contents + after, true)
      else Done(before + after, false)
  {
    FileFlattens(input, path, start, false, fuel);
    FileFlattens(input, path, start, true, fuel);
    before, after := ContentsInPieces(FilePieces(input, path, start, fuel).pieces, input.contents);
  }

  lemma {:induction false} SplitAtTree(ps: seq<Piece>, k: nat, contents: seq<string>, found: bool)
    requires k < |ps| && ps[k].Tree? && !HasTree(ps[..k])
    ensures WrittenAll(ps, contents, found) ==
      WrittenAll(ps[..k], contents, found) + (if found then [] else contents)
      + (Written(ps[k], contents, true) + WrittenAll(ps[k + 1..], contents, true))
  {
    assert ps == ps[..k] + ps[k..];
    assert ps[k..][1..] == ps[k + 1..];
    WrittenAppend(ps[..k], ps[k..], contents, found);
  }
}
