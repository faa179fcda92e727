/**
 The depth of inclusion: a run that is deep enough gives what every deeper run
 gives, and files that do not include each other in a circle need no more depth
 than their rank.
 */
module FlattenDepth {
  import opened Wrappers
  import opened Headings
  import opened Flatten

  const TOO_DEEP := Stopped(TooDeep)

  // ---- deeper runs agree ----

  lemma {:induction false} FileDeeper(input: Input, path: string, start: nat, found: bool, fuel: nat)
    requires FlattenFile(input, path, start, found, fuel) != TOO_DEEP
    ensures FlattenFile(input, path, start, found, fuel + 1) == FlattenFile(input, path, start, found, fuel)
    decreases fuel, 0, 0
  {
    if input.load(path, start).Text? {
      LinesDeeper(input, path, input.load(path, start).lines, 0, start, found, fuel - 1);
    }
  }

  lemma {:induction false} IncludedDeeper(input: Input, path: string, name: string, level: nat, found: bool,
                                          fuel: nat)
    requires Included(input, path, name, level, found, fuel) != TOO_DEEP
    ensures Included(input, path, name, level, found, fuel + 1) == Included(input, path, name, level, found, fuel)
    decreases fuel, 0, 1
  {
    FileDeeper(input, Resolve(path, name), level, found, fuel);
  }

  lemma {:induction false} LinesDeeper(input: Input, path: string, lines: seq<string>, i: nat, level: nat,
                                       found: bool, fuel: nat)
    requires FlattenLines(input, path, lines, i, level, found, fuel) != TOO_DEEP
    ensures FlattenLines(input, path, lines, i, level, found, fuel + 1) ==
      FlattenLines(input, path, lines, i, level, found, fuel)
    decreases fuel, 1, 4 * Left(lines, i)
  {
    if i < |lines| {
      OneLineDeeper(input, path, lines, i, level, found, fuel);
      var (part, next, inner) := OneLine(input, path, lines, i, level, found, fuel);
      if part.Done? {
        LinesDeeper(input, path, lines, next, inner, part.found, fuel);
      }
    }
  }

  lemma {:induction false} OneLineDeeper(input: Input, path: string, lines: seq<string>, i: nat, level: nat,
                                         found: bool, fuel: nat)
    requires i < |lines| && OneLine(input, path, lines, i, level, found, fuel).0 != TOO_DEEP
    ensures OneLine(input, path, lines, i, level, found, fuel + 1) == OneLine(input, path, lines, i, level, found, fuel)
    decreases fuel, 1, 4 * Left(lines, i) - 1
  {
    match input.line(lines[i])
    case Heading(_, _) =>
    case Plain(_) =>
    case TreeDirective => ToctreeDeeper(input, path, lines, i, level, found, fuel);
    case IncludeDirective(file) =>
      if file.Some? {
        IncludedDeeper(input, path, file.value, level, found, fuel);
      }
  }

  lemma {:induction false} ToctreeDeeper(input: Input, path: string, lines: seq<string>, i: nat, level: nat,
                                         found: bool, fuel: nat)
    requires i < |lines| && Toctree(input, path, lines, i, level, found, fuel).0 != TOO_DEEP
    ensures Toctree(input, path, lines, i, level, found, fuel + 1) == Toctree(input, path, lines, i, level, found, fuel)
    decreases fuel, 1, 4 * Left(lines, i) - 2
  {
    var end := BlankFrom(input, lines, i + 1);
    var caption := Caption(input, lines, i + 1, end);
    if caption.None? || level < |MAIN| {
      EntriesDeeper(input, path, lines, end + 1, Inner(caption, level), true, fuel);
    }
  }

  lemma {:induction false} EntriesDeeper(input: Input, path: string, lines: seq<string>, i: nat, level: nat,
                                         found: bool, fuel: nat)
    requires Entries(input, path, lines, i, level, found, fuel).0 != TOO_DEEP
    ensures Entries(input, path, lines, i, level, found, fuel + 1) == Entries(input, path, lines, i, level, found, fuel)
    decreases fuel, 1, 4 * Left(lines, i) + 1
  {
    if i < |lines| && input.entry(lines[i]).Some? {
      var name := input.entry(lines[i]).value;
      IncludedDeeper(input, path, name, level, found, fuel);
      var part := Included(input, path, name, level, found, fuel);
      if part.Done? {
        EntriesDeeper(input, path, lines, i + 1, level, part.found, fuel);
      }
    }
  }

  /** Depth only decides whether there is a result, never which one. */
  lemma {:induction false} DepthIrrelevant(input: Input, path: string, start: nat, found: bool, fuel: nat, more: nat)
    requires fuel <= more && FlattenFile(input, path, start, found, fuel) != TOO_DEEP
    ensures FlattenFile(input, path, start, found, more) == FlattenFile(input, path, start, found, fuel)
    decreases more - fuel
  {
    if fuel < more {
      FileDeeper(input, path, start, found, fuel);
      DepthIrrelevant(input, path, start, found, fuel + 1, more);
    }
  }

  // ---- enough depth ----

  /** The files a toctree names from line `i` on. */
  function EntryReferences(input: Input, path: string, lines: seq<string>, i: nat): set<string>
    decreases |lines| - i
  {
    if i >= |lines| || input.entry(lines[i]).None? then {}
    else {Resolve(path, input.entry(lines[i]).value)} + EntryReferences(input, path, lines, i + 1)
  }

  /** The files that a directive at line `i` names. */
  function LineReferences(input: Input, path: string, lines: seq<string>, i: nat): set<string>
    requires i < |lines|
  {
    match input.line(lines[i])
    case Heading(_, _) => {}
    case Plain(_) => {}
    case TreeDirective => EntryReferences(input, path, lines, BlankFrom(input, lines, i + 1) + 1)
    case IncludeDirective(file) => if file.Some? then {Resolve(path, file.value)} else {}
  }

  /** The files that the directives of a file name from line `i` on. */
  function References(input: Input, path: string, lines: seq<string>, i: nat): set<string>
    decreases |lines| - i
  {
    if i >= |lines| then {}
    else LineReferences(input, path, lines, i) + References(input, path, lines, LineEnd(input, lines, i))
  }

  /** No file includes itself, directly or not. */
  ghost predicate Acyclic(input: Input, rank: string -> nat) {
    forall path, start, file {:trigger input.load(path, start), rank(file)} ::
      input.load(path, start).Text? && file in References(input, path, input.load(path, start).lines, 0) ==>
        rank(file) < rank(path)
  }

  ghost predicate AllBelow(files: set<string>, rank: string -> nat, fuel: nat) {
    forall file {:trigger rank(file)} :: file in files ==> rank(file) < fuel
  }

  lemma {:induction false} BelowParts(a: set<string>, b: set<string>, rank: string -> nat, fuel: nat)
    requires AllBelow(a + b, rank, fuel)
    ensures AllBelow(a, rank, fuel) && AllBelow(b, rank, fuel)
  {
  }

  lemma {:induction false} BelowOne(file: string, rank: string -> nat, fuel: nat)
    requires AllBelow({file}, rank, fuel)
    ensures rank(file) < fuel
  {
  }

  lemma {:induction false} FileReaches(input: Input, rank: string -> nat, path: string, start: nat, found: bool,
                                       fuel: nat)
    requires Acyclic(input, rank) && rank(path) < fuel
    ensures FlattenFile(input, path, start, found, fuel) != TOO_DEEP
    decreases fuel, 0, 0
  {
    if input.load(path, start).Text? {
      var lines := input.load(path, start).lines;
      assert AllBelow(References(input, path, lines, 0), rank, fuel - 1);
      LinesReach(input, rank, path, lines, 0, start, found, fuel - 1);
    }
  }

  lemma {:induction false} LinesReach(input: Input, rank: string -> nat, path: string, lines: seq<string>, i: nat,
                                      level: nat, found: bool, fuel: nat)
    requires Acyclic(input, rank) && AllBelow(References(input, path, lines, i), rank, fuel)
    ensures FlattenLines(input, path, lines, i, level, found, fuel) != TOO_DEEP
    decreases fuel, 1, 4 * Left(lines, i)
  {
    if i < |lines| {
      BelowParts(LineReferences(input, path, lines, i), References(input, path, lines, LineEnd(input, lines, i)),
        rank, fuel);
      OneLineReaches(input, rank, path, lines, i, level, found, fuel);
      LineStops(input, path, lines, i, level, found, fuel);
      var (part, next, inner) := OneLine(input, path, lines, i, level, found, fuel);
      if part.Done? {
        LinesReach(input, rank, path, lines, next, inner, part.found, fuel);
      }
    }
  }

  lemma {:induction false} OneLineReaches(input: Input, rank: string -> nat, path: string, lines: seq<string>,
                                          i: nat, level: nat, found: bool, fuel: nat)
    requires i < |lines| && Acyclic(input, rank) && AllBelow(LineReferences(input, path, lines, i), rank, fuel)
    ensures OneLine(input, path, lines, i, level, found, fuel).0 != TOO_DEEP
    decreases fuel, 1, 4 * Left(lines, i) - 1
  {
    match input.line(lines[i])
    case Heading(_, _) =>
    case Plain(_) =>
    case TreeDirective =>
      var end := BlankFrom(input, lines, i + 1);
      var caption := Caption(input, lines, i + 1, end);
      EntriesReach(input, rank, path, lines, end + 1, Inner(caption, level), true, fuel);
    case IncludeDirective(file) =>
      if file.Some? {
        BelowOne(Resolve(path, file.value), rank, fuel);
        FileReaches(input, rank, Resolve(path, file.value), level, found, fuel);
      }
  }

  lemma {:induction false} EntriesReach(input: Input, rank: string -> nat, path: string, lines: seq<string>, i: nat,
                                        level: nat, found: bool, fuel: nat)
    requires Acyclic(input, rank) && AllBelow(EntryReferences(input, path, lines, i), rank, fuel)
    ensures Entries(input, path, lines, i, level, found, fuel).0 != TOO_DEEP
    decreases fuel, 0, 1 + Left(lines, i)
  {
    if i < |lines| && input.entry(lines[i]).Some? {
      var name := input.entry(lines[i]).value;
      var file := Resolve(path, name);
      BelowParts({file}, EntryReferences(input, path, lines, i + 1), rank, fuel);
      BelowOne(file, rank, fuel);
      FileReaches(input, rank, file, level, found, fuel);
      var part := Included(input, path, name, level, found, fuel);
      if part.Done? {
        EntriesReach(input, rank, path, lines, i + 1, level, part.found, fuel);
      }
    }
  }

  lemma {:induction false} DepthSuffices(input: Input, rank: string -> nat, path: string, start: nat, found: bool,
                                         fuel: nat)
    requires Acyclic(input, rank) && rank(path) < fuel
    ensures FlattenFile(input, path, start, found, fuel) != TOO_DEEP
    ensures FlattenFile(input, path, start, found, fuel) == FlattenFile(input, path, start, found, rank(path) + 1)
  {
    FileReaches(input, rank, path, start, found, rank(path) + 1);
    DepthIrrelevant(input, path, start, found, rank(path) + 1, fuel);
  }

  /** Without circles every run ends: any depth above the rank of the file gives
      the same result, and it is never that the depth did not suffice. */
  lemma {:induction false} AcyclicEnds(fs: Files, rank: string -> nat, path: string, start: nat, found: bool,
                                       fuel: nat)
    requires Acyclic(Reading(fs), rank) && rank(path) < fuel
    ensures FlattenFile(Reading(fs), path, start, found, fuel) != TOO_DEEP
    ensures FlattenFile(Reading(fs), path, start, found, fuel) ==
      FlattenFile(Reading(fs), path, start, found, rank(path) + 1)
  {
    DepthSuffices(Reading(fs), rank, path, start, found, fuel);
  }
}
