/**
 File names of a patch: normalised, parent references and absolute prefixes
 taken off, and later shortened by leading components.
 */
module PathNames {
  import opened Wrappers
  import Lines

  // ---- components ----

  function SlashAt(s: string): (n: nat)
    ensures n <= |s|
    ensures n < |s| ==> s[n] == '/'
    ensures forall i :: 0 <= i < n ==> s[i] != '/'
  {
    if s == "" || s[0] == '/' then 0 else 1 + SlashAt(s[1..])
  }

  /** `split('/')` */
  function Components(s: string): seq<string>
    decreases |s|
  {
    var n := SlashAt(s);
    if n == |s| then [s] else [s[..n]] + Components(s[n + 1..])
  }

  /** `'/'.join(...)` */
  function Join(cs: seq<string>): string {
    if cs == [] then "" else if |cs| == 1 then cs[0] else cs[0] + "/" + Join(cs[1..])
  }

  predicate Unslashed(s: string) {
    forall i :: 0 <= i < |s| ==> s[i] != '/'
  }

  predicate NoSlash(s: string) {
    forall i :: 0 <= i < |s| ==> s[i] != '/' && s[i] != '\\'
  }

  /** A component that stays in a normalised path. */
  predicate Proper(c: string) {
    c != "" && c != "." && NoSlash(c)
  }

  predicate AllProper(cs: seq<string>) {
    forall i :: 0 <= i < |cs| ==> Proper(cs[i])
  }

  predicate NoParent(cs: seq<string>) {
    forall i :: 0 <= i < |cs| ==> cs[i] != ".."
  }

  /** Parent references only in front. */
  predicate ParentsFirst(cs: seq<string>) {
    forall i, j :: 0 <= i < j < |cs| && cs[j] == ".." ==> cs[i] == ".."
  }

  // ---- normpath ----

  /** One component of a path meets the ones kept so far. */
  function Push(kept: seq<string>, c: string, absolute: bool): seq<string> {
    if c == "" || c == "." then kept
    else if c != ".." || (!absolute && kept == []) || (kept != [] && kept[|kept| - 1] == "..") then kept + [c]
    else if kept != [] then kept[..|kept| - 1]
    else kept
  }

  function Fold(kept: seq<string>, cs: seq<string>, absolute: bool): seq<string>
    decreases |cs|
  {
    if cs == [] then kept else Fold(Push(kept, cs[0], absolute), cs[1..], absolute)
  }

  /** One leading slash, or two, but not more. */
  function Leading(p: string): string {
    if "//" <= p && !("///" <= p) then "//" else if "/" <= p then "/" else ""
  }

  /** `posixpath.normpath` */
  function NormPath(p: string): string {
    var r := Leading(p) + Join(Fold([], Components(p), Leading(p) != ""));
    if r == "" then "." else r
  }

  function Forward(s: string): (r: string)
    ensures |r| == |s|
    ensures forall i :: 0 <= i < |s| ==> r[i] != '\\'
  {
    seq(|s|, i requires 0 <= i < |s| => if s[i] == '\\' then '/' else s[i])
  }

  /** `xnormpath` */
  function CrossNormPath(p: string): string {
    NormPath(Forward(NormPath(p)))
  }

  // ---- stripping ----

  predicate IsWord(c: char) {
    'a' <= c <= 'z' || 'A' <= c <= 'Z' || '0' <= c <= '9' || c == '_'
  }

  predicate IsSlash(c: char) {
    c == '/' || c == '\\'
  }

  predicate HasDrive(s: string) {
    |s| >= 3 && IsWord(s[0]) && s[1] == ':' && IsSlash(s[2])
  }

  /** `xisabs` */
  predicate IsAbs(s: string) {
    (s != "" && IsSlash(s[0])) || HasDrive(s)
  }

  function DropSlashes(s: string): (r: string)
    ensures |r| <= |s|
    ensures s != "" && IsSlash(s[0]) ==> |r| < |s|
    ensures r != "" ==> !IsSlash(r[0])
  {
    if s != "" && IsSlash(s[0]) then DropSlashes(s[1..]) else s
  }

  /** `xstrip`: one prefix after the other, until the name is relative. */
  function StripAbs(s: string): (r: string)
    ensures !IsAbs(r)
    decreases |s|
  {
    if !IsAbs(s) then s
    else if HasDrive(s) then StripAbs(DropSlashes(s[2..]))
    else StripAbs(DropSlashes(s))
  }

  method XStrip(name: string) returns (r: string)
    ensures r == StripAbs(name)
  {
    r := name;
    while IsAbs(r)
      invariant StripAbs(r) == StripAbs(name)
      decreases |r|
    {
      if HasDrive(r) {
        r := DropSlashes(r[2..]);
      } else {
        r := DropSlashes(r);
      }
    }
  }

  /** What `partition('/')` leaves behind the first slash. */
  function AfterSlash(s: string): string {
    var n := SlashAt(s);
    if n == |s| then "" else s[n + 1..]
  }

  function StripParents(s: string): string
    decreases |s|
  {
    if "../" <= s then StripParents(AfterSlash(s)) else s
  }

  /** `_normalize_filenames`, for one name after the `a/` or `b/` prefix is off. */
  function Normalised(name: string): string {
    var n := StripParents(CrossNormPath(name));
    if IsAbs(n) && n != "/dev/null" then StripAbs(n) else n
  }

  /** With `versioned` for the types whose names carry a one-letter prefix. */
  method NormalizeName(name0: string, prefix: string, versioned: bool) returns (name: string)
    requires prefix == "a/" || prefix == "b/"
    ensures name == Normalised(if versioned && name0 != "/dev/null" && prefix <= name0 then name0[2..] else name0)
  {
    name := name0;
    if versioned && name != "/dev/null" && prefix <= name {
      name := name[2..];
    }
    name := CrossNormPath(name);
    ghost var start := name;
    while "../" <= name
      invariant StripParents(name) == StripParents(start)
      decreases |name|
    {
      name := AfterSlash(name);
    }
    if IsAbs(name) && name != "/dev/null" {
      name := XStrip(name);
    }
  }

  // ---- what a normalised name looks like ----

  lemma {:induction false} ComponentsProper(s: string)
    requires forall i :: 0 <= i < |s| ==> s[i] != '\\'
    ensures forall k :: 0 <= k < |Components(s)| ==> NoSlash(Components(s)[k])
    decreases |s|
  {
    var n := SlashAt(s);
    if n < |s| {
      ComponentsProper(s[n + 1..]);
    }
  }

  lemma {:induction false} FoldNormal(kept: seq<string>, cs: seq<string>, absolute: bool)
    requires forall k :: 0 <= k < |cs| ==> NoSlash(cs[k])
    requires AllProper(kept) && ParentsFirst(kept) && (absolute ==> NoParent(kept))
    ensures var r := Fold(kept, cs, absolute); AllProper(r) && ParentsFirst(r) && (absolute ==> NoParent(r))
    decreases |cs|
  {
    if cs != [] {
      var p := Push(kept, cs[0], absolute);
      if cs[0] == ".." && kept != [] && kept[|kept| - 1] == ".." {
        assert forall i :: 0 <= i < |kept| ==> kept[i] == "..";
      }
      FoldNormal(p, cs[1..], absolute);
    }
  }

  /** Slashes followed by components, or a single dot. */
  ghost predicate Shape(s: string, lead: string, cs: seq<string>) {
    && AllProper(cs) && ParentsFirst(cs)
    && (lead == "" || lead == "/" || lead == "//")
    && (lead != "" ==> NoParent(cs))
    && s == if lead == "" && cs == [] then "." else lead + Join(cs)
  }

  lemma {:induction false} JoinNonEmpty(cs: seq<string>)
    requires AllProper(cs) && cs != []
    ensures Join(cs) != "" && Join(cs)[0] == cs[0][0]
  {
  }

  lemma {:induction false} NormShape(name: string) returns (lead: string, cs: seq<string>)
    ensures Shape(CrossNormPath(name), lead, cs)
  {
    var p := Forward(NormPath(name));
    lead, cs := Leading(p), Fold([], Components(p), Leading(p) != "");
    ComponentsProper(p);
    FoldNormal([], Components(p), lead != "");
    if cs != [] {
      JoinNonEmpty(cs);
    }
  }

  lemma {:induction false} JoinFirst(cs: seq<string>)
    requires AllProper(cs) && |cs| > 1
    ensures Join(cs) == cs[0] + "/" + Join(cs[1..])
    ensures SlashAt(Join(cs)) == |cs[0]|
    ensures AfterSlash(Join(cs)) == Join(cs[1..])
  {
    var s := Join(cs);
    assert s[|cs[0]|] == '/' && s[..|cs[0]|] == cs[0] && s[|cs[0]| + 1..] == Join(cs[1..]);
    assert forall i :: 0 <= i < |cs[0]| ==> s[i] == cs[0][i];
  }

  predicate StartsParent(s: string) {
    |s| >= 3 && s[0] == '.' && s[1] == '.' && s[2] == '/'
  }

  lemma {:induction false} StartsParentIs(s: string)
    ensures "../" <= s <==> StartsParent(s)
  {
    if StartsParent(s) {
      assert s[..3] == "../";
    }
  }

  lemma {:induction false} TwoDots(c: string)
    ensures c == ".." <==> |c| == 2 && c[0] == '.' && c[1] == '.'
  {
  }

  lemma {:induction false} DotDotSlash(cs: seq<string>)
    requires AllProper(cs) && cs != []
    ensures "../" <= Join(cs) <==> |cs| > 1 && cs[0] == ".."
  {
    var s, c := Join(cs), cs[0];
    StartsParentIs(s);
    TwoDots(c);
    if |cs| > 1 {
      JoinFirst(cs);
      assert s[|c|] == '/';
      assert forall i :: 0 <= i < |c| ==> s[i] == c[i];
    }
  }

  lemma {:induction false} ProperTail(cs: seq<string>)
    requires cs != [] && AllProper(cs)
    ensures AllProper(cs[1..])
    ensures ParentsFirst(cs) ==> ParentsFirst(cs[1..])
    ensures NoParent(cs) ==> NoParent(cs[1..])
  {
  }

  /** Taking off parent references leaves a lone one, or none. */
  lemma {:induction false} ParentsStripped(cs: seq<string>) returns (rest: seq<string>)
    requires AllProper(cs) && ParentsFirst(cs) && cs != []
    ensures StripParents(Join(cs)) == Join(rest) && AllProper(rest) && rest != []
    ensures rest == [".."] || NoParent(rest)
  {
    DotDotSlash(cs);
    if |cs| > 1 && cs[0] == ".." {
      JoinFirst(cs);
      ProperTail(cs);
      rest := ParentsStripped(cs[1..]);
    } else {
      rest := cs;
      if |cs| == 1 && cs[0] == ".." {
        assert cs == [".."];
      } else {
        assert cs[0] != "..";
      }
    }
  }

  lemma {:induction false} JoinNotSlash(cs: seq<string>)
    requires AllProper(cs) && cs != []
    ensures !IsSlash(Join(cs)[0])
    ensures DropSlashes(Join(cs)) == Join(cs)
    ensures DropSlashes("/" + Join(cs)) == Join(cs) && DropSlashes("//" + Join(cs)) == Join(cs)
  {
    JoinNonEmpty(cs);
    assert ("/" + Join(cs))[1..] == Join(cs);
    assert ("//" + Join(cs))[1..] == "/" + Join(cs);
  }

  lemma {:induction false} DriveIsComponent(cs: seq<string>)
    requires AllProper(cs) && cs != [] && HasDrive(Join(cs))
    ensures |cs| > 1 && |cs[0]| == 2 && Join(cs)[2..] == "/" + Join(cs[1..])
  {
    var s := Join(cs);
    if |cs| > 1 {
      JoinFirst(cs);
      assert s[2] != '\\' by { if 2 < |cs[0]| { assert s[2] == cs[0][2]; } }
      assert forall i :: 0 <= i < |cs[0]| ==> s[i] == cs[0][i];
      assert SlashAt(s) == 2;
      assert s == cs[0] + ("/" + Join(cs[1..]));
    }
  }

  /** Taking off drives leaves components of the same path. */
  lemma {:induction false} DrivesStripped(cs: seq<string>) returns (rest: seq<string>)
    requires AllProper(cs) && cs != [] && NoParent(cs)
    ensures StripAbs(Join(cs)) == Join(rest) && AllProper(rest) && rest != [] && NoParent(rest)
    decreases |cs|
  {
    JoinNotSlash(cs);
    rest := cs;
    if HasDrive(Join(cs)) {
      DriveIsComponent(cs);
      ProperTail(cs);
      JoinNotSlash(cs[1..]);
      rest := DrivesStripped(cs[1..]);
    }
  }

  /** A name without slash prefix whose components hold no parent reference. */
  ghost predicate Inside(s: string, cs: seq<string>) {
    AllProper(cs) && NoParent(cs) && s == Join(cs)
  }

  predicate Ordinary(s: string) {
    s == "/dev/null" || s == "." || s == ".."
  }

  lemma {:induction false} RelativeName(all: seq<string>) returns (cs: seq<string>)
    requires AllProper(all) && ParentsFirst(all) && all != []
    ensures var n := StripParents(Join(all)); var r := if IsAbs(n) then StripAbs(n) else n;
      r == ".." || (Inside(r, cs) && !IsAbs(r))
  {
    cs := ParentsStripped(all);
    if cs != [".."] {
      var rest := DrivesStripped(cs);
      if IsAbs(Join(cs)) {
        cs := rest;
      }
    }
  }

  lemma {:induction false} SlashesOnly()
    ensures DropSlashes("/") == "" && DropSlashes("//") == ""
  {
    assert "//"[1..] == "/" && "/"[1..] == "";
  }

  lemma {:induction false} AbsoluteName(lead: string, all: seq<string>) returns (cs: seq<string>)
    requires AllProper(all) && NoParent(all) && (lead == "/" || lead == "//")
    ensures StripParents(lead + Join(all)) == lead + Join(all)
    ensures IsAbs(lead + Join(all)) && Inside(StripAbs(lead + Join(all)), cs)
  {
    var n := lead + Join(all);
    assert n[0] == '/';
    StartsParentIs(n);
    cs := [];
    if all == [] {
      SlashesOnly();
      assert n == lead;
    } else {
      JoinNotSlash(all);
      cs := DrivesStripped(all);
    }
  }

  /** What the later loops rely on: a normalised name is the null device, a dot or
      two, or relative with ordinary components only. */
  lemma {:induction false} NormalisedName(name: string) returns (cs: seq<string>)
    ensures Ordinary(Normalised(name)) || (Inside(Normalised(name), cs) && !IsAbs(Normalised(name)))
  {
    var lead, all := NormShape(name);
    cs := [];
    if lead != "" {
      cs := AbsoluteName(lead, all);
    } else if all != [] {
      assert "" + Join(all) == Join(all);
      cs := RelativeName(all);
    }
  }

  /** Names are safe for the loops that follow: the null device, or relative, not
      starting with a parent reference, and accepted by `PathStrip`. */
  lemma {:induction false} NormalisedIsSafe(name: string)
    ensures var n := Normalised(name);
      n == "/dev/null" || (!IsAbs(n) && !("../" <= n) && (n == "" || n[0] != '/'))
  {
    var cs := NormalisedName(name);
    var n := Normalised(name);
    if Inside(n, cs) && cs != [] {
      DotDotSlash(cs);
    }
  }

  // ---- pathstrip ----

  /** `os.path.split`: up to the last slash, which goes unless nothing else is left. */
  function LastSlash(s: string): (n: nat)
    ensures n <= |s|
    ensures n > 0 ==> s[n - 1] == '/'
    ensures forall i :: n <= i < |s| ==> s[i] != '/'
  {
    if s == "" then 0 else if s[|s| - 1] == '/' then |s| else LastSlash(s[..|s| - 1])
  }

  function TrimSlashes(s: string): (r: string)
    ensures r <= s
    ensures r != "" ==> r[|r| - 1] != '/'
  {
    if s != "" && s[|s| - 1] == '/' then TrimSlashes(s[..|s| - 1]) else s
  }

  function Head(s: string): string {
    var h := s[..LastSlash(s)];
    if TrimSlashes(h) == "" then h else TrimSlashes(h)
  }

  function Tail(s: string): string {
    s[LastSlash(s)..]
  }

  /** The components that repeated splitting finds in a relative path. */
  function Pieces(s: string): (r: seq<string>)
    requires s == "" || s[0] != '/'
    ensures r != []
    decreases |s|
  {
    if Head(s) == "" then [s] else HeadShrinks(s); Pieces(Head(s)) + [Tail(s)]
  }

  lemma {:induction false} PiecesStep(first: string, rest: seq<string>)
    requires (first == "" || first[0] != '/') && Head(first) != ""
    ensures |Head(first)| < |first| && Head(first)[0] != '/'
    ensures Pieces(Head(first)) + ([Tail(first)] + rest) == Pieces(first) + rest
  {
    PiecesLast(first);
    HeadShrinks(first);
    Lines.Assoc(Pieces(Head(first)), [Tail(first)], rest);
  }

  /** `pathstrip`, for paths that do not start with a slash. */
  method PathStrip(path: string, n: nat) returns (r: string)
    requires path == "" || path[0] != '/'
    ensures r == Join(if n <= |Pieces(path)| then Pieces(path)[n..] else [])
  {
    var list := SplitAll(path);
    r := Join(if n <= |list| then list[n..] else []);
  }

  method SplitAll(path: string) returns (list: seq<string>)
    requires path == "" || path[0] != '/'
    ensures list == Pieces(path)
  {
    var first, rest: seq<string> := path, [];
    while Head(first) != ""
      invariant first == "" || first[0] != '/'
      invariant Pieces(first) + rest == Pieces(path)
      decreases |first|
    {
      PiecesStep(first, rest);
      first, rest := Head(first), [Tail(first)] + rest;
    }
    list := [first] + rest;
  }

  /** On a normalised name the pieces are its components, so `n` of them go. */
  lemma {:induction false} PiecesOfName(cs: seq<string>)
    requires AllProper(cs) && cs != []
    ensures Join(cs)[0] != '/' && Pieces(Join(cs)) == cs
  {
    if |cs| > 1 {
      var init := cs[..|cs| - 1];
      PiecesOfName(init);
      assert cs == init + [cs[|cs| - 1]];
      PiecesSnoc(init, cs[|cs| - 1]);
    } else {
      assert Join(cs) == cs[0] && cs == [cs[0]];
      SplitJoin(cs);
      PiecesOne(Join(cs));
    }
  }

  lemma {:induction false} PiecesSnoc(init: seq<string>, c: string)
    requires AllProper(init + [c]) && init != []
    requires (Join(init) == "" || Join(init)[0] != '/') && Pieces(Join(init)) == init
    ensures Join(init + [c])[0] != '/' && Pieces(Join(init + [c])) == init + [c]
  {
    var cs := init + [c];
    assert cs[..|cs| - 1] == init && cs[|cs| - 1] == c;
    JoinNonEmpty(cs);
    SplitJoin(cs);
    PiecesLast(Join(cs));
  }

  lemma {:induction false} PiecesLast(s: string)
    requires (s == "" || s[0] != '/') && Head(s) != ""
    ensures (Head(s) == "" || Head(s)[0] != '/') && Pieces(s) == Pieces(Head(s)) + [Tail(s)]
  {
    HeadShrinks(s);
  }

  lemma {:induction false} PiecesOne(s: string)
    requires (s == "" || s[0] != '/') && Head(s) == ""
    ensures Pieces(s) == [s]
  {
  }

  lemma {:induction false} SplitOf(a: string, b: string)
    requires (forall i :: 0 <= i < |b| ==> b[i] != '/') && a != "" && a[|a| - 1] != '/'
    ensures Head(a + "/" + b) == a && Tail(a + "/" + b) == b
  {
    var s := a + "/" + b;
    LastSlashIs(a, b);
    assert s[..|a| + 1] == a + "/" && s[|a| + 1..] == b;
    assert (a + "/")[..|a|] == a;
    assert TrimSlashes(a + "/") == TrimSlashes(a) == a;
  }

  lemma {:induction false} HeadShrinks(s: string)
    requires (s == "" || s[0] != '/') && Head(s) != ""
    ensures |Head(s)| < |s| && Head(s)[0] != '/'
  {
    var h := s[..LastSlash(s)];
    if TrimSlashes(h) == "" {
      AllSlashes(h);
    }
  }

  lemma {:induction false} AllSlashes(h: string)
    requires TrimSlashes(h) == "" && h != ""
    ensures h[0] == '/'
  {
    if |h| > 1 {
      AllSlashes(h[..|h| - 1]);
    }
  }

  lemma {:induction false} LastSlashIs(a: string, b: string)
    requires forall i :: 0 <= i < |b| ==> b[i] != '/'
    ensures LastSlash(a + "/" + b) == |a| + 1
  {
    var s := a + "/" + b;
    if b != "" {
      LastSlashIs(a, b[..|b| - 1]);
      assert s[..|s| - 1] == a + "/" + b[..|b| - 1];
    }
  }

  lemma {:induction false} JoinLast(cs: seq<string>)
    requires |cs| > 1
    ensures Join(cs) == Join(cs[..|cs| - 1]) + "/" + cs[|cs| - 1]
  {
    if |cs| > 2 {
      JoinLast(cs[1..]);
      assert cs[1..][..|cs| - 2] == cs[..|cs| - 1][1..];
      assert cs[..|cs| - 1][0] == cs[0];
    } else {
      assert cs[..1] == [cs[0]] && cs[1..] == [cs[1]];
    }
  }

  /** Splitting a normalised path takes its last component off. */
  lemma {:induction false} SplitJoin(cs: seq<string>)
    requires AllProper(cs) && cs != []
    ensures Head(Join(cs)) == "" <==> |cs| == 1
    ensures |cs| > 1 ==> Head(Join(cs)) == Join(cs[..|cs| - 1]) && Tail(Join(cs)) == cs[|cs| - 1]
  {
    if |cs| == 1 {
      assert NoSlash(cs[0]);
    } else {
      JoinLast(cs);
      EndsProper(cs[..|cs| - 1]);
      assert Proper(cs[|cs| - 1]);
      SplitOf(Join(cs[..|cs| - 1]), cs[|cs| - 1]);
    }
  }

  lemma {:induction false} EndsProper(cs: seq<string>)
    requires AllProper(cs) && cs != []
    ensures Join(cs) != "" && Join(cs)[|Join(cs)| - 1] != '/'
  {
    if |cs| > 1 {
      JoinLast(cs);
    }
    assert Proper(cs[|cs| - 1]);
  }

  /** On an absolute path the loop of `pathstrip` never ends: its guard holds and
      its step gives an absolute path again. */
  lemma {:induction false} AbsoluteNeverEnds(s: string)
    requires s != "" && s[0] == '/'
    ensures Head(s) != "" && Head(s)[0] == '/'
  {
    var h := s[..LastSlash(s)];
    assert h != "" && h[0] == '/';
  }
}
