/** What a normalised path means: it leads where the path led, and a normal one stays. */
module PathMeaning {
  import opened PathNames
  import Lines

  // ---- walking ----

  /** One component followed from a directory; the root is its own parent. */
  function Enter(at: seq<string>, c: string): seq<string> {
    if c == "" || c == "." then at
    else if c == ".." then (if at == [] then [] else at[..|at| - 1])
    else at + [c]
  }

  function Walk(at: seq<string>, cs: seq<string>): seq<string>
    decreases |cs|
  {
    if cs == [] then at else Walk(Enter(at, cs[0]), cs[1..])
  }

  lemma {:induction false} WalkSnoc(at: seq<string>, cs: seq<string>, c: string)
    ensures Walk(at, cs + [c]) == Enter(Walk(at, cs), c)
    decreases |cs|
  {
    if cs == [] {
      assert cs + [c] == [c];
      assert [c][1..] == [];
    } else {
      assert (cs + [c])[1..] == cs[1..] + [c];
      WalkSnoc(Enter(at, cs[0]), cs[1..], c);
    }
  }

  /** From far enough below the root, or from the root itself for an absolute path. */
  predicate Deep(at: seq<string>, n: nat, absolute: bool) {
    if absolute then at == [] else |at| >= n
  }

  lemma {:induction false} WalkDepth(at: seq<string>, cs: seq<string>)
    ensures |Walk(at, cs)| + |cs| >= |at|
    decreases |cs|
  {
    if cs != [] {
      WalkDepth(Enter(at, cs[0]), cs[1..]);
    }
  }

  lemma {:induction false} PushWalks(at: seq<string>, kept: seq<string>, c: string, absolute: bool)
    requires AllProper(kept) && ParentsFirst(kept) && (absolute ==> NoParent(kept))
    requires Deep(at, |kept| + 1, absolute)
    ensures Walk(at, Push(kept, c, absolute)) == Enter(Walk(at, kept), c)
  {
    if Push(kept, c, absolute) == kept + [c] {
      WalkSnoc(at, kept, c);
    } else if c == ".." && kept != [] {
      var init, last := kept[..|kept| - 1], kept[|kept| - 1];
      assert kept == init + [last];
      WalkSnoc(at, init, last);
      assert last != ".." && Proper(last);
      assert (Walk(at, init) + [last])[..|Walk(at, init)|] == Walk(at, init);
    }
  }

  lemma {:induction false} FoldWalks(at: seq<string>, kept: seq<string>, cs: seq<string>, absolute: bool)
    requires forall k :: 0 <= k < |cs| ==> NoSlash(cs[k])
    requires AllProper(kept) && ParentsFirst(kept) && (absolute ==> NoParent(kept))
    requires Deep(at, |kept| + |cs|, absolute)
    ensures Walk(at, Fold(kept, cs, absolute)) == Walk(Walk(at, kept), cs)
    decreases |cs|
  {
    if cs != [] {
      PushWalks(at, kept, cs[0], absolute);
      FoldNormal(kept, [cs[0]], absolute);
      assert [cs[0]][1..] == [];
      assert Fold(kept, [cs[0]], absolute) == Push(kept, cs[0], absolute);
      FoldWalks(at, Push(kept, cs[0], absolute), cs[1..], absolute);
    }
  }

  // ---- components ----

  lemma {:induction false} OneComponent(c: string)
    requires Unslashed(c)
    ensures Components(c) == [c]
  {
    assert SlashAt(c) == |c|;
  }

  lemma {:induction false} ComponentsCut(c: string, rest: string)
    requires Unslashed(c)
    ensures Components(c + "/" + rest) == [c] + Components(rest)
  {
    var s := c + "/" + rest;
    assert s[|c|] == '/' && s[..|c|] == c && s[|c| + 1..] == rest;
    assert forall i :: 0 <= i < |c| ==> s[i] == c[i];
    assert SlashAt(s) == |c|;
  }

  lemma {:induction false} ComponentsJoin(cs: seq<string>)
    requires AllProper(cs) && cs != []
    ensures Components(Join(cs)) == cs
  {
    assert Proper(cs[0]) && Unslashed(cs[0]);
    if |cs| == 1 {
      assert cs == [cs[0]];
      OneComponent(cs[0]);
    } else {
      ComponentsJoin(cs[1..]);
      ComponentsCut(cs[0], Join(cs[1..]));
      assert cs == [cs[0]] + cs[1..];
    }
  }

  lemma {:induction false} ComponentsSlash(s: string)
    ensures Components("/" + s) == [""] + Components(s)
  {
    assert ("/" + s)[..0] == "" && ("/" + s)[1..] == s;
  }

  /** Slashes in front lead nowhere. */
  lemma {:induction false} LeadWalks(at: seq<string>, lead: string, s: string)
    requires lead == "" || lead == "/" || lead == "//"
    ensures Walk(at, Components(lead + s)) == Walk(at, Components(s))
  {
    if lead == "" {
      assert lead + s == s;
    } else if lead == "/" {
      ComponentsSlash(s);
      assert ([""] + Components(s))[1..] == Components(s);
    } else {
      assert "//" + s == "/" + ("/" + s);
      ComponentsSlash("/" + s);
      ComponentsSlash(s);
      assert ([""] + Components("/" + s))[1..] == Components("/" + s);
      assert ([""] + Components(s))[1..] == Components(s);
    }
  }

  lemma {:induction false} ComponentsCount(s: string)
    ensures |Components(s)| <= |s| + 1
    decreases |s|
  {
    var n := SlashAt(s);
    if n < |s| {
      ComponentsCount(s[n + 1..]);
    }
  }

  predicate Forwards(p: string) {
    forall i :: 0 <= i < |p| ==> p[i] != '\\'
  }

  lemma {:induction false} JoinWalks(at: seq<string>, cs: seq<string>)
    requires AllProper(cs)
    ensures Walk(at, Components(Join(cs))) == Walk(at, cs)
  {
    if cs == [] {
      assert Components("") == [""] && [""][1..] == [];
      assert Walk(at, [""]) == Walk(at, []);
    } else {
      ComponentsJoin(cs);
    }
  }

  /** `normpath` leads where the path led, from every directory deep enough, or from
      the root when the path is absolute, and keeps the slashes in front. */
  lemma {:induction false} NormPathWalks(at: seq<string>, p: string)
    requires Forwards(p) && Deep(at, |p| + 1, Leading(p) != "")
    ensures Walk(at, Components(NormPath(p))) == Walk(at, Components(p))
  {
    var lead, cs := Leading(p), Fold([], Components(p), Leading(p) != "");
    ComponentsProper(p);
    ComponentsCount(p);
    FoldNormal([], Components(p), lead != "");
    FoldWalks(at, [], Components(p), lead != "");
    if lead == "" && cs == [] {
      DotWalks(at);
      assert NormPath(p) == ".";
    } else {
      LeadWalks(at, lead, Join(cs));
      JoinWalks(at, cs);
      assert NormPath(p) == lead + Join(cs);
    }
  }

  lemma {:induction false} DotWalks(at: seq<string>)
    ensures Walk(at, Components(".")) == at
  {
    assert "."[1..] == "" && Components(".") == ["."] && ["."][1..] == [];
    assert Walk(at, ["."]) == Walk(at, []);
  }

  lemma {:induction false} LeadingOf(lead: string, cs: seq<string>)
    requires AllProper(cs) && (lead == "" || lead == "/" || lead == "//")
    ensures Leading(lead + Join(cs)) == lead
  {
    var s := Join(cs);
    if cs != [] {
      JoinNonEmpty(cs);
      assert NoSlash(cs[0]) && s[0] == cs[0][0] && s[0] != '/';
    }
    var t := lead + s;
    assert forall i :: 0 <= i < |s| ==> t[|lead| + i] == s[i];
    assert "/" <= t <==> |t| > 0 && t[0] == '/';
    SlashPrefixes(t);
  }

  lemma {:induction false} SlashPrefixes(t: string)
    ensures "/" <= t <==> |t| >= 1 && t[0] == '/'
    ensures "//" <= t <==> |t| >= 2 && t[0] == '/' && t[1] == '/'
    ensures "///" <= t <==> |t| >= 3 && t[0] == '/' && t[1] == '/' && t[2] == '/'
  {
    if |t| >= 1 && t[0] == '/' {
      assert t[..1] == "/";
    }
    if |t| >= 2 && t[0] == '/' && t[1] == '/' {
      assert t[..2] == "//";
    }
    if |t| >= 3 && t[0] == '/' && t[1] == '/' && t[2] == '/' {
      assert t[..3] == "///";
    }
  }

  // ---- normal paths stay ----

  lemma {:induction false} FoldKeeps(kept: seq<string>, cs: seq<string>, absolute: bool)
    requires AllProper(kept + cs) && ParentsFirst(kept + cs) && (absolute ==> NoParent(kept + cs))
    ensures Fold(kept, cs, absolute) == kept + cs
    decreases |cs|
  {
    if cs == [] {
      assert kept + cs == kept;
    } else {
      var all := kept + cs;
      assert all[|kept|] == cs[0] && Proper(cs[0]);
      assert kept != [] && cs[0] == ".." ==> all[|kept| - 1] == "..";
      assert (kept + [cs[0]]) + cs[1..] == all;
      FoldKeeps(kept + [cs[0]], cs[1..], absolute);
    }
  }

  /** A path of the normal shape is left as it is. */
  lemma {:induction false} NormalStays(s: string, lead: string, cs: seq<string>)
    requires Shape(s, lead, cs)
    ensures NormPath(s) == s
  {
    if lead == "" && cs == [] {
      assert "."[1..] == "" && Components(".") == ["."] && ["."][1..] == [];
      assert Fold([], ["."], false) == Fold([], [], false);
      SlashPrefixes(".");
    } else {
      LeadingOf(lead, cs);
      assert [] + cs == cs;
      FoldKeeps([], cs, lead != "");
      FoldLead(lead, cs);
    }
  }

  lemma {:induction false} FoldSlash(s: string, absolute: bool)
    ensures Fold([], Components("/" + s), absolute) == Fold([], Components(s), absolute)
  {
    ComponentsSlash(s);
    assert ([""] + Components(s))[1..] == Components(s);
  }

  lemma {:induction false} FoldLead(lead: string, cs: seq<string>)
    requires AllProper(cs) && (lead == "" || lead == "/" || lead == "//")
    ensures Fold([], Components(lead + Join(cs)), lead != "") == Fold([], cs, lead != "")
  {
    var s, absolute := Join(cs), lead != "";
    if lead == "/" {
      FoldSlash(s, absolute);
    } else if lead == "//" {
      assert "//" + s == "/" + ("/" + s);
      FoldSlash("/" + s, absolute);
      FoldSlash(s, absolute);
    } else {
      assert lead + s == s;
    }
    if cs == [] {
      assert Components("") == [""] && [""][1..] == [];
      assert Fold([], [""], absolute) == Fold([], [], absolute);
    } else {
      ComponentsJoin(cs);
    }
  }

  lemma {:induction false} ForwardStays(p: string)
    requires Forwards(p)
    ensures Forward(p) == p
  {
  }

  lemma {:induction false} JoinForwards(cs: seq<string>)
    requires AllProper(cs)
    ensures Forwards(Join(cs))
  {
    if cs != [] {
      assert Proper(cs[0]) && Forwards(cs[0]);
      if |cs| > 1 {
        ProperTail(cs);
        JoinForwards(cs[1..]);
      }
    }
  }

  lemma {:induction false} ShapeForwards(s: string, lead: string, cs: seq<string>)
    requires Shape(s, lead, cs)
    ensures Forwards(s)
  {
    JoinForwards(cs);
  }

  /** Normalising once more changes nothing. */
  lemma {:induction false} CrossNormStays(s: string, lead: string, cs: seq<string>)
    requires Shape(s, lead, cs)
    ensures CrossNormPath(s) == s
  {
    NormalStays(s, lead, cs);
    ShapeForwards(s, lead, cs);
    ForwardStays(s);
  }

  lemma {:induction false} NormPathShape(p: string) returns (lead: string, cs: seq<string>)
    requires Forwards(p)
    ensures Shape(NormPath(p), lead, cs) && lead == Leading(p)
  {
    lead, cs := Leading(p), Fold([], Components(p), Leading(p) != "");
    ComponentsProper(p);
    FoldNormal([], Components(p), lead != "");
    if cs != [] {
      JoinNonEmpty(cs);
    }
  }

  /** Without backslashes the normalised name is `normpath` of the name: it has the
      normal shape and leads where the name led. */
  lemma {:induction false} CrossNormWalks(at: seq<string>, p: string)
    requires Forwards(p) && Deep(at, |p| + 1, Leading(p) != "")
    ensures CrossNormPath(p) == NormPath(p)
    ensures Walk(at, Components(CrossNormPath(p))) == Walk(at, Components(p))
  {
    var lead, cs := NormPathShape(p);
    ShapeForwards(NormPath(p), lead, cs);
    ForwardStays(NormPath(p));
    NormalStays(NormPath(p), lead, cs);
    NormPathWalks(at, p);
  }

  // ---- what is taken off ----

  function Parents(k: nat): seq<string> {
    if k == 0 then [] else [".."] + Parents(k - 1)
  }

  lemma {:induction false} ParentsShape(k: nat, cs: seq<string>)
    requires AllProper(cs) && NoParent(cs)
    ensures AllProper(Parents(k) + cs) && ParentsFirst(Parents(k) + cs)
  {
    if k == 0 {
      assert Parents(k) + cs == cs;
    } else {
      ParentsShape(k - 1, cs);
      assert Parents(k) + cs == [".."] + (Parents(k - 1) + cs);
    }
  }

  lemma {:induction false} ParentGoes(rest: seq<string>)
    requires AllProper([".."] + rest) && rest != []
    ensures StripParents(Join([".."] + rest)) == StripParents(Join(rest))
  {
    DotDotSlash([".."] + rest);
    JoinFirst([".."] + rest);
    assert ([".."] + rest)[1..] == rest;
  }

  lemma {:induction false} ParentsCons(k: nat, cs: seq<string>)
    requires k > 0
    ensures Parents(k) + cs == [".."] + (Parents(k - 1) + cs)
  {
  }

  lemma {:induction false} NoneToGo(cs: seq<string>)
    requires AllProper(cs) && NoParent(cs) && cs != []
    ensures StripParents(Join(cs)) == Join(cs)
  {
    DotDotSlash(cs);
  }

  lemma {:induction false} ParentsGo(k: nat, cs: seq<string>, all: seq<string>)
    requires AllProper(cs) && NoParent(cs) && cs != [] && all == Parents(k) + cs
    ensures StripParents(Join(all)) == Join(cs)
    decreases k
  {
    ParentsShape(k, cs);
    if k == 0 {
      assert all == cs;
      NoneToGo(cs);
    } else {
      var rest := Parents(k - 1) + cs;
      ParentsCons(k, cs);
      ParentsGo(k - 1, cs, rest);
      ParentGoes(rest);
    }
  }

  lemma {:induction false} RelativeStays(cs: seq<string>)
    requires AllProper(cs) && cs != [] && !HasDrive(Join(cs))
    ensures !IsAbs(Join(cs)) && StripAbs(Join(cs)) == Join(cs)
  {
    JoinNotSlash(cs);
  }

  /** A relative name of ordinary components stays, also when it is normalised as a
      name of a patch, unless it starts with a drive. */
  lemma {:induction false} NormalNameStays(cs: seq<string>)
    requires AllProper(cs) && NoParent(cs) && cs != [] && !HasDrive(Join(cs))
    ensures Normalised(Join(cs)) == Join(cs)
  {
    assert "" + Join(cs) == Join(cs);
    CrossNormStays(Join(cs), "", cs);
    DotDotSlash(cs);
    JoinNotSlash(cs);
  }

  /** Parent references in front go, and nothing else. */
  lemma {:induction false} ParentsOff(k: nat, cs: seq<string>)
    requires AllProper(cs) && NoParent(cs) && cs != [] && !HasDrive(Join(cs))
    ensures Normalised(Join(Parents(k) + cs)) == Join(cs)
  {
    ParentsGo(k, cs, Parents(k) + cs);
    ParentsShape(k, cs);
    assert "" + Join(Parents(k) + cs) == Join(Parents(k) + cs);
    CrossNormStays(Join(Parents(k) + cs), "", Parents(k) + cs);
    JoinNotSlash(cs);
  }

  /** Slashes in front go, but for the null device. */
  lemma {:induction false} SlashesOff(lead: string, cs: seq<string>)
    requires AllProper(cs) && NoParent(cs) && cs != [] && !HasDrive(Join(cs)) && (lead == "/" || lead == "//")
    requires lead + Join(cs) != "/dev/null"
    ensures Normalised(lead + Join(cs)) == Join(cs)
  {
    var n := lead + Join(cs);
    CrossNormStays(n, lead, cs);
    StripLead(lead, cs);
  }

  lemma {:induction false} StripLead(lead: string, cs: seq<string>)
    requires AllProper(cs) && cs != [] && !HasDrive(Join(cs)) && (lead == "/" || lead == "//")
    ensures IsAbs(lead + Join(cs)) && StripAbs(lead + Join(cs)) == Join(cs)
    ensures StripParents(lead + Join(cs)) == lead + Join(cs)
  {
    var n := lead + Join(cs);
    assert n[0] == '/' && !IsWord('/');
    StartsParentIs(n);
    JoinNotSlash(cs);
    RelativeStays(cs);
    assert StripAbs(n) == StripAbs(DropSlashes(n));
  }

  /** The name begins with a drive: a letter, a digit or an underscore, a colon, and a
      slash behind it. */
  lemma {:induction false} DriveExactly(cs: seq<string>)
    requires AllProper(cs) && cs != []
    ensures HasDrive(Join(cs)) <==>
      && |cs| > 1 && |cs[0]| == 2 && cs[0][1] == ':'
      && var c := cs[0][0];
         ('a' <= c && c <= 'z') || ('A' <= c && c <= 'Z') || ('0' <= c && c <= '9') || c == '_'
  {
    var s := Join(cs);
    if HasDrive(s) {
      DriveIsComponent(cs);
      JoinFirst(cs);
      assert s[0] == cs[0][0] && s[1] == cs[0][1];
    }
    if |cs| > 1 && |cs[0]| == 2 {
      JoinFirst(cs);
      assert s[0] == cs[0][0] && s[1] == cs[0][1] && s[2] == '/';
    }
  }

  /** A drive in front goes with the slash behind it. */
  lemma {:induction false} DriveOff(drive: string, cs: seq<string>)
    requires |drive| == 2 && IsWord(drive[0]) && drive[1] == ':'
    requires AllProper(cs) && NoParent(cs) && cs != [] && !HasDrive(Join(cs))
    ensures Normalised(Join([drive] + cs)) == Join(cs)
  {
    var all := [drive] + cs;
    assert all[1..] == cs && Proper(drive);
    assert AllProper(all) && NoParent(all);
    assert "" + Join(all) == Join(all);
    CrossNormStays(Join(all), "", all);
    DotDotSlash(all);
    StripDrive(drive, cs);
  }

  lemma {:induction false} StripDrive(drive: string, cs: seq<string>)
    requires |drive| == 2 && IsWord(drive[0]) && drive[1] == ':'
    requires AllProper(cs) && cs != [] && !HasDrive(Join(cs)) && AllProper([drive] + cs)
    ensures Join([drive] + cs) != "/dev/null"
    ensures IsAbs(Join([drive] + cs)) && StripAbs(Join([drive] + cs)) == Join(cs)
  {
    var s := Join([drive] + cs);
    assert ([drive] + cs)[1..] == cs;
    JoinFirst([drive] + cs);
    JoinNotSlash(cs);
    RelativeStays(cs);
    assert s == drive + ("/" + Join(cs));
    assert s[0] == drive[0] && s[1] == ':' && s[2] == '/' && s[2..] == "/" + Join(cs);
    assert StripAbs(s) == StripAbs(DropSlashes(s[2..]));
  }

  // ---- splitting a path ----

  function NonEmpty(cs: seq<string>): seq<string> {
    if cs == [] then [] else NonEmpty(cs[..|cs| - 1]) + (if cs[|cs| - 1] == "" then [] else [cs[|cs| - 1]])
  }

  lemma {:induction false} NonEmptySnoc(cs: seq<string>, c: string)
    ensures NonEmpty(cs + [c]) == NonEmpty(cs) + (if c == "" then [] else [c])
  {
    assert (cs + [c])[..|cs|] == cs;
  }

  lemma {:induction false} FirstSlash(s: string) returns (c: string, rest: string)
    requires !Unslashed(s)
    ensures Unslashed(c) && s == c + "/" + rest && |rest| < |s|
  {
    var n := SlashAt(s);
    c, rest := s[..n], s[n + 1..];
    assert s == s[..n] + [s[n]] + s[n + 1..];
  }

  lemma {:induction false} TwoComponents(a: string, b: string)
    requires Unslashed(a) && Unslashed(b)
    ensures Components(a + "/" + b) == Components(a) + [b]
  {
    ComponentsCut(a, b);
    OneComponent(a);
    OneComponent(b);
  }

  lemma {:induction false} SlashAssoc(a: string, b: string, c: string)
    ensures (a + "/" + b) + "/" + c == a + "/" + (b + "/" + c)
  {
  }

  lemma {:induction false} SnocBehind(c: string, rest: string, b: string)
    requires Unslashed(c) && Components(rest + "/" + b) == Components(rest) + [b]
    ensures Components((c + "/" + rest) + "/" + b) == Components(c + "/" + rest) + [b]
  {
    SlashAssoc(c, rest, b);
    ComponentsCut(c, rest);
    ComponentsCut(c, rest + "/" + b);
    Lines.Assoc([c], Components(rest), [b]);
  }

  /** One component more behind a path. */
  lemma {:induction false} ComponentsSnoc(s: string, b: string)
    requires Unslashed(b)
    ensures Components(s + "/" + b) == Components(s) + [b]
    decreases |s|
  {
    if Unslashed(s) {
      TwoComponents(s, b);
    } else {
      var c, rest := FirstSlash(s);
      ComponentsSnoc(rest, b);
      SnocBehind(c, rest, b);
    }
  }

  lemma {:induction false} SlashAtEnd(s: string)
    ensures NonEmpty(Components(s + "/")) == NonEmpty(Components(s))
  {
    assert s + "/" == s + "/" + "";
    ComponentsSnoc(s, "");
    NonEmptySnoc(Components(s), "");
  }

  lemma {:induction false} TrimmedComponents(s: string)
    ensures NonEmpty(Components(TrimSlashes(s))) == NonEmpty(Components(s))
  {
    if s != "" && s[|s| - 1] == '/' {
      TrimmedComponents(s[..|s| - 1]);
      SlashAtEnd(s[..|s| - 1]);
      assert s[..|s| - 1] + "/" == s;
    }
  }

  /** The last component, and what is in front of it. */
  lemma {:induction false} LastComponent(s: string)
    requires (s == "" || s[0] != '/') && Head(s) != ""
    ensures Unslashed(Tail(s)) && NonEmpty(Components(s))
         == NonEmpty(Components(Head(s))) + (if Tail(s) == "" then [] else [Tail(s)])
    ensures Tail(s) == "" <==> s[|s| - 1] == '/'
  {
    var n := LastSlash(s);
    var front := s[..n - 1];
    assert s == front + "/" + Tail(s);
    ComponentsSnoc(front, Tail(s));
    NonEmptySnoc(Components(front), Tail(s));
    assert s[..n][..n - 1] == front;
    assert TrimSlashes(s[..n]) == TrimSlashes(front);
    TrimmedComponents(front);
    HeadShrinks(s);
    if TrimSlashes(s[..n]) == "" {
      AllSlashes(s[..n]);
    }
  }

  lemma {:induction false} NoHead(s: string)
    requires (s == "" || s[0] != '/') && Head(s) == ""
    ensures Unslashed(s)
  {
    var h := s[..LastSlash(s)];
    if h != "" && TrimSlashes(h) == "" {
      AllSlashes(h);
    }
  }

  lemma {:induction false} HeadEnds(s: string)
    requires (s == "" || s[0] != '/') && Head(s) != ""
    ensures Head(s)[|Head(s)| - 1] != '/'
  {
    HeadShrinks(s);
    if TrimSlashes(s[..LastSlash(s)]) == "" {
      AllSlashes(s[..LastSlash(s)]);
    }
  }

  /** An empty name behind the last slash. */
  function EmptyLast(s: string): seq<string> {
    if s == "" || s[|s| - 1] == '/' then [""] else []
  }

  lemma {:induction false} NonEmptyOne(c: string)
    ensures NonEmpty([c]) == if c == "" then [] else [c]
  {
    assert [c][..0] == [];
  }

  lemma {:induction false} PiecesWithoutHead(s: string)
    requires (s == "" || s[0] != '/') && Head(s) == ""
    ensures Pieces(s) == NonEmpty(Components(s)) + EmptyLast(s)
  {
    NoHead(s);
    PiecesOne(s);
    OneComponent(s);
    NonEmptyOne(s);
    if s == "" {
      assert EmptyLast(s) == [s];
    } else {
      assert EmptyLast(s) == [];
    }
  }

  /** Repeated splitting finds the components of a relative path, without empty ones,
      and an empty name at the end when the path ends in a slash. */
  lemma {:induction false} PiecesExactly(s: string)
    requires s == "" || s[0] != '/'
    ensures Pieces(s) == NonEmpty(Components(s)) + EmptyLast(s)
    decreases |s|
  {
    if Head(s) == "" {
      PiecesWithoutHead(s);
    } else {
      var head := Head(s);
      HeadShrinks(s);
      HeadEnds(s);
      LastComponent(s);
      PiecesLast(s);
      PiecesExactly(head);
      assert EmptyLast(head) == [];
    }
  }
}
