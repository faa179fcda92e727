/**
 The cache of an updatable file: in its folder every stored version is a file
 `name_<timestamp>`, and the greatest such name is the one in use.
 */
module FileCache {
  import opened Wrappers
  import opened Strings

  /** File names and contents of one cache folder. */
  type Folder = map<string, string>

  /** Byte-wise order of names. */
  predicate Le(a: string, b: string) {
    a == "" || (b != "" && (a[0] < b[0] || (a[0] == b[0] && Le(a[1..], b[1..]))))
  }

  lemma {:induction false} LeTotal(a: string, b: string)
    ensures Le(a, b) || Le(b, a)
    ensures Le(a, b) && Le(b, a) ==> a == b
  {
    if a != "" && b != "" {
      LeTotal(a[1..], b[1..]);
      assert a == [a[0]] + a[1..] && b == [b[0]] + b[1..];
    }
  }

  lemma {:induction false} LeTrans(a: string, b: string, c: string)
    requires Le(a, b) && Le(b, c)
    ensures Le(a, c)
  {
    if a != "" && a[0] == b[0] && b[0] == c[0] {
      LeTrans(a[1..], b[1..], c[1..]);
    }
  }

  /** Among names with one prefix the suffixes decide. */
  lemma {:induction false} LePrefix(p: string, a: string, b: string)
    ensures Le(p + a, p + b) <==> Le(a, b)
  {
    if p == "" {
      assert p + a == a && p + b == b;
    } else {
      assert (p + a)[1..] == p[1..] + a && (p + b)[1..] == p[1..] + b;
      LePrefix(p[1..], a, b);
    }
  }

  function LowerChar(c: char): char {
    if 'A' <= c <= 'Z' then c - 'A' + 'a' else c
  }

  function Lower(s: string): (r: string)
    ensures |r| == |s|
    ensures forall i {:trigger r[i]} :: 0 <= i < |s| ==> r[i] == LowerChar(s[i])
  {
    seq(|s|, i requires 0 <= i < |s| => LowerChar(s[i]))
  }

  lemma {:induction false} LowerConcat(a: string, b: string)
    ensures Lower(a + b) == Lower(a) + Lower(b)
  {
  }

  /** The name filter `name_*`; a listing ignores case unless told otherwise. */
  predicate Listed(name: string, file: string) {
    Lower(name + "_") <= Lower(file)
  }

  /** The same letter, one of them a capital. */
  predicate SameLetter(a: char, b: char) {
    a == b || ('A' <= a <= 'Z' && b as int == a as int + 32) || ('A' <= b <= 'Z' && a as int == b as int + 32)
  }

  lemma {:induction false} LowerLetter(a: char, b: char)
    ensures LowerChar(a) == LowerChar(b) <==> SameLetter(a, b)
  {
  }

  /** Case is all that is ignored. */
  lemma {:induction false} LowerIgnoresCase(a: string, b: string)
    ensures Lower(a) == Lower(b) <==> |a| == |b| && forall i :: 0 <= i < |a| ==> SameLetter(a[i], b[i])
  {
    forall i | 0 <= i < |a| && i < |b| ensures Lower(a)[i] == Lower(b)[i] <==> SameLetter(a[i], b[i]) {
      LowerLetter(a[i], b[i]);
    }
    if Lower(a) == Lower(b) {
      assert |Lower(a)| == |Lower(b)|;
    }
  }

  lemma {:induction false} VersionListed(name: string, stamp: string)
    ensures Listed(name, Versioned(name, stamp))
  {
    LowerConcat(name + "_", stamp);
  }

  function Versioned(name: string, stamp: string): string {
    name + "_" + stamp
  }

  /** `best` is the entry that the reversed listing puts first. */
  ghost predicate IsNewest(folder: Folder, name: string, best: Option<string>) {
    match best
    case None => forall f :: f in folder ==> !Listed(name, f)
    case Some(b) => b in folder && Listed(name, b) && forall f :: f in folder && Listed(name, f) ==> Le(f, b)
  }

  /** The newest entry of a listing of the folder. */
  method CachePath(folder: Folder, entries: seq<string>, name: string) returns (best: Option<string>)
    requires forall f :: f in entries <==> f in folder
    ensures IsNewest(folder, name, best)
  {
    best := None;
    for i := 0 to |entries|
      invariant best.None? ==> forall k :: 0 <= k < i ==> !Listed(name, entries[k])
      invariant best.Some? ==> best.value in folder && Listed(name, best.value)
      invariant best.Some? ==> forall k :: 0 <= k < i && Listed(name, entries[k]) ==> Le(entries[k], best.value)
    {
      var f := entries[i];
      if Listed(name, f) {
        LeTotal(f, f);
        if best.None? {
          best := Some(f);
        } else if !Le(f, best.value) {
          LeTotal(f, best.value);
          forall k | 0 <= k < i && Listed(name, entries[k]) ensures Le(entries[k], f) {
            LeTrans(entries[k], best.value, f);
          }
          best := Some(f);
        }
      }
    }
  }

  lemma {:induction false} NewestUnique(folder: Folder, name: string, a: Option<string>, b: Option<string>)
    requires IsNewest(folder, name, a) && IsNewest(folder, name, b)
    ensures a == b
  {
    if a.Some? && b.Some? {
      LeTotal(a.value, b.value);
    }
  }

  datatype WriteResult = CannotOpen | ShortWrite | AllWritten

  /** Storing data under a file name: an existing file is left as it is, a partial
      one is removed.  The flag tells whether the file is there and complete. */
  function WriteData(folder: Folder, file: string, data: string, w: WriteResult): (Folder, bool) {
    if file in folder then (folder, true)
    else match w
      case CannotOpen => (folder, false)
      case ShortWrite => (folder, false)
      case AllWritten => (folder[file := data], true)
  }

  class CacheFolder {
    var files: map<string, string>

    /** The same with the file open in between. */
    method WriteDataToFile(data: string, file: string, w: WriteResult) returns (ok: bool)
      modifies this
      ensures (files, ok) == WriteData(old(files), file, data, w)
      ensures ok <==> file in files
      ensures file in old(files) || w != AllWritten ==> files == old(files)
      ensures file !in old(files) && w == AllWritten ==> files == old(files)[file := data]
    {
      if file in files {
        return true;
      }
      if w == CannotOpen {
        return false;
      }
      ghost var before := files;
      files := files[file := if w == ShortWrite then data[..|data| / 2] else data];
      if w == ShortWrite {
        files := files - {file};
        assert files == before;
        return false;
      }
      return true;
    }
  }

  datatype Answer = Answer(stamp: string, data: string, w: WriteResult)

  /** A successful download, stored under its timestamp. */
  function Store(folder: Folder, name: string, a: Answer): Folder {
    WriteData(folder, Versioned(name, a.stamp), a.data, a.w).0
  }

  /** Answers for any of the files that share the folder. */
  function StoreAll(folder: Folder, answers: seq<(string, Answer)>): Folder
    decreases |answers|
  {
    if answers == [] then folder else StoreAll(Store(folder, answers[0].0, answers[0].1), answers[1..])
  }

  lemma {:induction false} StoreKeeps(folder: Folder, answers: seq<(string, Answer)>)
    ensures forall f :: f in folder ==> f in StoreAll(folder, answers) && StoreAll(folder, answers)[f] == folder[f]
    decreases |answers|
  {
    if answers != [] {
      StoreKeeps(Store(folder, answers[0].0, answers[0].1), answers[1..]);
    }
  }

  /** Along any run the version in use never moves down, and a stored version
      keeps its content. */
  lemma {:induction false} CacheMonotone(folder: Folder, answers: seq<(string, Answer)>, name: string,
                                         before: Option<string>, after: Option<string>)
    requires IsNewest(folder, name, before) && IsNewest(StoreAll(folder, answers), name, after)
    ensures before.Some? ==> after.Some? && Le(before.value, after.value)
    ensures before.Some? ==>
      before.value in StoreAll(folder, answers) && StoreAll(folder, answers)[before.value] == folder[before.value]
  {
    StoreKeeps(folder, answers);
  }

  /** A version above every entry that is listed for the name is in use next. */
  lemma {:induction false} NewestIsUsed(folder: Folder, name: string, a: Answer, after: Option<string>)
    requires a.w == AllWritten && Versioned(name, a.stamp) !in folder
    requires forall f :: f in folder && Listed(name, f) ==> Le(f, Versioned(name, a.stamp))
    requires IsNewest(Store(folder, name, a), name, after)
    ensures after == Some(Versioned(name, a.stamp))
    ensures Store(folder, name, a)[Versioned(name, a.stamp)] == a.data
  {
    var v := Versioned(name, a.stamp);
    VersionListed(name, a.stamp);
    if after.value != v {
      LeTotal(v, after.value);
    }
  }

  // ---- lookup ----

  /** Where the file is looked for: cache, resources, default path; none is "". */
  datatype Places = Places(named: bool, cache: Option<string>, resource: Option<string>, default_: string)

  function LookupPath(p: Places): string {
    if !p.named then p.default_
    else match p.cache
      case Some(c) => c
      case None => if p.resource.Some? then p.resource.value else p.default_
  }

  function Candidates(p: Places): seq<string> {
    var paths := if p.default_ != "" then [p.default_] else [];
    if !p.named then paths
    else
      var paths := if p.resource.Some? then [p.resource.value] + paths else paths;
      if p.cache.Some? then [p.cache.value] + paths else paths
  }

  /** The first of the paths that is valid, or none when none is. */
  predicate FirstValid(paths: seq<string>, valid: string -> bool, r: Option<string>) {
    match r
    case None => forall i :: 0 <= i < |paths| ==> !valid(paths[i])
    case Some(path) =>
      exists i :: 0 <= i < |paths| && paths[i] == path && valid(path) && forall k :: 0 <= k < i ==> !valid(paths[k])
  }

  /** A single lookup gives the first candidate of the validating lookup. */
  lemma {:induction false} LookupIsFirstCandidate(p: Places)
    ensures LookupPath(p) == if Candidates(p) != [] then Candidates(p)[0] else ""
  {
  }

  /** Cache, resources and default path in this order, as far as there are any; a
      file without a name has only its default path. */
  lemma {:induction false} CandidatesInOrder(p: Places)
    ensures forall path :: path in Candidates(p) <==>
      || (p.named && p.cache == Some(path)) || (p.named && p.resource == Some(path))
      || (path == p.default_ && path != "")
    ensures p.named && p.cache.Some? ==> LookupPath(p) == p.cache.value && Candidates(p)[0] == p.cache.value
    ensures p.named && p.cache.None? && p.resource.Some? ==>
      LookupPath(p) == p.resource.value && Candidates(p)[0] == p.resource.value
    ensures p.named && p.cache.Some? && p.resource.Some? ==> Candidates(p)[1] == p.resource.value
    ensures p.default_ != "" ==> |Candidates(p)| > 0 && Candidates(p)[|Candidates(p)| - 1] == p.default_
    ensures !p.named || (p.cache.None? && p.resource.None?) ==> LookupPath(p) == p.default_
  {
  }

  /** The path of an entry of the folder. */
  function InFolder(dir: string, entry: Option<string>): Option<string> {
    match entry
    case None => None
    case Some(e) => Some(dir + "/" + e)
  }

  /** What was just stored completely, above every listed entry, is looked up next. */
  lemma {:induction false} StoredIsLookedUp(folder: Folder, dir: string, name: string, a: Answer,
                                            newest: Option<string>, p: Places)
    requires a.w == AllWritten && Versioned(name, a.stamp) !in folder
    requires forall f :: f in folder && Listed(name, f) ==> Le(f, Versioned(name, a.stamp))
    requires IsNewest(Store(folder, name, a), name, newest) && p.named && p.cache == InFolder(dir, newest)
    ensures LookupPath(p) == dir + "/" + Versioned(name, a.stamp)
    ensures Store(folder, name, a)[Versioned(name, a.stamp)] == a.data
  {
    NewestIsUsed(folder, name, a, newest);
  }

  // ---- files that share a folder ----

  /** A timestamp as it is formatted: year to second in digits, then the time zone. */
  predicate IsStamp(t: string) {
    |t| >= 14 && (forall i :: 0 <= i < 14 ==> IsDigit(t[i])) && NoUnderscore(t)
  }

  predicate NoUnderscore(s: string) {
    forall i :: 0 <= i < |s| ==> s[i] != '_'
  }

  /** The name, an underscore and a timestamp. */
  predicate Own(name: string, file: string) {
    name + "_" <= file && IsStamp(file[|name| + 1..])
  }

  /** The other name, an underscore behind it, starts with this one and an underscore,
      in whatever case: it is the same name but for the case, or continues it. */
  predicate Intrudes(name: string, other: string) {
    other != name && Lower(name + "_") <= Lower(other + "_")
  }

  /** Answers for files of these names. */
  predicate AnswersFor(names: set<string>, answers: seq<(string, Answer)>) {
    forall k :: 0 <= k < |answers| ==> answers[k].0 in names && IsStamp(answers[k].1.stamp)
  }

  ghost predicate VersionOf(names: set<string>, file: string) {
    exists n, t :: n in names && IsStamp(t) && file == Versioned(n, t)
  }

  ghost predicate OnlyVersions(folder: Folder, names: set<string>) {
    forall f :: f in folder ==> VersionOf(names, f)
  }

  lemma {:induction false} StoresVersions(folder: Folder, names: set<string>, answers: seq<(string, Answer)>)
    requires AnswersFor(names, answers) && OnlyVersions(folder, names)
    ensures OnlyVersions(StoreAll(folder, answers), names)
    decreases |answers|
  {
    if answers != [] {
      var next := Store(folder, answers[0].0, answers[0].1);
      forall f | f in next ensures VersionOf(names, f) {
        if f !in folder {
          assert answers[0].0 in names && f == Versioned(answers[0].0, answers[0].1.stamp);
        }
      }
      StoresVersions(next, names, answers[1..]);
    }
  }

  /** Whose versions are listed for a name. */
  lemma {:induction false} ListedVersion(name: string, n: string, t: string)
    requires NoUnderscore(t)
    ensures Listed(name, Versioned(n, t)) <==> n == name || Intrudes(name, n)
  {
    LowerConcat(n + "_", t);
    if n == name {
    } else if |n| < |name| {
      ShorterNotListed(name, n, t);
    } else {
      LongerListed(Lower(name + "_"), Lower(n + "_"), Lower(t));
    }
  }

  lemma {:induction false} LongerListed(p: string, a: string, b: string)
    requires |p| <= |a|
    ensures p <= a + b <==> p <= a
  {
    assert (a + b)[..|p|] == a[..|p|];
  }

  lemma {:induction false} ShorterNotListed(name: string, n: string, t: string)
    requires |n| < |name| && NoUnderscore(t)
    ensures !Listed(name, Versioned(n, t)) && !Intrudes(name, n)
  {
    var v, k := Versioned(n, t), |name|;
    if k < |v| {
      assert v[k] == t[k - |n| - 1];
      assert Lower(v)[k] != '_' && Lower(name + "_")[k] == '_';
    }
  }

  lemma {:induction false} OwnVersion(name: string, t: string)
    requires IsStamp(t)
    ensures Own(name, Versioned(name, t))
  {
    assert Versioned(name, t)[|name| + 1..] == t;
  }

  /** Without an intruding name everything that is listed is the name's own. */
  lemma {:induction false} ListedIsOwn(folder: Folder, names: set<string>, name: string, f: string)
    requires OnlyVersions(folder, names) && f in folder && Listed(name, f)
    requires forall n :: n in names ==> !Intrudes(name, n)
    ensures Own(name, f)
  {
    var n, t :| n in names && IsStamp(t) && f == Versioned(n, t);
    ListedVersion(name, n, t);
    OwnVersion(name, t);
  }

  lemma {:induction false} SameLength(name: string, n: string, t: string)
    requires |n| == |name| && name + "_" <= Versioned(n, t)
    ensures n == name
  {
    assert n == Versioned(n, t)[..|n|] == (name + "_")[..|n|];
  }

  /** A version of another name is not the name's own. */
  lemma {:induction false} ForeignNotOwn(name: string, n: string, t: string)
    requires Intrudes(name, n) && IsStamp(t)
    ensures !Own(name, Versioned(n, t))
  {
    var v := Versioned(n, t);
    assert v[|n|] == '_';
    if |n| > |name| {
      if name + "_" <= v {
        assert v[|name| + 1..][|n| - |name| - 1] == v[|n|];
      }
    } else {
      if name + "_" <= v {
        SameLength(name, n, t);
      }
    }
  }

  /** One download of the intruding name, and its version is in use for `name`. */
  lemma {:induction false} ForeignVersion(name: string, other: string, a: Answer)
    requires Intrudes(name, other) && a.w == AllWritten && IsStamp(a.stamp)
    ensures var v := Versioned(other, a.stamp);
      IsNewest(StoreAll(map[], [(other, a)]), name, Some(v)) && !Own(name, v)
  {
    var v := Versioned(other, a.stamp);
    assert [(other, a)][1..] == [];
    assert StoreAll(map[], [(other, a)]) == map[v := a.data];
    ListedVersion(name, other, a.stamp);
    ForeignNotOwn(name, other, a.stamp);
    LeTotal(v, v);
  }

  const WITNESS := Answer("20240101000000UTC", "", AllWritten)

  lemma {:induction false} WitnessStamp()
    ensures IsStamp(WITNESS.stamp)
  {
  }

  /** The version in use for a name is always one of its own, whatever is downloaded
      in whichever order, exactly when no other name in the folder intrudes. */
  lemma {:induction false} OwnVersionsExactly(names: set<string>, name: string)
    ensures (forall answers, best | AnswersFor(names, answers) && IsNewest(StoreAll(map[], answers), name, best) ::
              best.Some? ==> Own(name, best.value))
       <==> forall n :: n in names ==> !Intrudes(name, n)
  {
    if forall n :: n in names ==> !Intrudes(name, n) {
      forall answers, best | AnswersFor(names, answers) && IsNewest(StoreAll(map[], answers), name, best)
        ensures best.Some? ==> Own(name, best.value)
      {
        StoresVersions(map[], names, answers);
        if best.Some? {
          ListedIsOwn(StoreAll(map[], answers), names, name, best.value);
        }
      }
    } else {
      var n :| n in names && Intrudes(name, n);
      WitnessStamp();
      ForeignVersion(name, n, WITNESS);
      assert AnswersFor(names, [(n, WITNESS)]);
    }
  }

  /** Where no other name intrudes, a version is used next as soon as its timestamp
      is above those of the name's own versions. */
  lemma {:induction false} NewestOwnIsUsed(folder: Folder, names: set<string>, name: string, a: Answer,
                                           after: Option<string>)
    requires OnlyVersions(folder, names) && forall n :: n in names ==> !Intrudes(name, n)
    requires a.w == AllWritten && Versioned(name, a.stamp) !in folder
    requires forall t :: Versioned(name, t) in folder ==> Le(t, a.stamp)
    requires IsNewest(Store(folder, name, a), name, after)
    ensures after == Some(Versioned(name, a.stamp))
  {
    forall f | f in folder && Listed(name, f) ensures Le(f, Versioned(name, a.stamp)) {
      ListedIsOwn(folder, names, name, f);
      var t := f[|name| + 1..];
      assert f == Versioned(name, t);
      LePrefix(name + "_", t, a.stamp);
    }
    NewestIsUsed(folder, name, a, after);
  }

  lemma {:induction false} LeSnoc(a: string, b: string, x: char, y: char)
    requires |a| == |b|
    ensures Le(a + [x], b + [y]) <==> (Le(a, b) && a != b) || (a == b && x <= y)
  {
    if a == "" {
      assert a + [x] == [x] && b + [y] == [y];
      assert [x][1..] == "";
    } else {
      assert (a + [x])[1..] == a[1..] + [x] && (b + [y])[1..] == b[1..] + [y];
      LeSnoc(a[1..], b[1..], x, y);
      assert a == [a[0]] + a[1..] && b == [b[0]] + b[1..];
    }
  }

  /** Rows of as many digits are ordered as their numbers. */
  lemma {:induction false} DigitsOrder(a: string, b: string)
    requires |a| == |b|
    requires AllDigits(a) && AllDigits(b)
    ensures Le(a, b) <==> ToInt(a) <= ToInt(b)
    ensures a == b <==> ToInt(a) == ToInt(b)
  {
    if a != "" {
      var n := |a| - 1;
      assert a == a[..n] + [a[n]] && b == b[..n] + [b[n]];
      DigitsOrder(a[..n], b[..n]);
      LeSnoc(a[..n], b[..n], a[n], b[n]);
    }
  }

  /** The time that a timestamp tells: year, month, day, hour, minute and second as one number. */
  function Time(t: string): nat
    requires IsStamp(t)
  {
    ToInt(t[..14])
  }

  lemma {:induction false} LePrefixes(a: string, b: string, x: string, y: string)
    requires |a| == |b| && a != b
    ensures Le(a + x, b + y) <==> Le(a, b)
  {
    assert a != "";
    assert (a + x)[1..] == a[1..] + x && (b + y)[1..] == b[1..] + y;
    if a[0] == b[0] {
      assert a == [a[0]] + a[1..] && b == [b[0]] + b[1..];
      LePrefixes(a[1..], b[1..], x, y);
    }
  }

  /** A later timestamp is above an earlier one. */
  lemma {:induction false} LaterIsAbove(s: string, t: string)
    requires IsStamp(s) && IsStamp(t) && Time(s) < Time(t)
    ensures Le(s, t) && !Le(t, s)
  {
    DigitsOrder(s[..14], t[..14]);
    DigitsOrder(t[..14], s[..14]);
    LePrefixes(s[..14], t[..14], s[14..], t[14..]);
    LePrefixes(t[..14], s[..14], t[14..], s[14..]);
    assert s == s[..14] + s[14..] && t == t[..14] + t[14..];
  }

  /** Where no other name intrudes, what was stored with a later time than every
      version of the name is in use next. */
  lemma {:induction false} LatestIsUsed(folder: Folder, names: set<string>, name: string, a: Answer,
                                        after: Option<string>)
    requires OnlyVersions(folder, names) && forall n :: n in names ==> !Intrudes(name, n)
    requires a.w == AllWritten && IsStamp(a.stamp)
    requires forall t :: Versioned(name, t) in folder ==> IsStamp(t) && Time(t) < Time(a.stamp)
    requires IsNewest(Store(folder, name, a), name, after)
    ensures after == Some(Versioned(name, a.stamp)) && Store(folder, name, a)[Versioned(name, a.stamp)] == a.data
  {
    forall t | Versioned(name, t) in folder ensures Le(t, a.stamp) {
      LaterIsAbove(t, a.stamp);
    }
    NewestOwnIsUsed(folder, names, name, a, after);
  }

  /** A version of a name that continues this one with an underscore and a small
      letter is listed for it, and wins over every version of its own. */
  lemma {:induction false} NamesInterfere(name: string, more: string, stamp: string, own: string)
    requires IsStamp(own) && more != "" && 'a' <= more[0] <= 'z'
    ensures Listed(name, Versioned(name + "_" + more, stamp))
    ensures Le(Versioned(name, own), Versioned(name + "_" + more, stamp))
    ensures !Le(Versioned(name + "_" + more, stamp), Versioned(name, own))
  {
    var tail := more + "_" + stamp;
    assert Versioned(name + "_" + more, stamp) == name + "_" + tail;
    VersionListed(name, tail);
    LePrefix(name + "_", own, tail);
    LePrefix(name + "_", tail, own);
  }
}
