/** The updatable file as an object, and the provider that shares one object per key. */
module FileObjects {
  import opened Wrappers
  import D = Downloader
  import opened Files
  import C = FileCache

  class UpdatableFile {
    const section: string
    const name: string
    /** The section's cache folder, empty if there is none. */
    const dir: string
    const url: string
    var defaultPath: string
    var updateRunning: bool
    var connected: bool
    var dirty: bool

    constructor (section: string, name: string, defaultPath: string, dir: string, base: string)
      ensures this.section == section && this.name == name && this.defaultPath == defaultPath && this.dir == dir
      ensures Value() == File(name != "", dir != "", base + UrlPath(section, name), false, false, false)
    {
      this.section, this.name, this.defaultPath, this.dir := section, name, defaultPath, dir;
      url := base + UrlPath(section, name);
      updateRunning, connected, dirty := false, false, false;
    }

    function Value(): File
      reads this
    {
      File(name != "", dir != "", url, updateRunning, connected, dirty)
    }

    method SetDefaultPath(path: string)
      modifies this`defaultPath
      ensures defaultPath == path
    {
      if defaultPath != path {
        defaultPath := path;
      }
    }

    /** Starts an update unless one is running: connect, then ask the downloader. */
    method Update(downloader: D.DownloaderObject)
      requires downloader.Valid()
      modifies this, downloader
      ensures downloader.Valid() && Value() == Started(old(Value()))
      ensures downloader.Value() ==
        if !old(updateRunning) && name != "" then D.Schedule(old(downloader.Value()), url) else old(downloader.Value())
      ensures defaultPath == old(defaultPath)
    {
      if !updateRunning && name != "" {
        updateRunning := true;
        connected := true;
        downloader.ScheduleDownload(url);
      }
    }

    method CleanupAfterUpdate(clear: bool)
      modifies this
      ensures Value() == CleanedUp(old(Value()), clear) && defaultPath == old(defaultPath)
    {
      connected := false;
      if clear && dir != "" {
        dirty := false;
      }
      updateRunning := false;
    }

    /** Data arrived: it is stored under its timestamp and the update ends.  `updated`
        tells whether the file's own signal goes out; its receivers are not here. */
    method OnDownloadSuccess(signal: string, answer: C.Answer, folder: C.CacheFolder) returns (updated: bool)
      modifies this, folder
      ensures Value() == if signal == url then CleanedUp(old(Value()), true) else old(Value())
      ensures folder.files == if signal == url then C.Store(old(folder.files), name, answer) else old(folder.files)
      ensures updated <==> signal == url && C.Versioned(name, answer.stamp) in folder.files
      ensures defaultPath == old(defaultPath)
    {
      updated := false;
      if signal == url {
        updated := folder.WriteDataToFile(answer.data, C.Versioned(name, answer.stamp), answer.w);
        CleanupAfterUpdate(true);
      }
    }

    method OnDownloadFailed(signal: string)
      modifies this
      ensures Value() == if signal == url then CleanedUp(old(Value()), false) else old(Value())
      ensures defaultPath == old(defaultPath)
    {
      if signal == url {
        CleanupAfterUpdate(false);
      }
    }

    method OnDownloadUnnecessary(signal: string)
      modifies this
      ensures Value() == if signal == url then CleanedUp(old(Value()), true) else old(Value())
      ensures defaultPath == old(defaultPath)
    {
      if signal == url {
        CleanupAfterUpdate(true);
      }
    }

    /** `isDirty` */
    predicate IsDirty()
      reads this
    {
      name != "" && dirty
    }

    /** The path in use, given the cache folder's listing.  A lookup of a dirty file
        starts an update. */
    method LookupPath(folder: C.Folder, entries: seq<string>, resource: Option<string>,
                      downloader: D.DownloaderObject)
      returns (path: string, ghost cache: Option<string>)
      requires downloader.Valid() && forall f :: f in entries <==> f in folder
      modifies this, downloader
      ensures name != "" ==> C.IsNewest(folder, name, cache)
      ensures path == C.LookupPath(C.Places(name != "", C.InFolder(dir, cache), resource, old(defaultPath)))
      ensures downloader.Valid() && defaultPath == old(defaultPath)
      ensures Value() == if old(IsDirty()) then Started(old(Value())) else old(Value())
      ensures downloader.Value() ==
        if old(IsDirty() && !updateRunning) then D.Schedule(old(downloader.Value()), url) else old(downloader.Value())
    {
      cache := None;
      if name == "" {
        return defaultPath, cache;
      }
      var newest := C.CachePath(folder, entries, name);
      cache := newest;
      if newest.None? {
        path := if resource.None? then defaultPath else resource.value;
      } else {
        path := dir + "/" + newest.value;
      }
      if IsDirty() {
        Update(downloader);
      }
    }

    /** Offers the candidates in order until one is valid, and gives that one. */
    method ForEachLookupPath(folder: C.Folder, entries: seq<string>, resource: Option<string>, valid: string -> bool,
                             downloader: D.DownloaderObject)
      returns (accepted: Option<string>, ghost cache: Option<string>)
      requires downloader.Valid() && forall f :: f in entries <==> f in folder
      modifies this, downloader
      ensures name != "" ==> C.IsNewest(folder, name, cache)
      ensures C.FirstValid(C.Candidates(C.Places(name != "", C.InFolder(dir, cache), resource, old(defaultPath))),
                           valid, accepted)
      ensures downloader.Valid() && defaultPath == old(defaultPath)
      ensures Value() == if old(IsDirty()) then Started(old(Value())) else old(Value())
      ensures downloader.Value() ==
        if old(IsDirty() && !updateRunning) then D.Schedule(old(downloader.Value()), url) else old(downloader.Value())
    {
      cache := None;
      var paths: seq<string> := [];
      if defaultPath != "" {
        paths := [defaultPath];
      }
      if name != "" {
        if resource.Some? {
          paths := [resource.value] + paths;
        }
        var newest := C.CachePath(folder, entries, name);
        cache := newest;
        if newest.Some? {
          paths := [dir + "/" + newest.value] + paths;
        }
        if IsDirty() {
          Update(downloader);
        }
      }
      accepted := AnyOf(paths, valid);
    }

    method MarkDirty()
      modifies this
      ensures Value() == Marked(old(Value())) && defaultPath == old(defaultPath)
    {
      if name == "" || dir == "" {
        return;
      }
      dirty := true;
    }
  }

  /** Marks the icons of all readers: the update of the reader table asks for it. */
  method MarkAllDirty(icons: seq<UpdatableFile>)
    modifies icons
    ensures forall k :: 0 <= k < |icons| ==> icons[k].Value() == Marked(old(icons[k].Value()))
    ensures forall k :: 0 <= k < |icons| ==> icons[k].defaultPath == old(icons[k].defaultPath)
  {
    for i := 0 to |icons|
      invariant forall k :: 0 <= k < |icons| ==>
        icons[k].Value() == old(icons[k].Value()) || icons[k].Value() == Marked(old(icons[k].Value()))
      invariant forall k :: 0 <= k < i ==> icons[k].Value() == Marked(old(icons[k].Value()))
      invariant forall k :: 0 <= k < |icons| ==> icons[k].defaultPath == old(icons[k].defaultPath)
    {
      icons[i].MarkDirty();
    }
  }

  /** `std::any_of` over the paths. */
  method AnyOf(paths: seq<string>, valid: string -> bool) returns (accepted: Option<string>)
    ensures C.FirstValid(paths, valid, accepted)
  {
    for i := 0 to |paths|
      invariant forall k :: 0 <= k < i ==> !valid(paths[k])
    {
      if valid(paths[i]) {
        return Some(paths[i]);
      }
    }
    return None;
  }

  function Key(section: string, name: string): string {
    section + "/" + name
  }

  /** What follows the server's base URL. */
  function UrlPath(section: string, name: string): string {
    (if section == "" then "" else "/" + section) + "/" + name
  }

  /** Different keys share a URL exactly when one has no section and its name
      spells the other key. */
  lemma {:induction false} SharedUrl(s1: string, n1: string, s2: string, n2: string)
    ensures UrlPath(s1, n1) == UrlPath(s2, n2) && Key(s1, n1) != Key(s2, n2)
       <==> (s1 == "" && s2 != "" && n1 == Key(s2, n2)) || (s2 == "" && s1 != "" && n2 == Key(s1, n1))
  {
    UrlOfKey(s1, n1);
    UrlOfKey(s2, n2);
    SlashInjective(n1, Key(s2, n2));
    SlashInjective(n2, Key(s1, n1));
    SlashInjective(Key(s1, n1), Key(s2, n2));
    if s1 == "" && s2 != "" && n1 == Key(s2, n2) {
      assert |Key(s1, n1)| == 1 + |Key(s2, n2)|;
    }
    if s2 == "" && s1 != "" && n2 == Key(s1, n1) {
      assert |Key(s2, n2)| == 1 + |Key(s1, n1)|;
    }
  }

  lemma {:induction false} UrlOfKey(s: string, n: string)
    ensures UrlPath(s, n) == if s == "" then "/" + n else "/" + Key(s, n)
    ensures s == "" ==> Key(s, n) == "/" + n
  {
  }

  lemma {:induction false} SlashInjective(a: string, b: string)
    ensures "/" + a == "/" + b <==> a == b
  {
    assert ("/" + a)[1..] == a && ("/" + b)[1..] == b;
  }

  // ---- keys and the match of updates and downloads ----

  /** A new file, before anything happens to it. */
  function FileFor(base: string, key: (string, string), cached: bool): File {
    File(key.1 != "", cached, base + UrlPath(key.0, key.1), false, false, false)
  }

  function FilesFor(base: string, keys: seq<(string, string)>, cached: bool): (files: seq<File>)
    ensures |files| == |keys|
    ensures forall i {:trigger files[i]} {:trigger keys[i]} :: 0 <= i < |keys| ==>
      files[i] == FileFor(base, keys[i], cached)
  {
    if keys == [] then [] else [FileFor(base, keys[0], cached)] + FilesFor(base, keys[1..], cached)
  }

  /** The key has no section and its name spells the other key. */
  predicate Spells(k: (string, string), other: (string, string)) {
    k.0 == "" && other.0 != "" && k.1 == Key(other.0, other.1)
  }

  lemma {:induction false} BaseInjective(base: string, a: string, b: string)
    ensures base + a == base + b <==> a == b
  {
    assert (base + a)[|base|..] == a && (base + b)[|base|..] == b;
  }

  lemma {:induction false} SameUrlSpells(base: string, a: (string, string), b: (string, string), cached: bool)
    requires Key(a.0, a.1) != Key(b.0, b.1)
    ensures FileFor(base, a, cached).url == FileFor(base, b, cached).url <==> Spells(a, b) || Spells(b, a)
  {
    SharedUrl(a.0, a.1, b.0, b.1);
    BaseInjective(base, UrlPath(a.0, a.1), UrlPath(b.0, b.1));
  }

  predicate DistinctKeys(keys: seq<(string, string)>) {
    forall i, k :: 0 <= i < k < |keys| ==> Key(keys[i].0, keys[i].1) != Key(keys[k].0, keys[k].1)
  }

  /** Some key without section spells another one; both name a file. */
  predicate Ambiguous(keys: seq<(string, string)>) {
    exists i, k :: 0 <= i < |keys| && 0 <= k < |keys| && i != k && keys[i].1 != "" && keys[k].1 != ""
      && Spells(keys[i], keys[k])
  }

  lemma {:induction false} KeysDistinct(base: string, keys: seq<(string, string)>, cached: bool)
    requires DistinctKeys(keys)
    ensures DistinctUrls(FilesFor(base, keys, cached)) <==> !Ambiguous(keys)
  {
    var files := FilesFor(base, keys, cached);
    forall i, k | 0 <= i < k < |keys|
      ensures files[i].url == files[k].url <==> Spells(keys[i], keys[k]) || Spells(keys[k], keys[i])
    {
      SameUrlSpells(base, keys[i], keys[k], cached);
    }
    if Ambiguous(keys) {
      var i, k :| 0 <= i < |keys| && 0 <= k < |keys| && i != k && keys[i].1 != "" && keys[k].1 != ""
        && Spells(keys[i], keys[k]);
      var a, b := if i < k then i else k, if i < k then k else i;
      assert files[a].url == files[b].url && files[a].named && files[b].named;
    }
    if !DistinctUrls(files) {
      var i, k :| 0 <= i < k < |files| && files[i].named && files[k].named && files[i].url == files[k].url;
      assert Spells(keys[i], keys[k]) || Spells(keys[k], keys[i]);
    }
  }

  /** For the files of a provider, one for each key, the match of updates and
      downloads holds after every run exactly when no key without section spells
      another one. */
  lemma {:induction false} KeysMatchExactly(base: string, keys: seq<(string, string)>, cached: bool)
    requires DistinctKeys(keys)
    ensures (forall es :: Matched(Evolve(System(D.INIT, FilesFor(base, keys, cached)), es))) <==> !Ambiguous(keys)
  {
    KeysDistinct(base, keys, cached);
    FilesIdle(base, keys, cached);
    MatchExactly(FilesFor(base, keys, cached));
  }

  lemma {:induction false} FilesIdle(base: string, keys: seq<(string, string)>, cached: bool)
    ensures Idle(FilesFor(base, keys, cached))
  {
  }

  class FileProvider {
    var files: map<string, UpdatableFile>
    const base: string

    constructor (base: string)
      ensures files == map[] && Valid() && this.base == base
    {
      files := map[];
      this.base := base;
    }

    /** Every stored file stands under its own key and has a name. */
    predicate Valid()
      reads this
    {
      forall k :: k in files ==> files[k].name != "" && Key(files[k].section, files[k].name) == k
    }

    /** One object per key: a known key gives the stored object with the new
        default path; a new one gives a new object, stored unless it has no name.
        `dir` is the new file's cache folder. */
    method GetFile(section: string, name: string, defaultPath: string, dir: string) returns (f: UpdatableFile)
      requires Valid()
      modifies this, if Key(section, name) in files then {files[Key(section, name)]} else {}
      ensures Valid() && f.defaultPath == defaultPath
      ensures Key(section, name) in old(files) ==> f == old(files)[Key(section, name)] && files == old(files)
      ensures Key(section, name) in old(files) ==> f.Value() == old(files[Key(section, name)].Value())
      ensures Key(section, name) !in old(files) ==> fresh(f) && f.name == name && f.section == section
      ensures Key(section, name) !in old(files) ==>
        f.dir == dir && f.Value() == FileFor(base, (section, name), dir != "")
      ensures Key(section, name) !in old(files) ==>
        files == if name == "" then old(files) else old(files)[Key(section, name) := f]
    {
      var key := Key(section, name);
      if key !in files {
        f := new UpdatableFile(section, name, defaultPath, dir, base);
        if name != "" {
          files := files[key := f];
        }
      } else {
        f := files[key];
        f.SetDefaultPath(defaultPath);
      }
    }
  }
}
