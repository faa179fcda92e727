/** How headings, directives, options and entries are written in a file. */
module RstLines {
  import opened Strings
  import opened Wrappers
  import opened Headings
  import opened Flatten
  import PathNames

  predicate Underline(line: string, c: char, n: nat, white: string) {
    c in MAIN && n >= 3 && AllSpace(white) && line == Repeat(c, n) + white
  }

  lemma {:induction false} UnderlineIsHeader(line: string, c: char, n: nat, white: string)
    requires Underline(line, c, n, white)
    ensures IsHeader(line) && line[0] == c
  {
    MainChars(c);
    assert Repeat(c, n)[n - 1] == c;
    StripRightIs(Repeat(c, n), white);
  }

  /** A heading is three or more of one heading character and white space behind them. */
  lemma {:induction false} HeaderExactly(line: string)
    ensures IsHeader(line) <==> exists c, n, white :: Underline(line, c, n, white)
  {
    if IsHeader(line) {
      var white := StripRightSplits(line);
      var t := StripRight(line);
      StripKeepsHeader(line);
      assert t == Repeat(line[0], |t|);
      assert Underline(line, line[0], |t|, white);
    } else {
      forall c, n, white ensures !Underline(line, c, n, white) {
        if Underline(line, c, n, white) {
          UnderlineIsHeader(line, c, n, white);
        }
      }
    }
  }

  lemma {:induction false} Behind(p: string, t: string, s: string)
    ensures p <= s && s[|p|..] == t <==> s == p + t
  {
    if p <= s {
      assert s == p + s[|p|..];
    }
  }

  /** The path of an include directive is what stands behind it, white space aside. */
  lemma {:induction false} IncludeExactly(line: string, path: string)
    ensures IncludePath(line) == Some(path) <==> exists a, b :: Trimmed(line, a, ".. include:: " + path, b)
  {
    StripExactly(line, ".. include:: " + path);
    Behind(".. include:: ", path, Strip(line));
  }

  lemma {:induction false} CaptionExactly(line: string, text: string)
    ensures CaptionOf(line) == Some(text) <==> exists a, b :: Trimmed(line, a, ":caption: " + text, b)
  {
    StripExactly(line, ":caption: " + text);
    Behind(":caption: ", text, Strip(line));
  }

  /** An entry names the file with the extension behind it; a blank line names none. */
  lemma {:induction false} EntryExactly(line: string, name: string)
    ensures name != "" ==> (EntryOf(line) == Some(name + ".rst") <==> exists a, b :: Trimmed(line, a, name, b))
    ensures EntryOf(line).None? <==> AllSpace(line)
  {
    StripExactly(line, name);
    BlankExactly(line);
    if EntryOf(line) == Some(name + ".rst") {
      assert (name + ".rst")[..|name|] == name;
      assert (Strip(line) + ".rst")[..|Strip(line)|] == Strip(line);
    }
  }

  // ---- what a line is ----

  /** The line begins with `p` once the white space in front is off. */
  ghost predicate Begins(line: string, p: string) {
    exists white, rest :: AllSpace(white) && line == white + (p + rest)
  }

  predicate Solid(p: string) {
    p != "" && !IsSpace(p[0]) && !IsSpace(p[|p| - 1])
  }

  lemma {:induction false} SolidKept(p: string, rest: string)
    requires Solid(p)
    ensures p <= StripRight(p + rest)
    decreases |rest|
  {
    if rest == "" {
      assert p + rest == p;
    } else if IsSpace(rest[|rest| - 1]) {
      assert (p + rest)[..|p + rest| - 1] == p + rest[..|rest| - 1];
      SolidKept(p, rest[..|rest| - 1]);
    }
  }

  lemma {:induction false} BeginsStripped(line: string, p: string, white: string, rest: string)
    requires Solid(p) && AllSpace(white) && line == white + (p + rest)
    ensures p <= Strip(line)
  {
    StripLeftIs(white, p + rest);
    SolidKept(p, rest);
  }

  lemma {:induction false} StrippedBegins(line: string, p: string, a: string, t: string, b: string)
    requires line == a + t + b && AllSpace(a) && p <= t
    ensures Begins(line, p)
  {
    Behind(p, t[|p|..], t);
    assert line == a + (p + (t[|p|..] + b));
  }

  lemma {:induction false} BeginsExactly(line: string, p: string)
    requires Solid(p)
    ensures p <= Strip(line) <==> Begins(line, p)
  {
    if p <= Strip(line) {
      var a, b := StripTrims(line);
      StrippedBegins(line, p, a, Strip(line), b);
    }
    if Begins(line, p) {
      var white, rest :| AllSpace(white) && line == white + (p + rest);
      BeginsStripped(line, p, white, rest);
    }
  }

  /** How each kind of line is told: headings first, then toctrees, then includes; and
      a line that is no directive keeps its text but for white space at its end. */
  lemma {:induction false} LineExactly(line: string)
    ensures LineOf(line).Heading? <==> IsHeader(line)
    ensures LineOf(line).TreeDirective? <==> !IsHeader(line) && Begins(line, ".. toctree::")
    ensures LineOf(line).IncludeDirective? <==>
      !IsHeader(line) && !Begins(line, ".. toctree::") && Begins(line, ".. include::")
    ensures LineOf(line).IncludeDirective? ==> LineOf(line).file == IncludePath(line)
    ensures IsHeader(line) ==> LineOf(line).level < |MAIN| && MAIN[LineOf(line).level] == line[0]
    ensures LineOf(line).Heading? || LineOf(line).Plain? ==>
      exists white :: AllSpace(white) && NoSpaceAtEnd(LineOf(line).text) && line == LineOf(line).text + white
  {
    BeginsExactly(line, ".. toctree::");
    BeginsExactly(line, ".. include::");
    if LineOf(line).Heading? || LineOf(line).Plain? {
      var white := StripRightSplits(line);
    }
  }

  /** Line `k` has the caption and no line behind it has one. */
  ghost predicate LastCaption(input: Input, lines: seq<string>, k: nat, end: nat, text: string) {
    k < end <= |lines| && input.caption(lines[k]) == Some(text)
    && forall m :: k < m < end ==> input.caption(lines[m]).None?
  }

  /** The caption of a toctree is that of the last caption option before the blank line. */
  lemma {:induction false} CaptionIsLast(input: Input, lines: seq<string>, i: nat, end: nat) returns (k: nat)
    requires i <= end <= |lines|
    ensures Caption(input, lines, i, end).None? ==> forall m :: i <= m < end ==> input.caption(lines[m]).None?
    ensures Caption(input, lines, i, end).Some? ==>
      i <= k && LastCaption(input, lines, k, end, Caption(input, lines, i, end).value)
    decreases end - i
  {
    k := i;
    if i < end {
      var later := CaptionIsLast(input, lines, i + 1, end);
      if Caption(input, lines, i + 1, end).Some? {
        k := later;
      }
    }
  }

  // ---- paths ----

  /** A name is resolved in the folder of the file that names it. */
  lemma {:induction false} ResolveInFolder(dir: string, base: string, name: string)
    requires PathNames.Unslashed(base) && !("/" <= name) && dir != "" && dir[|dir| - 1] != '/'
    ensures Resolve(dir + "/" + base, name) == dir + "/" + name
  {
    PathNames.SplitOf(dir, base);
    SlashFirst(name);
  }

  lemma {:induction false} SlashFirst(name: string)
    ensures "/" <= name <==> name != "" && name[0] == '/'
  {
    if name != "" && name[0] == '/' {
      assert name[..1] == "/";
    }
  }

  lemma {:induction false} NoSlashHead(base: string)
    requires PathNames.Unslashed(base)
    ensures PathNames.LastSlash(base) == 0 && PathNames.Head(base) == ""
  {
    if base != "" {
      NoSlashHead(base[..|base| - 1]);
    }
  }

  lemma {:induction false} RootHead(base: string)
    requires PathNames.Unslashed(base)
    ensures PathNames.LastSlash("/" + base) == 1 && PathNames.Head("/" + base) == "/"
    decreases |base|
  {
    if base == "" {
      assert "/" + base == "/";
    } else {
      RootHead(base[..|base| - 1]);
      assert ("/" + base)[..|base|] == "/" + base[..|base| - 1];
    }
    assert ("/" + base)[..1] == "/" && "/"[..0] == "";
  }

  /** A file in the root names others in the root. */
  lemma {:induction false} ResolveInRoot(base: string, name: string)
    requires PathNames.Unslashed(base) && !("/" <= name)
    ensures Resolve("/" + base, name) == "/" + name
  {
    RootHead(base);
    SlashFirst(name);
  }

  /** A file without a folder names others as they are; an absolute name stays. */
  lemma {:induction false} ResolveElsewhere(base: string, name: string)
    requires PathNames.Unslashed(base)
    ensures Resolve(base, name) == name
    ensures forall parent :: "/" <= name ==> Resolve(parent, name) == name
  {
    NoSlashHead(base);
    SlashFirst(name);
    assert "" + name == name;
  }
}
