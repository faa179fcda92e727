/** How the lines of a patch may be written: hunk headers, file names, body lines. */
module PatchSpelling {
  import opened Strings
  import opened Wrappers
  import opened Hunks
  import opened PatchLines

  // ---- numbers ----

  /** `n` followed by `k` zeros. */
  function Shifted(n: nat, k: nat): nat {
    if k == 0 then n else 10 * Shifted(n, k - 1)
  }

  /** Digits count by their place. */
  lemma {:induction false} ToIntPlaces(a: string, b: string)
    requires AllDigits(a) && AllDigits(b)
    ensures AllDigits(a + b) && ToInt(a + b) == Shifted(ToInt(a), |b|) + ToInt(b)
  {
    if b == "" {
      assert a + b == a;
    } else {
      ToIntPlaces(a, b[..|b| - 1]);
      assert (a + b)[..|a + b| - 1] == a + b[..|b| - 1];
    }
  }

  lemma {:induction false} ToIntDigit(c: char)
    requires IsDigit(c)
    ensures AllDigits([c]) && ToInt([c]) == c as int - '0' as int
  {
    assert [c][..0] == "";
  }

  /** One digit or more that stand for the number. */
  predicate Numeral(s: string, n: nat) {
    s != "" && AllDigits(s) && ToInt(s) == n
  }

  lemma {:induction false} SpanPrefix(s: string, rest: string, f: char -> bool)
    requires forall i :: 0 <= i < |s| ==> f(s[i])
    requires rest == "" || !f(rest[0])
    ensures Span(s + rest, f) == |s|
  {
    if s == "" {
      assert s + rest == rest;
    } else {
      assert (s + rest)[1..] == s[1..] + rest;
      SpanPrefix(s[1..], rest, f);
    }
  }

  // ---- ranges ----

  /** `start` or `start,lines`; a count of one line may be left out. */
  ghost predicate RangeSpelled(s: string, start: nat, lines: nat) {
    || (Numeral(s, start) && lines == 1)
    || exists a, b :: s == WithCount(a, b) && Numeral(a, start) && Numeral(b, lines)
  }

  function WithCount(a: string, b: string): string {
    a + ("," + b)
  }

  predicate EndsRange(rest: string) {
    rest == "" || (!IsDigit(rest[0]) && rest[0] != ',')
  }

  lemma {:induction false} BareRangeReads(s: string, start: nat, rest: string)
    requires Numeral(s, start) && EndsRange(rest)
    ensures ParseRange(s + rest) == Some((start, 1, rest))
  {
    SpanPrefix(s, rest, IsDigit);
    assert (s + rest)[..|s|] == s && (s + rest)[|s|..] == rest;
  }

  lemma {:induction false} FullRangeReads(a: string, b: string, start: nat, lines: nat, rest: string)
    requires Numeral(a, start) && Numeral(b, lines) && EndsRange(rest)
    ensures ParseRange(WithCount(a, b) + rest) == Some((start, lines, rest))
  {
    var tail := "," + b + rest;
    assert WithCount(a, b) + rest == a + tail;
    SpanPrefix(a, tail, IsDigit);
    assert (a + tail)[..|a|] == a && (a + tail)[|a|..] == tail && tail[1..] == b + rest;
    SpanPrefix(b, rest, IsDigit);
    assert (b + rest)[..|b|] == b && (b + rest)[|b|..] == rest;
  }

  lemma {:induction false} RangeReads(s: string, start: nat, lines: nat, rest: string)
    requires RangeSpelled(s, start, lines) && EndsRange(rest)
    ensures ParseRange(s + rest) == Some((start, lines, rest))
  {
    if Numeral(s, start) && lines == 1 {
      BareRangeReads(s, start, rest);
    } else {
      var a, b :| s == WithCount(a, b) && Numeral(a, start) && Numeral(b, lines);
      FullRangeReads(a, b, start, lines, rest);
    }
  }

  /** What was read as a range is spelled as one. */
  lemma {:induction false} ReadIsRange(s: string) returns (r: string)
    requires ParseRange(s).Some?
    ensures var (start, lines, rest) := ParseRange(s).value;
      s == r + rest && RangeSpelled(r, start, lines)
  {
    var n := Span(s, IsDigit);
    var a, t := s[..n], s[n..];
    if t == "" || t[0] != ',' || Span(t[1..], IsDigit) == 0 {
      r := a;
      assert s == a + t;
    } else {
      var b := t[1..][..Span(t[1..], IsDigit)];
      r := WithCount(a, b);
      assert Numeral(a, ToInt(a)) && Numeral(b, ToInt(b));
      assert t == "," + b + t[1..][|b|..];
      assert s == a + t;
    }
  }

  // ---- descriptions ----

  predicate NoFeedIn(s: string) {
    forall i :: 0 <= i < |s| ==> s[i] != '\n'
  }

  /** The description stands behind one byte of any kind, up to white space and the
      end of the line. */
  predicate Described(rest: string, first: string, desc: string, white: string, tail: string) {
    && rest == first + desc + white + tail
    && NoFeedIn(first + desc + white) && (tail == "" || tail[0] == '\n')
    && |first| <= 1 && (first == "" ==> desc == "" && white == "")
    && NoSpaceAtEnd(desc) && AllSpace(white)
  }

  ghost predicate DescriptionSpelled(rest: string, desc: string) {
    exists first, white, tail :: Described(rest, first, desc, white, tail)
  }

  function NotFeed(): char -> bool {
    (c: char) => c != '\n'
  }

  lemma {:induction false} SameSpan(s: string, f: char -> bool, g: char -> bool)
    requires forall c :: f(c) == g(c)
    ensures Span(s, f) == Span(s, g)
  {
    if s != "" && f(s[0]) {
      SameSpan(s[1..], f, g);
    }
  }

  lemma {:induction false} DescriptionIs(s: string)
    ensures var n := Span(s, NotFeed()); Description(s) == if n == 0 then "" else StripRight(s[1..n])
  {
    SameSpan(s, NotFeed(), c => c != '\n');
  }

  lemma {:induction false} DescriptionReads(rest: string, first: string, desc: string, white: string, tail: string)
    requires Described(rest, first, desc, white, tail)
    ensures Description(rest) == desc
  {
    var line := first + desc + white;
    DescriptionIs(rest);
    assert rest == line + tail;
    SpanPrefix(line, tail, NotFeed());
    if first != "" {
      assert rest[1..|line|] == desc + white;
      StripRightIs(desc, white);
    } else {
      assert line == "";
    }
  }

  /** The line up to its feed is a byte, the description and white space. */
  lemma {:induction false} LineIsDescribed(line: string, tail: string, white: string)
    requires line != "" && NoFeedIn(line) && (tail == "" || tail[0] == '\n')
    requires line[1..] == StripRight(line[1..]) + white && AllSpace(white) && NoSpaceAtEnd(StripRight(line[1..]))
    ensures Described(line + tail, line[..1], StripRight(line[1..]), white, tail)
  {
    assert line == line[..1] + line[1..];
    assert line[..1] + StripRight(line[1..]) + white == line;
  }

  lemma {:induction false} ReadIsDescription(rest: string)
    ensures DescriptionSpelled(rest, Description(rest))
  {
    var n := Span(rest, NotFeed());
    var line, tail := rest[..n], rest[n..];
    DescriptionIs(rest);
    assert rest == line + tail;
    if n == 0 {
      assert Described(rest, "", "", "", rest);
    } else {
      assert rest[1..n] == line[1..];
      var white := StripRightSplits(line[1..]);
      LineIsDescribed(line, tail, white);
    }
  }

  /** A hunk header is read exactly when it is written as one, with either count left
      out or not, and with any description; it gives what is written. */
  ghost predicate HeaderSpelled(line: string, h: Hunk) {
    exists r0, r1, rest :: line == HeaderText(r0, r1, rest) && HeaderParts(r0, r1, rest, h)
  }

  function HeaderText(r0: string, r1: string, rest: string): string {
    "@@ -" + (r0 + (" +" + (r1 + (" @@" + rest))))
  }

  ghost predicate HeaderParts(r0: string, r1: string, rest: string, h: Hunk) {
    && RangeSpelled(r0, h.startSrc, h.linesSrc) && RangeSpelled(r1, h.startTgt, h.linesTgt)
    && DescriptionSpelled(rest, h.desc) && !h.invalid && h.text == []
  }

  lemma {:induction false} PrefixDrop(p: string, s: string)
    ensures p <= p + s && (p + s)[|p|..] == s && (p + s)[..|p|] == p
  {
  }

  /** The three parts of a header, each read. */
  lemma {:induction false} PartsRead(a: nat, b: nat, c: nat, d: nat, x0: string, x1: string, rest: string)
    requires ParseRange(x0) == Some((a, b, " +" + x1)) && ParseRange(x1) == Some((c, d, " @@" + rest))
    ensures ParseHeader("@@ -" + x0) == Some(Hunk(a, b, c, d, false, Description(rest), []))
  {
    PrefixDrop("@@ -", x0);
    PrefixDrop(" +", x1);
    PrefixDrop(" @@", rest);
  }

  lemma {:induction false} SpelledReads(r0: string, r1: string, rest: string, h: Hunk)
    requires HeaderParts(r0, r1, rest, h)
    ensures ParseHeader(HeaderText(r0, r1, rest)) == Some(h)
  {
    var x1 := r1 + (" @@" + rest);
    RangeReads(r0, h.startSrc, h.linesSrc, " +" + x1);
    RangeReads(r1, h.startTgt, h.linesTgt, " @@" + rest);
    var first, white, tail :| Described(rest, first, h.desc, white, tail);
    DescriptionReads(rest, first, h.desc, white, tail);
    PartsRead(h.startSrc, h.linesSrc, h.startTgt, h.linesTgt, r0 + (" +" + x1), x1, rest);
  }

  lemma {:induction false} TakePrefix(p: string, s: string)
    requires p <= s
    ensures s == p + s[|p|..]
  {
  }

  lemma {:induction false} ReadIsSpelled(line: string, h: Hunk)
    requires ParseHeader(line) == Some(h)
    ensures HeaderSpelled(line, h)
  {
    var x0 := line[4..];
    TakePrefix("@@ -", line);
    var r0 := ReadIsRange(x0);
    var t0 := ParseRange(x0).value.2;
    TakePrefix(" +", t0);
    var x1 := t0[2..];
    var r1 := ReadIsRange(x1);
    var t1 := ParseRange(x1).value.2;
    TakePrefix(" @@", t1);
    ReadIsDescription(t1[3..]);
    assert line == HeaderText(r0, r1, t1[3..]) && HeaderParts(r0, r1, t1[3..], h);
  }

  lemma {:induction false} HeaderExactly(line: string, h: Hunk)
    ensures ParseHeader(line) == Some(h) <==> HeaderSpelled(line, h)
  {
    if HeaderSpelled(line, h) {
      var r0, r1, rest :| line == HeaderText(r0, r1, rest) && HeaderParts(r0, r1, rest, h);
      SpelledReads(r0, r1, rest, h);
    }
    if ParseHeader(line) == Some(h) {
      ReadIsSpelled(line, h);
    }
  }

  // ---- file names ----

  function HourChars(): char -> bool {
    (c: char) => IsDigit(c) || c == ':'
  }

  function DateChars(): char -> bool {
    (c: char) => IsDigit(c) || c == '-'
  }

  /** A tab, one of two dates, white space and a full hour of any number. */
  predicate Stamp(tail: string, date: string, space: char, hour: string, rest: string) {
    && tail == "\t" + (date + ([space] + (hour + (":00:00" + rest))))
    && (date == "1970-01-01" || date == "1969-12-31") && IsSpace(space) && AllDigits(hour)
    && (rest == "" || !HourChars()(rest[0]))
  }

  ghost predicate EpochSpelled(tail: string) {
    exists date, space, hour, rest :: Stamp(tail, date, space, hour, rest)
  }

  lemma {:induction false} TimeReads(hour: string, rest: string)
    requires AllDigits(hour) && (rest == "" || !HourChars()(rest[0]))
    ensures var t := hour + (":00:00" + rest);
      var time := t[..Span(t, HourChars())];
      time == hour + ":00:00" && Span(time, IsDigit) == |hour|
  {
    var t, time := hour + (":00:00" + rest), hour + ":00:00";
    assert t == time + rest;
    SpanPrefix(time, rest, HourChars());
    SpanPrefix(hour, ":00:00", IsDigit);
  }

  /** The same test with the time cut out. */
  predicate EpochTime(t: string) {
    var time := t[..Span(t, HourChars())];
    var hour := Span(time, IsDigit);
    hour < |time| && time[hour + 1..] == "00:00"
  }

  lemma {:induction false} EpochIs(s: string)
    requires s != ""
    ensures var d := s[1..];
      var n := Span(d, DateChars());
      EpochStamp(s) <==>
        n < |d| && (d[..n] == "1970-01-01" || d[..n] == "1969-12-31") && IsSpace(d[n]) && EpochTime(d[n + 1..])
  {
    var d := s[1..];
    SameSpan(d, DateChars(), c => IsDigit(c) || c == '-');
    var n := Span(d, DateChars());
    if n < |d| {
      SameSpan(d[n + 1..], HourChars(), c => IsDigit(c) || c == ':');
    }
  }

  lemma {:induction false} TimeSpelled(t: string) returns (hour: string, rest: string)
    requires EpochTime(t)
    ensures t == hour + (":00:00" + rest) && AllDigits(hour) && (rest == "" || !HourChars()(rest[0]))
  {
    var n := Span(t, HourChars());
    var time := t[..n];
    hour, rest := time[..Span(time, IsDigit)], t[n..];
    var k := |hour|;
    assert HourChars()(time[k]) && time[k] == ':';
    assert time == hour + [time[k]] + time[k + 1..];
    assert t == time + rest;
  }

  lemma {:induction false} TimeIsEpoch(hour: string, rest: string)
    requires AllDigits(hour) && (rest == "" || !HourChars()(rest[0]))
    ensures EpochTime(hour + (":00:00" + rest))
  {
    TimeReads(hour, rest);
    assert (hour + ":00:00")[|hour| + 1..] == "00:00";
  }

  lemma {:induction false} DateReads(date: string, more: string)
    requires date == "1970-01-01" || date == "1969-12-31"
    requires more == "" || !DateChars()(more[0])
    ensures Span(date + more, DateChars()) == |date|
  {
    SpanPrefix(date, more, DateChars());
  }

  lemma {:induction false} DateCut(date: string, space: char, t: string)
    requires date == "1970-01-01" || date == "1969-12-31"
    requires IsSpace(space)
    ensures var d := date + ([space] + t);
      && Span(d, DateChars()) == |date| && |date| < |d|
      && d[..|date|] == date && d[|date|] == space && d[|date| + 1..] == t
  {
    DateReads(date, [space] + t);
  }

  lemma {:induction false} StampReads(tail: string, date: string, space: char, hour: string, rest: string)
    requires Stamp(tail, date, space, hour, rest)
    ensures EpochStamp(tail)
  {
    var t := hour + (":00:00" + rest);
    PrefixDrop("\t", date + ([space] + t));
    EpochIs(tail);
    DateCut(date, space, t);
    TimeIsEpoch(hour, rest);
  }

  lemma {:induction false} ReadIsStamp(tail: string)
    requires tail != "" && tail[0] == '\t' && EpochStamp(tail)
    ensures EpochSpelled(tail)
  {
    EpochIs(tail);
    var d := tail[1..];
    var n := Span(d, DateChars());
    var hour, rest := TimeSpelled(d[n + 1..]);
    assert tail == "\t" + d && d == d[..n] + ([d[n]] + d[n + 1..]);
    assert Stamp(tail, d[..n], d[n], hour, rest);
  }

  lemma {:induction false} EpochExactly(tail: string)
    requires tail != "" && tail[0] == '\t'
    ensures EpochStamp(tail) <==> EpochSpelled(tail)
  {
    if EpochSpelled(tail) {
      var date, space, hour, rest :| Stamp(tail, date, space, hour, rest);
      StampReads(tail, date, space, hour, rest);
    }
    if EpochStamp(tail) {
      ReadIsStamp(tail);
    }
  }

  /** The name on a `--- ` or `+++ ` line: up to a tab, without white space around it,
      and the null device when a stamp behind the tab says so. */
  ghost predicate NameSpelled(line: string, name: string)
    requires |line| >= 4
  {
    exists raw, tail :: line[4..] == raw + tail && NameParts(raw, tail, name)
  }

  ghost predicate NameParts(raw: string, tail: string, name: string) {
    && raw != "" && (forall i :: 0 <= i < |raw| ==> raw[i] != '\t') && (tail == "" || tail[0] == '\t')
    && if tail != "" && EpochSpelled(tail) then name == "/dev/null" else exists a, b :: Trimmed(raw, a, name, b)
  }

  lemma {:induction false} PartsAreName(raw: string, tail: string, name: string)
    requires NameParts(raw, tail, name)
    ensures Span(raw + tail, NotTab) == |raw|
    ensures (if EpochStamp(tail) then "/dev/null" else Strip(raw)) == name
  {
    SpanPrefix(raw, tail, NotTab);
    if tail != "" {
      EpochExactly(tail);
    }
    if !(tail != "" && EpochSpelled(tail)) {
      var a, b :| Trimmed(raw, a, name, b);
      TrimmedStrips(raw, a, name, b);
    }
  }

  /** Cut at its first tab, a line has one name. */
  lemma {:induction false} CutReads(line: string, raw: string, tail: string)
    requires |line| >= 4 && line[4..] == raw + tail && Span(raw + tail, NotTab) == |raw|
    ensures FileName(line)
         == if raw == "" then None else Some(if EpochStamp(tail) then "/dev/null" else Strip(raw))
  {
    assert line[4..][..|raw|] == raw && line[4..][|raw|..] == tail;
  }

  lemma {:induction false} CutIsName(raw: string, tail: string)
    requires raw != "" && (forall i :: 0 <= i < |raw| ==> raw[i] != '\t') && (tail == "" || tail[0] == '\t')
    ensures NameParts(raw, tail, if EpochStamp(tail) then "/dev/null" else Strip(raw))
  {
    if tail != "" {
      EpochExactly(tail);
    }
    var a, b := StripTrims(raw);
    assert Trimmed(raw, a, Strip(raw), b);
  }

  lemma {:induction false} NameExactly(line: string, name: string)
    requires |line| >= 4
    ensures FileName(line) == Some(name) <==> NameSpelled(line, name)
  {
    var s := line[4..];
    if NameSpelled(line, name) {
      var raw, tail :| s == raw + tail && NameParts(raw, tail, name);
      PartsAreName(raw, tail, name);
      CutReads(line, raw, tail);
    }
    if FileName(line) == Some(name) {
      var n := Span(s, NotTab);
      assert s == s[..n] + s[n..];
      CutReads(line, s[..n], s[n..]);
      CutIsName(s[..n], s[n..]);
    }
  }

  // ---- body lines ----

  /** A hunk line as it stands, or one that was left without its space. */
  predicate BodySpelled(line: string, l: string) {
    if forall i :: 0 <= i < |line| ==> line[i] == '\r' || line[i] == '\n' then l == " " + line
    else l == line && BodyLine(l)
  }
}
