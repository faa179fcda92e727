/** How one line of a patch file is read: hunk headers, file names, prefixes. */
module PatchLines {
  import opened Strings
  import opened Wrappers
  import opened Hunks

  predicate IsSource(line: string) {
    "--- " <= line
  }

  predicate IsTarget(line: string) {
    "+++ " <= line
  }

  /** Length of the longest prefix whose bytes satisfy `f`. */
  function Span(s: string, f: char -> bool): (n: nat)
    ensures n <= |s|
    ensures forall i :: 0 <= i < n ==> f(s[i])
    ensures n < |s| ==> !f(s[n])
  {
    if s == "" || !f(s[0]) then 0 else 1 + Span(s[1..], f)
  }

  /** `(\d+)(,(\d+))?` at the start of `s`: start, length, rest. */
  function ParseRange(s: string): Option<(nat, nat, string)> {
    var n := Span(s, IsDigit);
    if n == 0 then None
    else
      var start, r := ToInt(s[..n]), s[n..];
      if r == "" || r[0] != ',' then Some((start, 1, r))
      else
        var m := Span(r[1..], IsDigit);
        // a comma without digits is left to what follows the range, which then fails
        if m == 0 then Some((start, 1, r)) else Some((start, ToInt(r[1..][..m]), r[1..][m..]))
  }

  /** What follows the second `@@`, up to the line feed, without its first byte. */
  function Description(s: string): string {
    var n := Span(s, c => c != '\n');
    if n == 0 then "" else StripRight(s[1..n])
  }

  /** `@@ -R +R @@`: an empty hunk with the header's ranges. */
  function ParseHeader(line: string): Option<Hunk> {
    if !("@@ -" <= line) then None
    else match ParseRange(line[4..])
      case None => None
      case Some((startSrc, linesSrc, r)) =>
        if !(" +" <= r) then None
        else match ParseRange(r[2..])
          case None => None
          case Some((startTgt, linesTgt, r)) =>
            if !(" @@" <= r) then None
            else Some(Hunk(startSrc, linesSrc, startTgt, linesTgt, false, Description(r[3..]), []))
  }

  predicate HunkStart(line: string) {
    ParseHeader(line).Some?
  }

  predicate NotTab(c: char) {
    c != '\t'
  }

  /** A tab, a date and a time that say "this file does not exist". */
  predicate EpochStamp(s: string) {
    s != "" &&
    var d := s[1..];
    var n := Span(d, c => IsDigit(c) || c == '-');
    n < |d| && (d[..n] == "1970-01-01" || d[..n] == "1969-12-31") && IsSpace(d[n]) &&
    var t := d[n + 1..];
    var time := t[..Span(t, c => IsDigit(c) || c == ':')];
    var hour := Span(time, IsDigit);
    hour < |time| && time[hour + 1..] == "00:00"
  }

  /** The name on a `--- ` or `+++ ` line, unless it is missing. */
  function FileName(line: string): Option<string>
    requires |line| >= 4
  {
    var rest := line[4..];
    var n := Span(rest, NotTab);
    if n == 0 then None
    else if EpochStamp(rest[n..]) then Some("/dev/null")
    else Some(Strip(rest[..n]))
  }
}
