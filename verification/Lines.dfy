/**
 Byte strings, and files read line by line.

 A byte string is a `string` with one character per byte.  Reading a binary
 stream line by line cuts it after every line feed, so each line keeps its
 terminator and only the last one may lack it.
 */
module Lines {

  predicate IsEol(c: char) {
    c == '\n' || c == '\r'
  }

  /** Python's `rstrip(b"\r\n")`: every trailing CR and LF goes. */
  function RStrip(s: string): string {
    if s != "" && IsEol(s[|s| - 1]) then RStrip(s[..|s| - 1]) else s
  }

  /** The lines without their terminators: what both comparisons look at. */
  function Bare(lines: seq<string>): (r: seq<string>)
    ensures |r| == |lines|
    ensures forall i {:trigger r[i]} :: 0 <= i < |lines| ==> r[i] == RStrip(lines[i])
  {
    seq(|lines|, i requires 0 <= i < |lines| => RStrip(lines[i]))
  }

  lemma {:induction false} BareConcat(a: seq<string>, b: seq<string>)
    ensures Bare(a + b) == Bare(a) + Bare(b)
  {
  }

  lemma {:induction false} BareSlice(lines: seq<string>, i: nat, j: nat)
    requires i <= j <= |lines|
    ensures Bare(lines[i..j]) == Bare(lines)[i..j]
  {
  }

  lemma {:induction false} RStripEol(s: string, e: string)
    requires e == "\n" || e == "\r\n" || e == "\r" || e == ""
    ensures RStrip(s + e) == RStrip(s)
    decreases |e|
  {
    if e == "\r\n" {
      assert (s + e)[..|s + e| - 1] == s + "\r";
      RStripEol(s, "\r");
    } else if e != "" {
      assert (s + e)[..|s + e| - 1] == s;
    } else {
      assert s + e == s;
    }
  }

  lemma {:induction false} RStripIdempotent(s: string)
    ensures RStrip(RStrip(s)) == RStrip(s)
  {
    if s != "" && IsEol(s[|s| - 1]) {
      RStripIdempotent(s[..|s| - 1]);
    }
  }

  lemma {:induction false} Assoc<T>(a: seq<T>, b: seq<T>, c: seq<T>)
    ensures (a + b) + c == a + (b + c)
  {
  }

  /** Is this what a stream yields: no empty line, a line feed ends every line
      and, but for the last, every line ends in one. */
  predicate LineList(lines: seq<string>) {
    && (forall i :: 0 <= i < |lines| ==> lines[i] != "" && SingleLine(lines[i]))
    && (forall i :: 0 <= i < |lines| - 1 ==> Terminated(lines[i]))
  }

  /** A line feed, if there is one, is the last byte. */
  predicate SingleLine(s: string) {
    forall i :: 0 <= i < |s| - 1 ==> s[i] != '\n'
  }

  predicate Terminated(s: string) {
    s != "" && s[|s| - 1] == '\n'
  }

  function Join(lines: seq<string>): string {
    if lines == [] then "" else lines[0] + Join(lines[1..])
  }

  /** Length of the first line of a non-empty stream. */
  function LineLength(b: string): (n: nat)
    requires b != ""
    ensures 0 < n <= |b|
    ensures SingleLine(b[..n])
    ensures n < |b| ==> b[n - 1] == '\n'
  {
    if b[0] == '\n' || |b| == 1 then 1 else 1 + LineLength(b[1..])
  }

  function Split(b: string): seq<string> {
    if b == "" then [] else [b[..LineLength(b)]] + Split(b[LineLength(b)..])
  }

  lemma {:induction false} JoinCons(l: string, rest: seq<string>)
    ensures Join([l] + rest) == l + Join(rest)
  {
    assert ([l] + rest)[1..] == rest;
  }

  lemma {:induction false} JoinSplit(b: string)
    ensures Join(Split(b)) == b
    ensures LineList(Split(b))
  {
    if b != "" {
      var n := LineLength(b);
      JoinSplit(b[n..]);
      FirstLine(b, n, Split(b[n..]));
    }
  }

  lemma {:induction false} FirstLine(b: string, n: nat, rest: seq<string>)
    requires 0 < n <= |b| && SingleLine(b[..n]) && (n < |b| ==> b[n - 1] == '\n')
    requires Join(rest) == b[n..] && LineList(rest) && (n == |b| ==> rest == [])
    ensures Join([b[..n]] + rest) == b && LineList([b[..n]] + rest)
  {
    JoinCons(b[..n], rest);
    LineListCons(b[..n], rest);
    assert b[..n] + b[n..] == b;
  }

  lemma {:induction false} LineListCons(l: string, rest: seq<string>)
    requires l != "" && SingleLine(l) && LineList(rest)
    requires Terminated(l) || rest == []
    ensures LineList([l] + rest)
  {
    var all := [l] + rest;
    assert forall i :: 0 < i < |all| ==> all[i] == rest[i - 1];
  }

  lemma {:induction false} LineLengthOf(l: string, rest: string)
    requires l != "" && SingleLine(l)
    requires Terminated(l) || rest == ""
    ensures LineLength(l + rest) == |l|
  {
    if |l| > 1 {
      assert (l + rest)[1..] == l[1..] + rest;
      assert (l + rest)[0] == l[0] && l[0] != '\n';
      assert SingleLine(l[1..]) by {
        forall i | 0 <= i < |l[1..]| - 1 ensures l[1..][i] != '\n' { assert l[1..][i] == l[i + 1]; }
      }
      LineLengthOf(l[1..], rest);
    }
  }

  lemma {:induction false} SplitJoin(lines: seq<string>)
    requires LineList(lines)
    ensures Split(Join(lines)) == lines
  {
    if lines != [] {
      var l, rest := lines[0], Join(lines[1..]);
      assert LineList(lines[1..]) by {
        forall i | 0 <= i < |lines| - 1 ensures lines[1..][i] == lines[i + 1] {}
      }
      SplitJoin(lines[1..]);
      if |lines| > 1 { assert Terminated(lines[0]); } else { assert rest == ""; }
      LineLengthOf(l, rest);
      assert (l + rest)[..|l|] == l && (l + rest)[|l|..] == rest;
    }
  }
}
