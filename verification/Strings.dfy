/** White space, and taking it off the ends of a string; decimal digits. */
module Strings {

  /** ASCII white space: what `strip()` of bytes and `\s` in a pattern for bytes take. */
  predicate IsSpace(c: char) {
    c == ' ' || c == '\t' || c == '\n' || c == '\r' || c == '\U{0b}' || c == '\U{0c}'
  }

  function StripLeft(s: string): string {
    if s != "" && IsSpace(s[0]) then StripLeft(s[1..]) else s
  }

  function StripRight(s: string): string {
    if s != "" && IsSpace(s[|s| - 1]) then StripRight(s[..|s| - 1]) else s
  }

  function Strip(s: string): string {
    StripRight(StripLeft(s))
  }

  lemma {:induction false} StripRightCons(c: char, s: string)
    ensures StripRight([c] + s) == if StripRight(s) != "" || !IsSpace(c) then [c] + StripRight(s) else ""
  {
    var t := [c] + s;
    if s == "" {
      assert t[..0] == "";
    } else if IsSpace(s[|s| - 1]) {
      assert t[..|t| - 1] == [c] + s[..|s| - 1];
      StripRightCons(c, s[..|s| - 1]);
    }
  }

  /** Both ends can be taken in either order. */
  lemma {:induction false} StripEitherWay(s: string)
    ensures StripLeft(StripRight(s)) == StripRight(StripLeft(s))
  {
    if s != "" {
      assert s == [s[0]] + s[1..];
      StripRightCons(s[0], s[1..]);
      StripEitherWay(s[1..]);
      if StripRight(s) != "" {
        assert StripRight(s)[1..] == StripRight(s[1..]);
      }
    }
  }

  predicate AllSpace(s: string) {
    forall i :: 0 <= i < |s| ==> IsSpace(s[i])
  }

  predicate NoSpaceAtEnd(s: string) {
    s != "" ==> !IsSpace(s[|s| - 1])
  }

  lemma {:induction false} StripRightIs(s: string, white: string)
    requires NoSpaceAtEnd(s) && AllSpace(white)
    ensures StripRight(s + white) == s
    decreases |white|
  {
    if white == "" {
      assert s + white == s;
    } else {
      assert (s + white)[..|s + white| - 1] == s + white[..|white| - 1];
      assert (s + white)[|s + white| - 1] == white[|white| - 1];
      StripRightIs(s, white[..|white| - 1]);
    }
  }

  lemma {:induction false} StripRightSplits(s: string) returns (white: string)
    ensures s == StripRight(s) + white && AllSpace(white) && NoSpaceAtEnd(StripRight(s))
  {
    white := "";
    if s != "" && IsSpace(s[|s| - 1]) {
      var init := StripRightSplits(s[..|s| - 1]);
      white := init + [s[|s| - 1]];
      assert s == s[..|s| - 1] + [s[|s| - 1]];
    } else {
      assert s + white == s;
    }
  }

  /** `name` between white space. */
  predicate Trimmed(raw: string, a: string, name: string, b: string) {
    && raw == a + name + b && AllSpace(a) && AllSpace(b)
    && NoSpaceAtEnd(name) && (name != "" ==> !IsSpace(name[0]))
  }

  lemma {:induction false} StripLeftIs(a: string, s: string)
    requires AllSpace(a) && (s != "" ==> !IsSpace(s[0]))
    ensures StripLeft(a + s) == s
  {
    if a == "" {
      assert a + s == s;
    } else {
      assert (a + s)[1..] == a[1..] + s;
      StripLeftIs(a[1..], s);
    }
  }

  lemma {:induction false} StripLeftSplits(s: string) returns (a: string)
    ensures s == a + StripLeft(s) && AllSpace(a)
    ensures StripLeft(s) != "" ==> !IsSpace(StripLeft(s)[0])
  {
    a := "";
    if s != "" && IsSpace(s[0]) {
      var rest := StripLeftSplits(s[1..]);
      a := [s[0]] + rest;
      assert s == [s[0]] + s[1..];
    } else {
      assert s == a + s;
    }
  }

  lemma {:induction false} AllSpaceStrips(s: string)
    requires AllSpace(s)
    ensures Strip(s) == ""
  {
    StripLeftIs(s, "");
    assert s + "" == s;
  }

  lemma {:induction false} TrimmedStrips(raw: string, a: string, name: string, b: string)
    requires Trimmed(raw, a, name, b)
    ensures Strip(raw) == name
  {
    if name == "" {
      assert AllSpace(raw);
      AllSpaceStrips(raw);
    } else {
      assert raw == a + (name + b);
      StripLeftIs(a, name + b);
      StripRightIs(name, b);
    }
  }

  lemma {:induction false} StripTrims(raw: string) returns (a: string, b: string)
    ensures Trimmed(raw, a, Strip(raw), b)
  {
    a := StripLeftSplits(raw);
    b := StripRightSplits(StripLeft(raw));
    if Strip(raw) != "" {
      assert Strip(raw)[0] == StripLeft(raw)[0];
    }
  }

  /** Stripping takes the white space off both ends and nothing else. */
  lemma {:induction false} StripExactly(raw: string, name: string)
    ensures Strip(raw) == name <==> exists a, b :: Trimmed(raw, a, name, b)
  {
    if Strip(raw) == name {
      var a, b := StripTrims(raw);
    } else {
      forall a, b ensures !Trimmed(raw, a, name, b) {
        if Trimmed(raw, a, name, b) {
          TrimmedStrips(raw, a, name, b);
        }
      }
    }
  }

  lemma {:induction false} BlankExactly(s: string)
    ensures Strip(s) == "" <==> AllSpace(s)
  {
    if AllSpace(s) {
      AllSpaceStrips(s);
    }
    if Strip(s) == "" {
      var a, b := StripTrims(s);
      assert s == a + b;
    }
  }

  // ---- decimal digits ----

  predicate IsDigit(c: char) {
    '0' <= c <= '9'
  }

  predicate AllDigits(s: string) {
    forall i :: 0 <= i < |s| ==> IsDigit(s[i])
  }

  function DigitValue(c: char): nat
    requires IsDigit(c)
  {
    c as int - '0' as int
  }

  function ToInt(s: string): nat
    requires AllDigits(s)
  {
    if s == "" then 0 else 10 * ToInt(s[..|s| - 1]) + DigitValue(s[|s| - 1])
  }
}
