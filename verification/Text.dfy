/** Text operations shared by the models: Python's `strip` and the part of its `lower` that
    matters for comparison with ASCII words; each with a lemma that says letter by letter what
    it does, for the models in which the outcome of a comparison matters. */
module Text {
  /** What Python counts as white space. */
  predicate IsSpace(c: char) {
    var x := c as int;
    || 0x09 <= x <= 0x0D || 0x1C <= x <= 0x20 || x == 0x85 || x == 0xA0 || x == 0x1680 || 0x2000 <= x <= 0x200A
    || x == 0x2028 || x == 0x2029 || x == 0x202F || x == 0x205F || x == 0x3000
  }

  function Strip(s: string): (r: string)
    ensures r == [] || (!IsSpace(r[0]) && !IsSpace(r[|r| - 1]))
    ensures |r| <= |s| && (s != [] && !IsSpace(s[0]) && !IsSpace(s[|s| - 1]) ==> r == s)
    decreases |s|
  {
    if s == [] then s
    else if IsSpace(s[0]) then Strip(s[1..])
    else if IsSpace(s[|s| - 1]) then Strip(s[..|s| - 1])
    else s
  }

  /** Lower case of the letters whose lower case is an ASCII letter: A to Z and the Kelvin sign.
      No other letter is folded: its lower case is no ASCII word, also not that of the dotted
      capital I, an `i` followed by a combining dot. */
  function Fold(c: char): char {
    if 'A' <= c <= 'Z' then (c as int + 32) as char else if c == '\U{212A}' then 'k' else c
  }

  function Lower(s: string): (r: string)
    ensures |r| == |s| && forall i :: 0 <= i < |s| ==> r[i] == Fold(s[i])
  {
    seq(|s|, i requires 0 <= i < |s| => Fold(s[i]))
  }

  // ---------------------------------------------------------------- what they do, letter by letter

  /** The white space, one by one. */
  const SPACES: string :=
    "\t\n\U{B}\U{C}\r\U{1C}\U{1D}\U{1E}\U{1F} \U{85}\U{A0}\U{1680}\U{2000}\U{2001}\U{2002}\U{2003}\U{2004}"
    + "\U{2005}\U{2006}\U{2007}\U{2008}\U{2009}\U{200A}\U{2028}\U{2029}\U{202F}\U{205F}\U{3000}"

  lemma SpacesAre(c: char)
    ensures IsSpace(c) <==> c in SPACES
  {
  }

  /** `d` is `c` in lower case. */
  predicate Lowers(c: char, d: char) {
    if 'A' <= c <= 'Z' then d as int - 'a' as int == c as int - 'A' as int
    else if c == '\U{212A}' then d == 'k'
    else d == c
  }

  lemma LowersIff(c: char, d: char)
    ensures Lowers(c, d) <==> d == Fold(c)
  {
  }

  /** `s[i..j]` is what is left when white space is cut off at both ends. */
  predicate Trimmed(s: string, i: nat, j: nat) {
    && i <= j <= |s|
    && (forall n :: 0 <= n < i ==> IsSpace(s[n])) && (forall n :: j <= n < |s| ==> IsSpace(s[n]))
    && (i < j ==> !IsSpace(s[i]) && !IsSpace(s[j - 1]))
  }

  lemma {:induction false} BlankStrips(s: string)
    requires forall n :: 0 <= n < |s| ==> IsSpace(s[n])
    ensures Strip(s) == ""
    decreases |s|
  {
    if s != [] { BlankStrips(s[1..]); }
  }

  /** White space at either end does not matter. */
  lemma TrimmedLeft(s: string, i: nat, j: nat)
    requires s != [] && IsSpace(s[0]) && i <= j < |s|
    ensures Trimmed(s[1..], i, j) <==> Trimmed(s, i + 1, j + 1)
    ensures s[1..][i..j] == s[i + 1..j + 1]
  {
    var t := s[1..];
    assert forall n :: 0 <= n < |t| ==> t[n] == s[n + 1];
    if Trimmed(t, i, j) {
      forall n | 0 < n < i + 1 ensures IsSpace(s[n]) { assert IsSpace(t[n - 1]); }
      forall n | j + 1 <= n < |s| ensures IsSpace(s[n]) { assert IsSpace(t[n - 1]); }
    }
  }

  lemma TrimmedRight(s: string, i: nat, j: nat)
    requires s != [] && IsSpace(s[|s| - 1]) && i <= j < |s|
    ensures Trimmed(s[..|s| - 1], i, j) <==> Trimmed(s, i, j)
    ensures s[..|s| - 1][i..j] == s[i..j]
  {
  }

  lemma {:induction false} TrimmedIsStrip(s: string, i: nat, j: nat)
    requires Trimmed(s, i, j)
    ensures Strip(s) == s[i..j]
    decreases |s|
  {
    if i == j {
      BlankStrips(s);
    } else if i > 0 {
      TrimmedLeft(s, i - 1, j - 1);
      TrimmedIsStrip(s[1..], i - 1, j - 1);
    } else if j < |s| {
      TrimmedRight(s, 0, j);
      TrimmedIsStrip(s[..|s| - 1], 0, j);
    }
  }

  ghost predicate StripsTo(s: string, i: nat, j: nat) {
    Trimmed(s, i, j) && Strip(s) == s[i..j]
  }

  lemma StripsLeft(s: string, i: nat, j: nat)
    requires s != [] && IsSpace(s[0]) && StripsTo(s[1..], i, j)
    ensures StripsTo(s, i + 1, j + 1)
  {
    TrimmedLeft(s, i, j);
  }

  lemma StripsRight(s: string, i: nat, j: nat)
    requires s != [] && !IsSpace(s[0]) && IsSpace(s[|s| - 1]) && StripsTo(s[..|s| - 1], i, j)
    ensures StripsTo(s, i, j)
  {
    TrimmedRight(s, i, j);
  }

  lemma StripsNothing(s: string)
    requires s == [] || (!IsSpace(s[0]) && !IsSpace(s[|s| - 1]))
    ensures StripsTo(s, 0, |s|)
  {
  }

  lemma {:induction false} StripTrims(s: string) returns (i: nat, j: nat)
    ensures StripsTo(s, i, j)
    decreases |s|
  {
    if s != [] && IsSpace(s[0]) {
      i, j := StripTrims(s[1..]);
      StripsLeft(s, i, j);
      i, j := i + 1, j + 1;
    } else if s != [] && IsSpace(s[|s| - 1]) {
      i, j := StripTrims(s[..|s| - 1]);
      StripsRight(s, i, j);
    } else {
      StripsNothing(s);
      i, j := 0, |s|;
    }
  }


  /** Stripping cuts off white space at both ends, all of it, and nothing else. */
  lemma StripIff(s: string, t: string)
    ensures Strip(s) == t <==> exists i: nat, j: nat :: Trimmed(s, i, j) && t == s[i..j]
  {
    var i, j := StripTrims(s);
    assert Trimmed(s, i, j) && Strip(s) == s[i..j];
    forall k: nat, l: nat | Trimmed(s, k, l) ensures Strip(s) == s[k..l] { TrimmedIsStrip(s, k, l); }
  }
}
