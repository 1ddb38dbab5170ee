/** The two functions of Go's `strings` package that the handler uses to join a
    bucket host and a relative path, specialised to a one-character cutset. */
module GoStrings {

  /** The string made of n copies of c. */
  function Repeat(c: char, n: nat): (r: string)
    ensures |r| == n
    ensures OnlyChar(r, c)
  {
    if n == 0 then [] else Repeat(c, n - 1) + [c]
  }

  /** Dropping the first of n copies of c leaves n - 1 copies. */
  lemma RepeatTail(c: char, n: nat)
    requires n > 0
    ensures Repeat(c, n)[1..] == Repeat(c, n - 1)
  {
    var r := Repeat(c, n)[1..];
    assert |r| == n - 1;
    assert forall i | 0 <= i < n - 1 :: r[i] == Repeat(c, n - 1)[i];
  }

  /** Every character of s is c (vacuously true of the empty string). */
  predicate OnlyChar(s: string, c: char) {
    forall i | 0 <= i < |s| :: s[i] == c
  }

  /** strings.TrimRight(s, cutset) with cutset holding the single character c:
      the longest prefix of s that does not end in c, obtained by dropping
      every trailing c. */
  function TrimRight(s: string, c: char): (r: string)
    ensures |r| <= |s| && r == s[..|r|]
    ensures OnlyChar(s[|r|..], c)
    ensures r == [] || r[|r| - 1] != c
    decreases |s|
  {
    if |s| > 0 && s[|s| - 1] == c then TrimRight(s[..|s| - 1], c) else s
  }

  /** strings.TrimLeft(s, cutset) with cutset holding the single character c:
      the longest suffix of s that does not start with c, obtained by dropping
      every leading c. */
  function TrimLeft(s: string, c: char): (r: string)
    ensures |r| <= |s| && r == s[|s| - |r|..]
    ensures OnlyChar(s[..|s| - |r|], c)
    ensures r == [] || r[0] != c
    decreases |s|
  {
    if |s| > 0 && s[0] == c then TrimLeft(s[1..], c) else s
  }

  /** Trailing copies of c added to s make no difference to TrimRight. */
  lemma {:induction false} TrimRightPadded(s: string, c: char, n: nat)
    ensures TrimRight(s + Repeat(c, n), c) == TrimRight(s, c)
  {
    if n == 0 {
      assert s + Repeat(c, 0) == s;
    } else {
      var t := s + Repeat(c, n);
      assert t[|t| - 1] == c;
      assert t[..|t| - 1] == s + Repeat(c, n - 1);
      TrimRightPadded(s, c, n - 1);
    }
  }

  /** Leading copies of c added to s make no difference to TrimLeft. */
  lemma {:induction false} TrimLeftPadded(s: string, c: char, n: nat)
    ensures TrimLeft(Repeat(c, n) + s, c) == TrimLeft(s, c)
  {
    if n == 0 {
      assert Repeat(c, 0) + s == s;
    } else {
      var t := Repeat(c, n) + s;
      var u := Repeat(c, n - 1) + s;
      assert t[0] == c;
      assert t[1..] == u by {
        RepeatTail(c, n);
        assert t[1..] == Repeat(c, n)[1..] + s;
      }
      assert TrimLeft(t, c) == TrimLeft(u, c);
      TrimLeftPadded(s, c, n - 1);
    }
  }
}
