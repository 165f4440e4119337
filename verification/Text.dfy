/** Facts about strings cut at a separator. */
module Text {

  predicate HasPrefix(s: string, p: string) {
    |p| <= |s| && s[..|p|] == p
  }

  predicate Contains(s: string, word: string) {
    HasPrefix(s, word) || (s != [] && Contains(s[1..], word))
  }

  ghost predicate Occurs(s: string, word: string) {
    exists i :: 0 <= i <= |s| && word <= s[i..]
  }

  lemma {:induction false} ContainsIffOccurs(s: string, word: string)
    ensures Contains(s, word) <==> Occurs(s, word)
  {
    if HasPrefix(s, word) {
      assert word <= s[0..];
    }
    if s != [] {
      ContainsIffOccurs(s[1..], word);
      if i :| 0 <= i <= |s[1..]| && word <= s[1..][i..] {
        assert s[i + 1..] == s[1..][i..];
      }
      if i :| 1 <= i <= |s| && word <= s[i..] {
        assert s[1..][i - 1..] == s[i..];
      }
    }
    if word <= s[0..] {
      assert s[0..] == s;
    }
  }

  /** The position of the first c, or the length if there is none. */
  function IndexOf(s: string, c: char): (i: nat)
    ensures i <= |s|
    ensures c !in s[..i]
    ensures i < |s| ==> s[i] == c
  {
    if s == [] || s[0] == c then 0
    else
      var i := 1 + IndexOf(s[1..], c);
      assert s[..i] == [s[0]] + s[1..][..i - 1];
      i
  }

  lemma {:induction false} IndexOfSeparator(a: string, c: char, rest: string)
    requires c !in a
    ensures IndexOf(a + [c] + rest, c) == |a|
  {
    var s := a + [c] + rest;
    if a == [] {
      assert s[0] == c;
    } else {
      assert s[1..] == a[1..] + [c] + rest;
      IndexOfSeparator(a[1..], c, rest);
    }
  }

  lemma {:induction false} IndexOfNone(s: string, c: char)
    requires c !in s
    ensures IndexOf(s, c) == |s|
  {
    if s != [] {
      IndexOfNone(s[1..], c);
    }
  }

  /** What comes before the first separator, and what comes after it, are determined. */
  lemma CutUnique(a: string, b: string, c: char, restA: string, restB: string)
    requires c !in a && c !in b && a + [c] + restA == b + [c] + restB
    ensures a == b && restA == restB
  {
    var s := a + [c] + restA;
    IndexOfSeparator(a, c, restA);
    IndexOfSeparator(b, c, restB);
    assert a == s[..|a|] && b == s[..|b|];
    assert restA == s[|a| + 1..] && restB == s[|b| + 1..];
  }
}
