// The string operations that path handling uses, with the laws they obey.

module Strings {
  // Position of the first c at or after `from`, or |s|
  function Find(s: string, c: char, from: nat): (i: nat)
    requires from <= |s|
    ensures from <= i <= |s|
    ensures forall j :: from <= j < i ==> s[j] != c
    ensures i < |s| ==> s[i] == c
    decreases |s| - from
  {
    if from == |s| || s[from] == c then from else Find(s, c, from + 1)
  }

  // Position of the last c, or -1
  function FindLast(s: string, c: char): (i: int)
    ensures -1 <= i < |s|
    ensures i >= 0 ==> s[i] == c
    ensures forall j :: i < j < |s| ==> s[j] != c
  {
    if s == "" then -1
    else if s[|s| - 1] == c then |s| - 1
    else FindLast(s[..|s| - 1], c)
  }

  lemma {:induction false} FindLastAt(a: string, c: char, b: string)
    requires c !in b
    ensures FindLast(a + [c] + b, c) == |a|
  {
    var s := a + [c] + b;
    if b == "" {
      assert s == a + [c];
    } else {
      assert s[..|s| - 1] == a + [c] + b[..|b| - 1];
      FindLastAt(a, c, b[..|b| - 1]);
    }
  }

  lemma {:induction false} FindLastNone(s: string, c: char)
    requires c !in s
    ensures FindLast(s, c) == -1
  {
    if s != "" {
      FindLastNone(s[..|s| - 1], c);
    }
  }

  function Count(s: string, c: char): nat {
    if s == "" then 0 else (if s[0] == c then 1 else 0) + Count(s[1..], c)
  }

  lemma {:induction false} CountSum(a: string, b: string, c: char)
    ensures Count(a + b, c) == Count(a, c) + Count(b, c)
  {
    if a == "" {
      assert a + b == b;
    } else {
      assert (a + b)[1..] == a[1..] + b;
      CountSum(a[1..], b, c);
    }
  }

  lemma {:induction false} CountNone(a: string, c: char)
    requires c !in a
    ensures Count(a, c) == 0
  {
    if a != "" {
      CountNone(a[1..], c);
    }
  }

  // s.split(c, max)
  function SplitMax(s: string, c: char, max: nat): (parts: seq<string>)
    ensures |parts| >= 1
    decreases max
  {
    var i := Find(s, c, 0);
    if max == 0 || i == |s| then [s] else [s[..i]] + SplitMax(s[i + 1..], c, max - 1)
  }

  // s.split(c)
  function Split(s: string, c: char): (parts: seq<string>)
    ensures |parts| >= 1
    decreases |s|
  {
    var i := Find(s, c, 0);
    if i == |s| then [s] else [s[..i]] + Split(s[i + 1..], c)
  }

  lemma FindAt(a: string, c: char, b: string)
    requires c !in a
    ensures Find(a + [c] + b, c, 0) == |a|
  {
    var s := a + [c] + b;
    var i := Find(s, c, 0);
    assert s[|a|] == c;
    assert forall j :: 0 <= j < |a| ==> s[j] == a[j];
  }

  lemma SplitMaxAt(a: string, c: char, b: string, max: nat)
    requires c !in a && max > 0
    ensures SplitMax(a + [c] + b, c, max) == [a] + SplitMax(b, c, max - 1)
  {
    var s := a + [c] + b;
    FindAt(a, c, b);
    assert s[..|a|] == a && s[|a| + 1..] == b;
  }

  lemma SplitAt(a: string, c: char, b: string)
    requires c !in a
    ensures Split(a + [c] + b, c) == [a] + Split(b, c)
  {
    var s := a + [c] + b;
    FindAt(a, c, b);
    assert s[..|a|] == a && s[|a| + 1..] == b;
  }

  lemma SplitNone(a: string, c: char)
    requires c !in a
    ensures Split(a, c) == [a] && SplitMax(a, c, 0) == [a]
  {
    assert Find(a, c, 0) == |a|;
  }

  // sep.join(parts) for a one-character separator
  function Join(parts: seq<string>, sep: char): string {
    if parts == [] then ""
    else if |parts| == 1 then parts[0]
    else parts[0] + [sep] + Join(parts[1..], sep)
  }

  predicate StartsWith(s: string, prefix: string) {
    prefix <= s
  }

  // s.rstrip(c), s.lstrip(c), s.strip(c)
  function StripRight(s: string, c: char): string {
    if s != "" && s[|s| - 1] == c then StripRight(s[..|s| - 1], c) else s
  }

  function StripLeft(s: string, c: char): string {
    if s != "" && s[0] == c then StripLeft(s[1..], c) else s
  }

  predicate Only(s: string, c: char) {
    forall i :: 0 <= i < |s| ==> s[i] == c
  }

  lemma {:induction false} StripRightIs(s: string, c: char) returns (n: nat)
    ensures n <= |s| && StripRight(s, c) == s[..n] && Only(s[n..], c)
    ensures n > 0 ==> s[n - 1] != c
  {
    if s != "" && s[|s| - 1] == c {
      n := StripRightIs(s[..|s| - 1], c);
      assert s[..|s| - 1][..n] == s[..n] && s[n..] == s[..|s| - 1][n..] + [c];
    } else {
      n := |s|;
    }
  }

  lemma {:induction false} StripLeftIs(s: string, c: char) returns (n: nat)
    ensures n <= |s| && StripLeft(s, c) == s[n..] && Only(s[..n], c)
    ensures n < |s| ==> s[n] != c
  {
    if s != "" && s[0] == c {
      n := StripLeftIs(s[1..], c);
      assert s[..n + 1] == [c] + s[1..][..n];
      n := n + 1;
    } else {
      n := 0;
    }
  }

  function Strip(s: string, c: char): string {
    StripLeft(StripRight(s, c), c)
  }

  // s.replace(pat, rep): left to right, without overlaps
  function Replace(s: string, pat: string, rep: string): string
    requires pat != ""
    decreases |s|
  {
    if |s| < |pat| then s
    else if pat <= s then rep + Replace(s[|pat|..], pat, rep)
    else [s[0]] + Replace(s[1..], pat, rep)
  }

  predicate Occurs(pat: string, s: string) {
    exists i :: 0 <= i <= |s| && pat <= s[i..]
  }

  // Nothing in a can start the pattern, whatever follows.
  lemma {:induction false} ReplaceSkip(a: string, s: string, pat: string, rep: string)
    requires pat != "" && pat[0] !in a
    ensures Replace(a + s, pat, rep) == a + Replace(s, pat, rep)
  {
    if a == "" {
      assert a + s == s;
    } else {
      assert (a + s)[1..] == a[1..] + s;
      ReplaceSkip(a[1..], s, pat, rep);
      assert (a + s)[0] == a[0] && a[0] in a;
      assert !(pat <= a + s);
      var rest := Replace(s, pat, rep);
      if |a + s| < |pat| {
        assert Replace(a + s, pat, rep) == a + s && rest == s;
      } else {
        assert Replace(a + s, pat, rep) == [a[0]] + Replace(a[1..] + s, pat, rep);
        hide Replace;
        assert a + rest == [a[0]] + (a[1..] + rest);
      }
    }
  }

  lemma ReplaceHit(s: string, pat: string, rep: string)
    requires pat != ""
    ensures Replace(pat + s, pat, rep) == rep + Replace(s, pat, rep)
  {
    assert (pat + s)[|pat|..] == s;
  }

  lemma {:induction false} ReplaceAbsent(s: string, pat: string, rep: string)
    requires pat != "" && !Occurs(pat, s)
    ensures Replace(s, pat, rep) == s
  {
    if |s| >= |pat| {
      assert s[0..] == s;
      forall i | 0 <= i <= |s[1..]| ensures !(pat <= s[1..][i..]) {
        assert s[1..][i..] == s[i + 1..];
      }
      ReplaceAbsent(s[1..], pat, rep);
    }
  }

  lemma {:induction false} ReplaceShorter(s: string, pat: string, rep: string)
    requires |rep| < |pat|
    ensures |Replace(s, pat, rep)| <= |s|
    ensures Occurs(pat, s) ==> |Replace(s, pat, rep)| <= |s| - |pat| + |rep|
    decreases |s|
  {
    if |s| < |pat| {
    } else if pat <= s {
      ReplaceShorter(s[|pat|..], pat, rep);
    } else {
      ReplaceShorter(s[1..], pat, rep);
      if i :| 0 <= i <= |s| && pat <= s[i..] {
        assert s[0..] == s;
        assert s[1..][i - 1..] == s[i..];
      }
    }
  }

  lemma AbsentFirst(s: string, pat: string)
    requires pat != "" && pat[0] !in s
    ensures !Occurs(pat, s)
  {
    forall i | 0 <= i <= |s| ensures !(pat <= s[i..]) {
      assert i < |s| ==> s[i..][0] == s[i] && s[i] in s;
    }
  }

  // os.path.splitext of a file name: the last dot, unless only dots precede it
  function SplitExt(s: string): (string, string) {
    var i := FindLast(s, '.');
    if i < 0 || (forall j :: 0 <= j < i ==> s[j] == '.') then (s, "") else (s[..i], s[i..])
  }
}
