/** The few JavaScript string operations the upload page relies on, over `seq<char>`. */
module Text {

  import opened Wrappers

  /** `s.startsWith(prefix)` */
  predicate StartsWith(s: string, prefix: string) {
    |prefix| <= |s| && s[..|prefix|] == prefix
  }

  /** `sub` occurs in `s` starting at index `i`. */
  predicate OccursAt(s: string, sub: string, i: int) {
    0 <= i && i + |sub| <= |s| && s[i..i + |sub|] == sub
  }

  /** `s.includes(sub)` */
  predicate Contains(s: string, sub: string) {
    exists i | 0 <= i <= |s| - |sub| :: OccursAt(s, sub, i)
  }

  /** One differing character among the first `|prefix|` rules the prefix out. */
  lemma NotStartsWith(s: string, prefix: string, k: nat)
    requires k < |prefix| && k < |s| && s[k] != prefix[k]
    ensures !StartsWith(s, prefix)
  {
    if |prefix| <= |s| {
      assert s[..|prefix|][k] == s[k];
    }
  }

  /** A character of `sub` that `s` lacks rules `sub` out of `s`. */
  lemma MissingCharNotContained(s: string, sub: string, c: char)
    requires c in sub && c !in s
    ensures !Contains(s, sub)
  {
  }

  /** An occurrence at a known position is found by the scan. */
  lemma OccurrenceContained(s: string, sub: string, i: int)
    requires OccursAt(s, sub, i)
    ensures Contains(s, sub)
  {
  }

  /** Index of the first `c` in `s`, or -1 (`s.indexOf(c)`). */
  function IndexOf(s: string, c: char): (k: int)
    ensures -1 <= k < |s|
    ensures k == -1 <==> c !in s
    ensures 0 <= k ==> s[k] == c && c !in s[..k]
    decreases |s|
  {
    if |s| == 0 then -1
    else if s[0] == c then 0
    else
      var k := IndexOf(s[1..], c);
      assert s[1..][..if k < 0 then 0 else k] == s[1..if k < 0 then 1 else k + 1];
      if k < 0 then -1 else k + 1
  }

  /** The index of `c` in `a + b` when `a` holds no `c`. */
  lemma {:induction false} IndexOfAppend(a: string, b: string, c: char)
    requires c !in a
    ensures IndexOf(a + b, c) == (if c in b then |a| + IndexOf(b, c) else -1)
  {
    var k := IndexOf(a + b, c);
    if c in b {
      var j := IndexOf(b, c);
      assert (a + b)[|a| + j] == c;
      assert (a + b)[..|a| + j] == a + b[..j];
    } else {
      forall i | 0 <= i < |a + b| ensures (a + b)[i] != c {
        if i < |a| { assert (a + b)[i] == a[i]; } else { assert (a + b)[i] == b[i - |a|]; }
      }
    }
  }

  /** The text after the first `c`, up to the next `c`: element 1 of `s.split(c)`.
      `None` when `s` holds no `c`, where JavaScript yields `undefined`. */
  function SecondField(s: string, c: char): (r: Option<string>)
    ensures r.None? <==> c !in s
    ensures r.Some? ==> c !in r.value
    ensures r.Some? ==>
      exists k :: 0 <= k < |s| && s[k] == c && c !in s[..k] &&
        k + 1 + |r.value| <= |s| && s[k + 1..k + 1 + |r.value|] == r.value &&
        (k + 1 + |r.value| == |s| || s[k + 1 + |r.value|] == c)
  {
    var k := IndexOf(s, c);
    if k < 0 then None
    else
      var rest := s[k + 1..];
      var j := IndexOf(rest, c);
      if j < 0 then
        assert s[k + 1..k + 1 + |rest|] == rest;
        Some(rest)
      else
        assert s[k + 1..k + 1 + j] == rest[..j];
        assert s[k + 1 + j] == rest[j];
        Some(rest[..j])
  }

  /** `toUpperCase` on one character, for the ASCII letters. */
  function UpperChar(ch: char): char {
    if 'a' <= ch <= 'z' then (ch as int - 32) as char else ch
  }

  /** `s.toUpperCase()`, for the ASCII letters. */
  function Upper(s: string): (r: string)
    ensures |r| == |s|
    ensures forall i :: 0 <= i < |s| ==> r[i] == UpperChar(s[i])
  {
    seq(|s|, i requires 0 <= i < |s| => UpperChar(s[i]))
  }

  /** `xs.join(sep)` */
  function Join(xs: seq<string>, sep: string): string
    decreases |xs|
  {
    if |xs| == 0 then ""
    else if |xs| == 1 then xs[0]
    else xs[0] + sep + Join(xs[1..], sep)
  }

  /** Reads a ", "-joined list back: the text up to each ',' is one item and the
      character after the ',' is skipped. */
  function SplitList(s: string): (r: seq<string>)
    ensures |r| > 0
    decreases |s|
  {
    var k := IndexOf(s, ',');
    if k < 0 then [s]
    else [s[..k]] + SplitList(s[if k + 2 <= |s| then k + 2 else |s|..])
  }

  /** No item holds a comma. */
  predicate CommaFree(xs: seq<string>) {
    forall i :: 0 <= i < |xs| ==> ',' !in xs[i]
  }

  /** An item without a comma followed by ", " is read off as one item. */
  lemma SplitListStep(x: string, rest: string)
    requires ',' !in x
    ensures SplitList(x + ", " + rest) == [x] + SplitList(rest)
  {
    var s := x + ", " + rest;
    assert s == x + (", " + rest);
    IndexOfAppend(x, ", " + rest, ',');
    assert IndexOf(", " + rest, ',') == 0;
    assert s[..|x|] == x;
    assert s[|x| + 2..] == rest;
  }

  /** Joining with ", " loses nothing when no item holds a comma. */
  lemma {:induction false} SplitJoin(xs: seq<string>)
    requires |xs| > 0
    requires CommaFree(xs)
    ensures SplitList(Join(xs, ", ")) == xs
    decreases |xs|
  {
    if |xs| == 1 {
      assert IndexOf(xs[0], ',') == -1;
    } else {
      SplitListStep(xs[0], Join(xs[1..], ", "));
      assert CommaFree(xs[1..]) by {
        forall i | 0 <= i < |xs| - 1 ensures ',' !in xs[1..][i] {
          assert xs[1..][i] == xs[i + 1];
        }
      }
      SplitJoin(xs[1..]);
      assert [xs[0]] + xs[1..] == xs;
    }
  }

}
