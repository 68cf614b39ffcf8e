/**
  Sequence facts about the basket's line items: the distinct codes in order of
  first appearance (the key order of the counts map), the first occurrence of
  a code, and removal at an index.
 */
module Items {
  import opened Config

  ghost predicate NoDuplicates(s: seq<Code>) {
    forall i, j :: 0 <= i < j < |s| ==> s[i] != s[j]
  }

  /** The distinct codes of `s`, each once, in order of first appearance. */
  function Distinct(s: seq<Code>): (d: seq<Code>)
    ensures NoDuplicates(d)
    ensures forall c :: c in d <==> c in s
    ensures |d| <= |s|
  {
    if |s| == 0 then []
    else
      var init := s[..|s| - 1];
      var last := s[|s| - 1];
      assert s == init + [last];
      if last in init then Distinct(init) else Distinct(init) + [last]
  }

  /** `Array.prototype.indexOf`: the first index holding `x`, or -1. */
  function IndexOf(s: seq<Code>, x: Code): (i: int)
    ensures -1 <= i < |s|
    ensures i == -1 <==> x !in s
    ensures 0 <= i ==> s[i] == x && x !in s[..i]
  {
    if |s| == 0 then -1
    else if s[0] == x then 0
    else
      var k := IndexOf(s[1..], x);
      assert k >= 0 ==> s[..k + 1] == [s[0]] + s[1..][..k];
      if k == -1 then -1 else k + 1
  }

  /** `splice(i, 1)`: the sequence without its element at `i`, everything else in order. */
  function RemoveAt(s: seq<Code>, i: int): (r: seq<Code>)
    requires 0 <= i < |s|
    ensures |r| == |s| - 1
    ensures forall j :: 0 <= j < i ==> r[j] == s[j]
    ensures forall j :: i <= j < |r| ==> r[j] == s[j + 1]
    ensures multiset(r) == multiset(s) - multiset{s[i]}
  {
    assert s == s[..i] + [s[i]] + s[i + 1..];
    s[..i] + s[i + 1..]
  }

  /** The total of the counts `m` assigns to the codes listed in `d`. */
  function CountSum(d: seq<Code>, m: multiset<Code>): int
  {
    if |d| == 0 then 0 else CountSum(d[..|d| - 1], m) + m[d[|d| - 1]]
  }

  /** One more unit of `x` raises the total by one exactly when `x` is listed. */
  lemma {:induction false} CountSumAddOne(d: seq<Code>, m: multiset<Code>, x: Code)
    requires NoDuplicates(d)
    ensures CountSum(d, m + multiset{x}) == CountSum(d, m) + (if x in d then 1 else 0)
  {
    if |d| > 0 {
      var init := d[..|d| - 1];
      assert d == init + [d[|d| - 1]];
      CountSumAddOne(init, m, x);
    }
  }

  /** The counts of the distinct codes of `s` add up to its length. */
  lemma {:induction false} CountsSumToLength(s: seq<Code>)
    ensures CountSum(Distinct(s), multiset(s)) == |s|
  {
    if |s| > 0 {
      var init := s[..|s| - 1];
      var last := s[|s| - 1];
      assert s == init + [last];
      CountsSumToLength(init);
      CountSumAddOne(Distinct(init), multiset(init), last);
      DistinctAppend(init, last);
      if last !in init {
        var d := Distinct(init);
        assert (d + [last])[..|d|] == d;
      }
    }
  }

  /** Removing one entry of a duplicate-free list removes exactly that code. */
  lemma RemoveAtMembers(d: seq<Code>, j: int)
    requires NoDuplicates(d) && 0 <= j < |d|
    ensures NoDuplicates(RemoveAt(d, j))
    ensures forall c :: c in RemoveAt(d, j) <==> c in d && c != d[j]
  {
    var r := RemoveAt(d, j);
    forall c | c in d && c != d[j]
      ensures c in r
    {
      var k :| 0 <= k < |d| && d[k] == c;
      if k < j { assert r[k] == c; } else { assert r[k - 1] == c; }
    }
  }

  /** A list with no member is empty. */
  lemma EmptyIfNoMembers(d: seq<Code>)
    ensures (forall c :: c !in d) ==> d == []
  {
    if d != [] {
      assert d[0] in d;
    }
  }

  /** Removing from a list and then appending commute. */
  lemma RemoveAtAppend(s: seq<Code>, x: Code, i: int)
    requires 0 <= i < |s|
    ensures RemoveAt(s + [x], i) == RemoveAt(s, i) + [x]
  {
    assert (s + [x])[..i] == s[..i];
    assert (s + [x])[i + 1..] == s[i + 1..] + [x];
  }

  /** Removing the last element gives back the rest. */
  lemma RemoveAtLast(s: seq<Code>, x: Code)
    ensures RemoveAt(s + [x], |s|) == s
  {
    assert (s + [x])[..|s|] == s;
  }

  /** Appending adds the code to the distinct list only when it is new. */
  lemma DistinctAppend(s: seq<Code>, x: Code)
    ensures Distinct(s + [x]) == if x in s then Distinct(s) else Distinct(s) + [x]
  {
    assert (s + [x])[..|s|] == s;
  }

  /** Appending does not move the first occurrence of a code already present. */
  lemma IndexOfAppend(s: seq<Code>, x: Code, c: Code)
    ensures IndexOf(s + [x], c) == if c in s then IndexOf(s, c) else if c == x then |s| else -1
  {
    var t := s + [x];
    var i := IndexOf(t, c);
    assert t[..|s|] == s;
    if c in s {
      var k := IndexOf(s, c);
      assert t[k] == c;
      assert t[..k] == s[..k];
      assert i <= k ==> t[..i] == s[..i];
    }
  }

  /** The distinct codes come in order of their first appearance in `s`. */
  lemma {:induction false} DistinctFirstAppearanceOrder(s: seq<Code>)
    ensures forall i, j :: 0 <= i < j < |Distinct(s)| ==> IndexOf(s, Distinct(s)[i]) < IndexOf(s, Distinct(s)[j])
  {
    if |s| > 0 {
      var init := s[..|s| - 1];
      var last := s[|s| - 1];
      assert s == init + [last];
      DistinctFirstAppearanceOrder(init);
      DistinctAppend(init, last);
      var d := Distinct(init);
      forall i, j | 0 <= i < j < |Distinct(s)|
        ensures IndexOf(s, Distinct(s)[i]) < IndexOf(s, Distinct(s)[j])
      {
        var a := Distinct(s)[i];
        var b := Distinct(s)[j];
        IndexOfAppend(init, last, a);
        IndexOfAppend(init, last, b);
        if last in init || j < |d| {
          assert a == d[i] && b == d[j];
          assert a in init && b in init;
        } else {
          assert a == d[i] && a in init && b == last;
        }
      }
    }
  }
}
