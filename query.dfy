/** The store queries the routes issue, as pure functions over a table kept in
    insertion order: `findFirst` without an order (the first matching row),
    `findFirst` ordered by a key descending (the matching row with the largest
    key, the first of them on a tie), and `orderBy ... desc` (a stable sort). */
module Query {
  import opened Js

  /** `findFirst({ where: p })`: the lowest index whose row satisfies p. */
  function FirstWhere<T>(s: seq<T>, p: T -> bool): (r: Option<nat>)
    ensures r.Some? ==> r.value < |s| && p(s[r.value]) && forall j :: 0 <= j < r.value ==> !p(s[j])
    ensures r.None? ==> forall j :: 0 <= j < |s| ==> !p(s[j])
  {
    FirstWhereFrom(s, p, 0)
  }

  function FirstWhereFrom<T>(s: seq<T>, p: T -> bool, k: nat): (r: Option<nat>)
    requires k <= |s|
    requires forall j :: 0 <= j < k ==> !p(s[j])
    ensures r.Some? ==> k <= r.value < |s| && p(s[r.value]) && forall j :: 0 <= j < r.value ==> !p(s[j])
    ensures r.None? ==> forall j :: 0 <= j < |s| ==> !p(s[j])
    decreases |s| - k
  {
    if k == |s| then None
    else if p(s[k]) then Some(k)
    else FirstWhereFrom(s, p, k + 1)
  }

  /** Two tables whose rows agree, position by position, on the predicates
      asked of them give the same first match. */
  lemma FirstWhereCongruent<T, U>(s: seq<T>, p: T -> bool, t: seq<U>, q: U -> bool)
    requires |s| == |t|
    requires forall i :: 0 <= i < |s| ==> p(s[i]) == q(t[i])
    ensures FirstWhere(s, p) == FirstWhere(t, q)
  {
  }

  /** A row appended after the table is found only when no earlier row matches. */
  lemma FirstWhereAppend<T>(s: seq<T>, x: T, p: T -> bool)
    ensures FirstWhere(s, p).Some? ==> FirstWhere(s + [x], p) == FirstWhere(s, p)
    ensures FirstWhere(s, p).None? ==> FirstWhere(s + [x], p) == (if p(x) then Some(|s|) else None)
  {
    assert forall j :: 0 <= j < |s| ==> (s + [x])[j] == s[j];
    assert (s + [x])[|s|] == x;
  }

  /** `findMany({ where: p })` in table order. */
  function Where<T(!new)>(s: seq<T>, p: T -> bool): (r: seq<T>)
    ensures forall x :: x in r <==> x in s && p(x)
    ensures forall i :: 0 <= i < |r| ==> p(r[i])
    ensures |r| <= |s|
  {
    if s == [] then []
    else (if p(s[0]) then [s[0]] else []) + Where(s[1..], p)
  }

  lemma {:induction false} WhereAll<T(!new)>(s: seq<T>, p: T -> bool)
    requires forall i :: 0 <= i < |s| ==> p(s[i])
    ensures Where(s, p) == s
  {
    if s != [] {
      WhereAll(s[1..], p);
    }
  }

  lemma {:induction false} WhereNone<T(!new)>(s: seq<T>, p: T -> bool)
    requires forall i :: 0 <= i < |s| ==> !p(s[i])
    ensures Where(s, p) == []
  {
    if s != [] {
      WhereNone(s[1..], p);
    }
  }

  /** `findFirst({ where: p, orderBy: { key: "desc" } })`: a row satisfying p
      whose key no other such row exceeds; on a tie the earliest one. */
  function MaxWhere<T>(s: seq<T>, p: T -> bool, key: T -> int): (r: Option<nat>)
    ensures r.Some? ==> r.value < |s| && p(s[r.value])
    ensures r.Some? ==> forall j :: 0 <= j < |s| && p(s[j]) ==> key(s[j]) <= key(s[r.value])
    ensures r.None? ==> forall j :: 0 <= j < |s| ==> !p(s[j])
    decreases |s|
  {
    if s == [] then None
    else
      var rest := MaxWhere(s[1..], p, key);
      if !p(s[0]) then
        (if rest.Some? then Some(rest.value + 1) else None)
      else if rest.Some? && key(s[rest.value + 1]) > key(s[0]) then
        Some(rest.value + 1)
      else
        Some(0)
  }

  ghost predicate Descending<T>(s: seq<T>, key: T -> int) {
    forall i, j :: 0 <= i < j < |s| ==> key(s[j]) <= key(s[i])
  }

  /** Insertion in front of the first element whose key does not exceed x's,
      so x stays ahead of the equal keys that follow it (stability). */
  function InsertDesc<T>(x: T, s: seq<T>, key: T -> int): (r: seq<T>)
    ensures multiset(r) == multiset(s) + multiset{x}
  {
    if s == [] || key(s[0]) <= key(x) then [x] + s
    else
      assert s == [s[0]] + s[1..];
      [s[0]] + InsertDesc(x, s[1..], key)
  }

  /** A bound on every key survives insertion. */
  lemma {:induction false} InsertDescBound<T>(x: T, s: seq<T>, key: T -> int, b: int)
    requires key(x) <= b && forall i :: 0 <= i < |s| ==> key(s[i]) <= b
    ensures forall i :: 0 <= i < |InsertDesc(x, s, key)| ==> key(InsertDesc(x, s, key)[i]) <= b
  {
    if s != [] && key(s[0]) > key(x) {
      InsertDescBound(x, s[1..], key, b);
    }
  }

  lemma {:induction false} InsertDescSorted<T>(x: T, s: seq<T>, key: T -> int)
    requires Descending(s, key)
    ensures Descending(InsertDesc(x, s, key), key)
  {
    if s != [] && key(s[0]) > key(x) {
      var tail := InsertDesc(x, s[1..], key);
      InsertDescSorted(x, s[1..], key);
      InsertDescBound(x, s[1..], key, key(s[0]));
      var r := [s[0]] + tail;
      forall i, j | 0 <= i < j < |r| ensures key(r[j]) <= key(r[i]) {
        assert r[j] == tail[j - 1];
        if i > 0 {
          assert r[i] == tail[i - 1];
        }
      }
    }
  }

  /** `orderBy: { key: "desc" }` as a stable sort. */
  function SortDesc<T>(s: seq<T>, key: T -> int): (r: seq<T>)
    ensures multiset(r) == multiset(s) && |r| == |s|
    ensures Descending(r, key)
  {
    if s == [] then []
    else
      assert s == [s[0]] + s[1..];
      InsertDescSorted(s[0], SortDesc(s[1..], key), key);
      InsertDesc(s[0], SortDesc(s[1..], key), key)
  }

  /** Sequences with the same multiset have the same members. */
  lemma MultisetMembers<T>(s: seq<T>, t: seq<T>)
    requires multiset(s) == multiset(t)
    ensures forall x :: x in s <==> x in t
  {
    forall x ensures x in s <==> x in t {
      assert x in s <==> x in multiset(s);
      assert x in t <==> x in multiset(t);
    }
  }

  /** In a descending sequence, no element left out of a prefix has a
      larger key than one kept in it. */
  lemma PrefixHoldsLargest<T>(s: seq<T>, m: nat, key: T -> int)
    requires Descending(s, key) && m <= |s|
    ensures forall x, y :: x in s && x !in s[..m] && y in s[..m] ==> key(x) <= key(y)
  {
    forall x, y | x in s && x !in s[..m] && y in s[..m] ensures key(x) <= key(y) {
      var k :| 0 <= k < |s| && s[k] == x;
      var l :| 0 <= l < m && s[..m][l] == y;
      assert m <= k;
    }
  }

  /** The index of the first element of largest key. */
  function FirstArgMax<T>(s: seq<T>, key: T -> int): (i: nat)
    requires |s| > 0
    ensures i < |s|
    ensures forall j :: 0 <= j < |s| ==> key(s[j]) <= key(s[i])
    ensures forall j :: 0 <= j < i ==> key(s[j]) < key(s[i])
  {
    if |s| == 1 then 0
    else
      var m := FirstArgMax(s[1..], key);
      if key(s[0]) >= key(s[1..][m]) then 0 else m + 1
  }

  /** The stable descending sort starts with the first element of largest key. */
  lemma {:induction false} SortDescHead<T>(s: seq<T>, key: T -> int)
    requires |s| > 0
    ensures |SortDesc(s, key)| == |s|
    ensures SortDesc(s, key)[0] == s[FirstArgMax(s, key)]
  {
    assert |multiset(SortDesc(s, key))| == |multiset(s)|;
    if |s| > 1 {
      var t := SortDesc(s[1..], key);
      SortDescHead(s[1..], key);
      assert t[0] == s[1..][FirstArgMax(s[1..], key)];
    }
  }

  function Reverse<T>(s: seq<T>): (r: seq<T>)
    ensures |r| == |s|
    ensures forall k :: 0 <= k < |s| ==> r[k] == s[|s| - 1 - k]
  {
    if s == [] then [] else Reverse(s[1..]) + [s[0]]
  }

  ghost predicate Ascending<T>(s: seq<T>, key: T -> int) {
    forall i, j :: 0 <= i < j < |s| ==> key(s[i]) <= key(s[j])
  }

  /** Reversing a descending sequence gives an ascending one. */
  lemma ReverseDescending<T>(s: seq<T>, key: T -> int)
    requires Descending(s, key)
    ensures Ascending(Reverse(s), key)
  {
    forall i, j | 0 <= i < j < |s| ensures key(Reverse(s)[i]) <= key(Reverse(s)[j]) {
      assert Reverse(s)[i] == s[|s| - 1 - i] && Reverse(s)[j] == s[|s| - 1 - j];
    }
  }

  lemma {:induction false} ReverseMultiset<T>(s: seq<T>)
    ensures multiset(Reverse(s)) == multiset(s)
  {
    if s != [] {
      ReverseMultiset(s[1..]);
      assert s == [s[0]] + s[1..];
    }
  }
}
