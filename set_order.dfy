/**
 * The semantics of `Array.from(new Set(xs))` in JavaScript: the values of `xs`,
 * each once, in the order in which they were first inserted into the set.
 */
module SetOrder {

  /** No value occurs twice in `s`. */
  predicate Distinct<T(==)>(s: seq<T>)
  {
    forall i, j :: 0 <= i < j < |s| ==> s[i] != s[j]
  }

  /** The position of the first occurrence of `x` in `s`. */
  function FirstIndex<T(==)>(s: seq<T>, x: T): (i: nat)
    requires x in s
    ensures i < |s| && s[i] == x && x !in s[..i]
  {
    if s[0] == x then 0
    else
      var k := FirstIndex(s[1..], x);
      assert s[..k + 1] == [s[0]] + s[1..][..k];
      1 + k
  }

  /** A position holding `x` with no `x` before it is the first occurrence. */
  lemma FirstIndexAt<T>(s: seq<T>, x: T, i: nat)
    requires i < |s| && s[i] == x && x !in s[..i]
    ensures FirstIndex(s, x) == i
  {
  }

  /** Extending a sequence does not move the first occurrence of a value it already held. */
  lemma FirstIndexPrefix<T>(s: seq<T>, n: nat, x: T)
    requires n <= |s| && x in s[..n]
    ensures FirstIndex(s, x) == FirstIndex(s[..n], x) < n
  {
    var k := FirstIndex(s[..n], x);
    assert s[..n][..k] == s[..k];
    FirstIndexAt(s, x, k);
  }

  /**
   * `Array.from(new Set(s))`: the set is filled from left to right, a value
   * already present is not inserted again, and iteration follows insertion order.
   */
  function Dedupe<T(==)>(s: seq<T>): (r: seq<T>)
    ensures forall i :: 0 <= i < |r| ==> r[i] in s
    ensures forall i :: 0 <= i < |s| ==> s[i] in r
    ensures Distinct(r)
    ensures |r| <= |s|
  {
    if s == [] then []
    else
      var init, last := s[..|s| - 1], s[|s| - 1];
      assert s == init + [last];
      var d := Dedupe(init);
      if last in d then d else d + [last]
  }

  /** Every value of the input occurs exactly once in the output. */
  lemma {:induction false} DedupeExactlyOnce<T>(s: seq<T>, x: T)
    requires x in s
    ensures multiset(Dedupe(s))[x] == 1
  {
    var init, last := s[..|s| - 1], s[|s| - 1];
    assert s == init + [last];
    var d := Dedupe(init);
    if x in init {
      DedupeExactlyOnce(init, x);
      if last !in d {
        assert Dedupe(s) == d + [last];
        assert multiset(d + [last]) == multiset(d) + multiset{last};
      }
    } else {
      assert x == last && x !in d;
      assert Dedupe(s) == d + [x];
      assert multiset(d + [x]) == multiset(d) + multiset{x};
      assert multiset(d)[x] == 0;
    }
  }

  /** The output lists values in the order of their first occurrence in the input. */
  lemma {:induction false} DedupeOrder<T>(s: seq<T>, i: nat, j: nat)
    requires i < j < |Dedupe(s)|
    ensures FirstIndex(s, Dedupe(s)[i]) < FirstIndex(s, Dedupe(s)[j])
  {
    var n := |s|;
    var init, last := s[..n - 1], s[n - 1];
    assert s == init + [last];
    assert s[..n - 1] == init;
    var d := Dedupe(init);
    var r := Dedupe(s);
    if j < |d| {
      assert r[i] == d[i] && r[j] == d[j];
      DedupeOrder(init, i, j);
      FirstIndexPrefix(s, n - 1, d[i]);
      FirstIndexPrefix(s, n - 1, d[j]);
    } else {
      assert last !in d && r == d + [last] && r[j] == last && r[i] == d[i];
      assert last !in init;
      FirstIndexAt(s, last, n - 1);
      FirstIndexPrefix(s, n - 1, d[i]);
    }
  }

  /** `r` holds exactly the values of `s`, each once, in first-occurrence order. */
  ghost predicate ListsFirstOccurrences<T>(s: seq<T>, r: seq<T>)
  {
    && (forall i :: 0 <= i < |r| ==> r[i] in s)
    && (forall i :: 0 <= i < |s| ==> s[i] in r)
    && Distinct(r)
    && (forall i, j :: 0 <= i < j < |r| ==> r[i] in s && r[j] in s && FirstIndex(s, r[i]) < FirstIndex(s, r[j]))
  }

  /** The output has the three properties above. */
  lemma DedupeListsFirstOccurrences<T>(s: seq<T>)
    ensures ListsFirstOccurrences(s, Dedupe(s))
  {
    forall i, j | 0 <= i < j < |Dedupe(s)|
      ensures Dedupe(s)[i] in s && Dedupe(s)[j] in s
      ensures FirstIndex(s, Dedupe(s)[i]) < FirstIndex(s, Dedupe(s)[j])
    {
      DedupeOrder(s, i, j);
    }
  }

  /**
   * The three properties above determine the output: any sequence that holds
   * exactly the input's values, each once, in first-occurrence order, is `Dedupe(s)`.
   */
  lemma {:induction false} DedupeUnique<T>(s: seq<T>, r: seq<T>)
    requires ListsFirstOccurrences(s, r)
    ensures r == Dedupe(s)
    decreases |s|, 1
  {
    if s == [] {
      HeadIn(r, s);
    } else if s[|s| - 1] in s[..|s| - 1] {
      DedupeUniqueRepeatedLast(s, r);
    } else {
      DedupeUniqueNewLast(s, r);
    }
  }

  /** A sequence whose values all lie in `s` starts with a value of `s`. */
  lemma HeadIn<T>(r: seq<T>, s: seq<T>)
    requires forall i :: 0 <= i < |r| ==> r[i] in s
    ensures r != [] ==> r[0] in s
  {
  }

  /** The case of `DedupeUnique` where the last input value occurred before. */
  lemma {:induction false} DedupeUniqueRepeatedLast<T>(s: seq<T>, r: seq<T>)
    requires ListsFirstOccurrences(s, r)
    requires s != [] && s[|s| - 1] in s[..|s| - 1]
    ensures r == Dedupe(s)
    decreases |s|, 0
  {
    var n := |s|;
    var init, last := s[..n - 1], s[n - 1];
    assert s == init + [last];
    forall x | x in r
      ensures x in init
    {
      assert x in s;
    }
    forall i, j | 0 <= i < j < |r|
      ensures r[i] in init && r[j] in init
      ensures FirstIndex(init, r[i]) < FirstIndex(init, r[j])
    {
      FirstIndexPrefix(s, n - 1, r[i]);
      FirstIndexPrefix(s, n - 1, r[j]);
    }
    DedupeUnique(init, r);
  }

  /** The case of `DedupeUnique` where the last input value is new. */
  lemma {:induction false} DedupeUniqueNewLast<T>(s: seq<T>, r: seq<T>)
    requires ListsFirstOccurrences(s, r)
    requires s != [] && s[|s| - 1] !in s[..|s| - 1]
    ensures r == Dedupe(s)
    decreases |s|, 0
  {
    var init, last := s[..|s| - 1], s[|s| - 1];
    assert s == init + [last];
    NewLastComesLast(s, r);
    var r' := r[..|r| - 1];
    assert r == r' + [last];
    DropNewLast(s, r);
    DedupeUnique(init, r');
  }

  /** A value that first occurs at the end of `s` is listed last. */
  lemma NewLastComesLast<T>(s: seq<T>, r: seq<T>)
    requires ListsFirstOccurrences(s, r)
    requires s != [] && s[|s| - 1] !in s[..|s| - 1]
    ensures r != [] && r[|r| - 1] == s[|s| - 1]
  {
    var n := |s|;
    var last := s[n - 1];
    assert last in r;
    FirstIndexAt(s, last, n - 1);
  }

  /** Without its last value, `r` lists the first occurrences of `s` without its last value. */
  lemma DropNewLast<T>(s: seq<T>, r: seq<T>)
    requires ListsFirstOccurrences(s, r)
    requires s != [] && s[|s| - 1] !in s[..|s| - 1]
    requires r != [] && r[|r| - 1] == s[|s| - 1]
    ensures ListsFirstOccurrences(s[..|s| - 1], r[..|r| - 1])
  {
    var init, r' := s[..|s| - 1], r[..|r| - 1];
    DropNewLastInside(s, r, init, r');
    DropNewLastCovers(s, r, init, r');
    DropNewLastOrdered(s, r, init, r');
  }

  lemma DropNewLastInside<T>(s: seq<T>, r: seq<T>, init: seq<T>, r': seq<T>)
    requires forall i :: 0 <= i < |r| ==> r[i] in s
    requires Distinct(r)
    requires s != [] && r != [] && r[|r| - 1] == s[|s| - 1]
    requires init == s[..|s| - 1] && r' == r[..|r| - 1]
    ensures forall i :: 0 <= i < |r'| ==> r'[i] in init
  {
    var n, k := |s|, |r| - 1;
    assert s == init + [s[n - 1]];
    forall i | 0 <= i < k
      ensures r'[i] in init
    {
      assert r'[i] == r[i] != r[k];
      assert r[i] in s;
    }
  }

  lemma DropNewLastCovers<T>(s: seq<T>, r: seq<T>, init: seq<T>, r': seq<T>)
    requires forall i :: 0 <= i < |s| ==> s[i] in r
    requires s != [] && s[|s| - 1] !in s[..|s| - 1]
    requires r != [] && r[|r| - 1] == s[|s| - 1]
    requires init == s[..|s| - 1] && r' == r[..|r| - 1]
    ensures forall i :: 0 <= i < |init| ==> init[i] in r'
  {
    var n, k := |s|, |r| - 1;
    forall i | 0 <= i < |init|
      ensures init[i] in r'
    {
      assert init[i] == s[i] && s[i] in r;
      assert s[i] != s[n - 1];
      var t :| 0 <= t < |r| && r[t] == s[i];
      assert r'[t] == s[i];
    }
  }

  lemma DropNewLastOrdered<T>(s: seq<T>, r: seq<T>, init: seq<T>, r': seq<T>)
    requires forall i, j :: 0 <= i < j < |r| ==> r[i] in s && r[j] in s && FirstIndex(s, r[i]) < FirstIndex(s, r[j])
    requires Distinct(r)
    requires s != [] && r != [] && r[|r| - 1] == s[|s| - 1]
    requires init == s[..|s| - 1] && r' == r[..|r| - 1]
    ensures forall i, j :: 0 <= i < j < |r'| ==>
      r'[i] in init && r'[j] in init && FirstIndex(init, r'[i]) < FirstIndex(init, r'[j])
  {
    var n, k := |s|, |r| - 1;
    assert s == init + [s[n - 1]];
    forall i, j | 0 <= i < j < k
      ensures r'[i] in init && r'[j] in init
      ensures FirstIndex(init, r'[i]) < FirstIndex(init, r'[j])
    {
      assert r'[i] == r[i] && r'[j] == r[j];
      assert r[i] != r[k] && r[j] != r[k];
      assert r[i] in s && r[j] in s;
      FirstIndexPrefix(s, n - 1, r[i]);
      FirstIndexPrefix(s, n - 1, r[j]);
    }
  }

}
