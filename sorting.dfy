/** The two orderings the detector reports gaps in, as stable sorts. */
module GapSort {
  import opened GapScan

  /** Chronological (by starting packet number, ascending) or by severity
      (by duration, descending). */
  datatype SortKey = ByStartPkt | ByGapDesc

  /** The key a stable ascending sort compares; sorting descending with
      stability kept is sorting ascending on the negated duration. */
  function Key(k: SortKey, g: Gap): real
  {
    match k
    case ByStartPkt => g.startPkt as real
    case ByGapDesc => -g.gap
  }

  ghost predicate Sorted(s: seq<Gap>, k: SortKey)
  {
    forall i, j :: 0 <= i < j < |s| ==> Key(k, s[i]) <= Key(k, s[j])
  }

  ghost predicate StrictlySorted(s: seq<Gap>, k: SortKey)
  {
    forall i, j :: 0 <= i < j < |s| ==> Key(k, s[i]) < Key(k, s[j])
  }

  /** `x` placed into sorted `s` after every element whose key is not greater. */
  function Insert(x: Gap, s: seq<Gap>, k: SortKey): seq<Gap>
    decreases |s|
  {
    if s == [] then [x]
    else if Key(k, x) < Key(k, s[0]) then [x] + s
    else [s[0]] + Insert(x, s[1..], k)
  }

  /** A stable sort: each element in turn is placed after all earlier ones
      whose key is not greater (the guarantee of the source's list sort). */
  function SortBy(s: seq<Gap>, k: SortKey): seq<Gap>
    decreases |s|
  {
    if s == [] then [] else Insert(s[|s| - 1], SortBy(s[..|s| - 1], k), k)
  }

  /** The elements of `s` whose key is `v`, in order. */
  function WithKey(s: seq<Gap>, k: SortKey, v: real): seq<Gap>
    decreases |s|
  {
    if s == [] then []
    else WithKey(s[..|s| - 1], k, v) + (if Key(k, s[|s| - 1]) == v then [s[|s| - 1]] else [])
  }

  lemma {:induction false} WithKeyAppend(a: seq<Gap>, b: seq<Gap>, k: SortKey, v: real)
    ensures WithKey(a + b, k, v) == WithKey(a, k, v) + WithKey(b, k, v)
    decreases |b|
  {
    if b == [] {
      assert a + b == a;
    } else {
      assert (a + b)[..|a + b| - 1] == a + b[..|b| - 1];
      WithKeyAppend(a, b[..|b| - 1], k, v);
    }
  }

  lemma {:induction false} WithKeyNone(s: seq<Gap>, k: SortKey, v: real)
    requires forall i :: 0 <= i < |s| ==> Key(k, s[i]) != v
    ensures WithKey(s, k, v) == []
    decreases |s|
  {
    if s != [] {
      WithKeyNone(s[..|s| - 1], k, v);
    }
  }

  lemma {:induction false} InsertPermutation(x: Gap, s: seq<Gap>, k: SortKey)
    ensures multiset(Insert(x, s, k)) == multiset(s) + multiset{x}
    decreases |s|
  {
    if s != [] && Key(k, x) >= Key(k, s[0]) {
      InsertPermutation(x, s[1..], k);
      assert s == [s[0]] + s[1..];
    }
  }

  lemma {:induction false} InsertSorted(x: Gap, s: seq<Gap>, k: SortKey)
    requires Sorted(s, k)
    ensures Sorted(Insert(x, s, k), k)
    decreases |s|
  {
    if s == [] {
    } else if Key(k, x) < Key(k, s[0]) {
      SortedCons(x, s, k);
    } else {
      var t := s[1..];
      SortedTail(s, k);
      InsertSorted(x, t, k);
      InsertAbove(x, t, s[0], k);
      SortedCons(s[0], Insert(x, t, k), k);
    }
  }

  /** Inserting into gaps whose keys are all at least h's, an element whose
      key is too, keeps them all at least h's. */
  lemma InsertAbove(x: Gap, t: seq<Gap>, h: Gap, k: SortKey)
    requires Key(k, h) <= Key(k, x)
    requires forall j :: 0 <= j < |t| ==> Key(k, h) <= Key(k, t[j])
    ensures forall j :: 0 <= j < |Insert(x, t, k)| ==> Key(k, h) <= Key(k, Insert(x, t, k)[j])
  {
    InsertPermutation(x, t, k);
    var r := Insert(x, t, k);
    forall j | 0 <= j < |r|
      ensures Key(k, h) <= Key(k, r[j])
    {
      assert r[j] in multiset(r);
      assert r[j] == x || r[j] in multiset(t);
    }
  }

  /** A sorted sequence stays sorted behind an element whose key is not
      greater than the first one's. */
  lemma SortedCons(h: Gap, r: seq<Gap>, k: SortKey)
    requires Sorted(r, k)
    requires r != [] ==> Key(k, h) <= Key(k, r[0])
    ensures Sorted([h] + r, k)
  {
  }

  /** Placing an element in front of a sorted sequence whose keys are all
      greater does not disturb any key's subsequence. */
  lemma InsertStableFront(x: Gap, s: seq<Gap>, k: SortKey, v: real)
    requires Sorted(s, k) && s != [] && Key(k, x) < Key(k, s[0])
    ensures WithKey([x] + s, k, v) == WithKey(s, k, v) + WithKey([x], k, v)
  {
    WithKeyAppend([x], s, k, v);
    WithKeySingle(x, k, v);
    if Key(k, x) == v {
      assert forall i :: 0 <= i < |s| ==> Key(k, s[0]) <= Key(k, s[i]);
      WithKeyNone(s, k, v);
    }
  }

  lemma WithKeySingle(x: Gap, k: SortKey, v: real)
    ensures WithKey([x], k, v) == if Key(k, x) == v then [x] else []
  {
    assert [x][..0] == [];
  }

  lemma {:induction false} InsertStable(x: Gap, s: seq<Gap>, k: SortKey, v: real)
    requires Sorted(s, k)
    ensures WithKey(Insert(x, s, k), k, v) == WithKey(s, k, v) + WithKey([x], k, v)
    decreases |s|
  {
    if s == [] {
    } else if Key(k, x) < Key(k, s[0]) {
      InsertStableFront(x, s, k, v);
    } else {
      var t := s[1..];
      var r := Insert(x, t, k);
      SortedTail(s, k);
      InsertStable(x, t, k, v);
      assert s == [s[0]] + t;
      WithKeyAppend([s[0]], r, k, v);
      WithKeyAppend([s[0]], t, k, v);
      GapsRegroup3(WithKey([s[0]], k, v), WithKey(t, k, v), WithKey([x], k, v),
        WithKey(Insert(x, s, k), k, v), WithKey(r, k, v), WithKey(s, k, v));
    }
  }

  lemma SortedSplit(gs: seq<Gap>, k: SortKey)
    requires Sorted(gs, k) && gs != []
    ensures Sorted(gs[..|gs| - 1], k)
    ensures forall j :: 0 <= j < |gs| - 1 ==> Key(k, gs[j]) <= Key(k, gs[|gs| - 1])
  {
  }

  lemma SortedSnoc(r: seq<Gap>, x: Gap, k: SortKey)
    requires Sorted(r, k)
    requires forall i :: 0 <= i < |r| ==> Key(k, r[i]) <= Key(k, x)
    ensures Sorted(r + [x], k)
  {
  }

  lemma SortedTail(s: seq<Gap>, k: SortKey)
    requires Sorted(s, k) && s != []
    ensures Sorted(s[1..], k)
  {
  }

  /** The sort yields its key order. */
  lemma {:induction false} SortBySorted(s: seq<Gap>, k: SortKey)
    ensures Sorted(SortBy(s, k), k)
    decreases |s|
  {
    if s != [] {
      SortBySorted(s[..|s| - 1], k);
      InsertSorted(s[|s| - 1], SortBy(s[..|s| - 1], k), k);
    }
  }

  /** The sort neither adds, loses nor duplicates a gap. */
  lemma {:induction false} SortByPermutation(s: seq<Gap>, k: SortKey)
    ensures multiset(SortBy(s, k)) == multiset(s)
    decreases |s|
  {
    if s != [] {
      SortByPermutation(s[..|s| - 1], k);
      InsertPermutation(s[|s| - 1], SortBy(s[..|s| - 1], k), k);
      assert s == s[..|s| - 1] + [s[|s| - 1]];
    }
  }

  /** The sort is stable: the gaps sharing one key keep their input order. */
  lemma {:induction false} SortByStable(s: seq<Gap>, k: SortKey, v: real)
    ensures WithKey(SortBy(s, k), k, v) == WithKey(s, k, v)
    decreases |s|
  {
    if s != [] {
      var init := s[..|s| - 1];
      var x := s[|s| - 1];
      SortByStable(init, k, v);
      SortBySorted(init, k);
      InsertStable(x, SortBy(init, k), k, v);
      WithKeySingle(x, k, v);
    }
  }

  /** Two elements already in key order, ties included, stay in place. */
  lemma SortByTiedPair(a: Gap, b: Gap, k: SortKey)
    requires Key(k, a) <= Key(k, b)
    ensures SortBy([a, b], k) == [a, b]
  {
    var noGaps: seq<Gap> := [];
    assert [a, b][..1] == [a] && [a][..0] == noGaps;
    assert SortBy([a], k) == [a];
    assert Insert(b, [a], k) == [a] + Insert(b, [], k);
  }

  /** Two such sequences start with the same element. */
  lemma SortedPermutationHead(a: seq<Gap>, b: seq<Gap>, k: SortKey)
    requires Sorted(a, k) && StrictlySorted(b, k) && multiset(a) == multiset(b) && a != []
    ensures b != [] && a[0] == b[0]
  {
    assert a[0] in multiset(b);
    var j :| 0 <= j < |b| && b[j] == a[0];
    assert b[0] in multiset(a);
    var i :| 0 <= i < |a| && a[i] == b[0];
    assert Key(k, a[0]) <= Key(k, a[i]);
  }

  lemma SortedTails(a: seq<Gap>, b: seq<Gap>, k: SortKey)
    requires Sorted(a, k) && StrictlySorted(b, k) && a != [] && b != []
    ensures Sorted(a[1..], k) && StrictlySorted(b[1..], k)
  {
  }

  lemma MultisetTails(a: seq<Gap>, b: seq<Gap>)
    requires a != [] && b != [] && a[0] == b[0] && multiset(a) == multiset(b)
    ensures multiset(a[1..]) == multiset(b[1..])
  {
    assert a == [a[0]] + a[1..] && b == [b[0]] + b[1..];
    assert multiset(a[1..]) == multiset(a) - multiset{a[0]};
    assert multiset(b[1..]) == multiset(b) - multiset{b[0]};
  }

  /** A sorted sequence that is a permutation of a strictly sorted one is
      that sequence: so sorting cannot reorder gaps with distinct keys. */
  lemma {:induction false} SortedPermutationUnique(a: seq<Gap>, b: seq<Gap>, k: SortKey)
    requires Sorted(a, k) && StrictlySorted(b, k) && multiset(a) == multiset(b)
    ensures a == b
    decreases |a|
  {
    if a == [] {
      assert |b| == |multiset(b)|;
    } else {
      SortedPermutationHead(a, b, k);
      SortedTails(a, b, k);
      MultisetTails(a, b);
      SortedPermutationUnique(a[1..], b[1..], k);
      assert a == [a[0]] + a[1..] && b == [b[0]] + b[1..];
    }
  }

  /** Sorting a sequence already strictly in key order changes nothing. */
  lemma SortByStrictlySortedIsIdentity(s: seq<Gap>, k: SortKey)
    requires StrictlySorted(s, k)
    ensures SortBy(s, k) == s
  {
    SortBySorted(s, k);
    SortByPermutation(s, k);
    SortedPermutationUnique(SortBy(s, k), s, k);
  }

  /** Sorting two permutations of each other gives the same sequence when the
      keys are distinct. */
  lemma SortByPermutationsAgree(a: seq<Gap>, b: seq<Gap>, k: SortKey)
    requires multiset(a) == multiset(b) && StrictlySorted(b, k)
    ensures SortBy(a, k) == b
  {
    SortBySorted(a, k);
    SortByPermutation(a, k);
    SortedPermutationUnique(SortBy(a, k), b, k);
  }
}
