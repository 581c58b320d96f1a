/** Rules in order: a stable sort by descending priority and then descending specificity,
    and the scan for the first rule that matches. */
module Ranking {
  import opened Wrappers

  datatype Rank = Rank(priority: int, specificity: nat)

  predicate Outranks(a: Rank, b: Rank) {
    a.priority > b.priority || (a.priority == b.priority && a.specificity > b.specificity)
  }

  /** `x` goes before everything it is not outranked by. */
  function Insert<T>(x: T, s: seq<T>, rank: T -> Rank): seq<T> {
    if s == [] then [x]
    else if Outranks(rank(s[0]), rank(x)) then [s[0]] + Insert(x, s[1..], rank)
    else [x] + s
  }

  /** sort.SliceStable with the order above. */
  function StableSort<T>(s: seq<T>, rank: T -> Rank): seq<T> {
    if s == [] then [] else Insert(s[0], StableSort(s[1..], rank), rank)
  }

  predicate Sorted<T>(s: seq<T>, rank: T -> Rank) {
    forall i, j :: 0 <= i < j < |s| ==> !Outranks(rank(s[j]), rank(s[i]))
  }

  /** The scan: the first item that matches. */
  function FirstMatch<T>(s: seq<T>, matches: T -> bool): Option<T> {
    if s == [] then None
    else if matches(s[0]) then Some(s[0])
    else FirstMatch(s[1..], matches)
  }

  lemma {:induction false} InsertAdds<T>(x: T, s: seq<T>, rank: T -> Rank)
    ensures multiset(Insert(x, s, rank)) == multiset(s) + multiset{x}
  {
    if s != [] {
      assert s == [s[0]] + s[1..];
      InsertAdds(x, s[1..], rank);
    }
  }

  lemma {:induction false} InsertSorts<T>(x: T, s: seq<T>, rank: T -> Rank)
    requires Sorted(s, rank)
    ensures Sorted(Insert(x, s, rank), rank)
  {
    if s != [] && Outranks(rank(s[0]), rank(x)) {
      var t := Insert(x, s[1..], rank);
      InsertSorts(x, s[1..], rank);
      InsertAdds(x, s[1..], rank);
      forall j | 0 <= j < |t|
        ensures !Outranks(rank(t[j]), rank(s[0]))
      {
        assert t[j] in multiset(t);
      }
    }
  }

  /** The sort yields the same items, in order. */
  lemma {:induction false} SortSorts<T>(s: seq<T>, rank: T -> Rank)
    ensures Sorted(StableSort(s, rank), rank)
    ensures multiset(StableSort(s, rank)) == multiset(s)
  {
    if s != [] {
      SortSorts(s[1..], rank);
      InsertSorts(s[0], StableSort(s[1..], rank), rank);
      InsertAdds(s[0], StableSort(s[1..], rank), rank);
      assert s == [s[0]] + s[1..];
    }
  }

  /** The items of one rank, in order. */
  function OfRank<T>(s: seq<T>, rank: T -> Rank, r: Rank): seq<T> {
    if s == [] then []
    else (if rank(s[0]) == r then [s[0]] else []) + OfRank(s[1..], rank, r)
  }

  lemma {:induction false} InsertIsStable<T>(x: T, s: seq<T>, rank: T -> Rank, r: Rank)
    ensures OfRank(Insert(x, s, rank), rank, r) == (if rank(x) == r then [x] else []) + OfRank(s, rank, r)
  {
    if s != [] && Outranks(rank(s[0]), rank(x)) {
      InsertIsStable(x, s[1..], rank, r);
      assert Insert(x, s, rank)[1..] == Insert(x, s[1..], rank);
    } else {
      assert Insert(x, s, rank)[1..] == s;
    }
  }

  /** And it is stable: items of equal rank keep their order. */
  lemma {:induction false} SortIsStable<T>(s: seq<T>, rank: T -> Rank, r: Rank)
    ensures OfRank(StableSort(s, rank), rank, r) == OfRank(s, rank, r)
  {
    if s != [] {
      SortIsStable(s[1..], rank, r);
      InsertIsStable(s[0], StableSort(s[1..], rank), rank, r);
    }
  }

  /** A higher priority, or the same and a higher specificity, or the same and an earlier place. */
  predicate Precedes(a: Rank, i: int, b: Rank, j: int) {
    || a.priority > b.priority
    || (a.priority == b.priority && a.specificity > b.specificity)
    || (a == b && i < j)
  }

  /** The best match at a position: it precedes every other. */
  predicate IsBest<T>(s: seq<T>, rank: T -> Rank, matches: T -> bool, i: int) {
    && 0 <= i < |s| && matches(s[i])
    && forall j :: 0 <= j < |s| && j != i && matches(s[j]) ==> Precedes(rank(s[i]), i, rank(s[j]), j)
  }

  /** There is at most one. */
  lemma BestIsUnique<T>(s: seq<T>, rank: T -> Rank, matches: T -> bool, i: int, j: int)
    requires IsBest(s, rank, matches, i) && IsBest(s, rank, matches, j)
    ensures i == j
  {
  }

  predicate SomeMatch<T>(s: seq<T>, matches: T -> bool) {
    exists i :: 0 <= i < |s| && matches(s[i])
  }

  lemma {:induction false} FirstOfSorted<T>(s: seq<T>, rank: T -> Rank, matches: T -> bool)
    requires Sorted(s, rank)
    ensures FirstMatch(s, matches).Some? <==> SomeMatch(s, matches)
    ensures FirstMatch(s, matches).Some? ==> matches(FirstMatch(s, matches).value)
    ensures FirstMatch(s, matches).Some? ==>
      forall j :: 0 <= j < |s| && matches(s[j]) ==> !Outranks(rank(s[j]), rank(FirstMatch(s, matches).value))
  {
    if s != [] {
      FirstOfSorted(s[1..], rank, matches);
      if SomeMatch(s, matches) && !matches(s[0]) {
        var i :| 0 <= i < |s| && matches(s[i]);
        assert s[1..][i - 1] == s[i];
      }
      forall j | 0 <= j < |s| && matches(s[j]) && !matches(s[0])
        ensures s[j] == s[1..][j - 1]
      {
      }
    }
  }

  lemma {:induction false} FirstIsMember<T>(s: seq<T>, matches: T -> bool)
    requires FirstMatch(s, matches).Some?
    ensures exists i :: 0 <= i < |s| && s[i] == FirstMatch(s, matches).value
  {
    if !matches(s[0]) {
      FirstIsMember(s[1..], matches);
      var i :| 0 <= i < |s| - 1 && s[1..][i] == FirstMatch(s[1..], matches).value;
      assert s[i + 1] == s[1..][i];
    }
  }

  lemma NoneOutranks<T>(x: T, s: seq<T>, rank: T -> Rank, matches: T -> bool)
    requires s != [] && Sorted(s, rank) && !Outranks(rank(s[0]), rank(x))
    ensures FirstMatch(s, matches).Some? ==> !Outranks(rank(FirstMatch(s, matches).value), rank(x))
  {
    if FirstMatch(s, matches).Some? {
      FirstIsMember(s, matches);
    }
  }

  /** Inserting a match in front of the list puts it in front of the scan, unless what the
      scan found outranks it. */
  lemma {:induction false} FirstAfterInsert<T>(x: T, s: seq<T>, rank: T -> Rank, matches: T -> bool)
    requires Sorted(s, rank)
    ensures
      var found := FirstMatch(s, matches);
      FirstMatch(Insert(x, s, rank), matches) ==
        if matches(x) && !(found.Some? && Outranks(rank(found.value), rank(x))) then Some(x) else found
  {
    if s != [] && Outranks(rank(s[0]), rank(x)) {
      FirstAfterInsert(x, s[1..], rank, matches);
    } else if s != [] {
      FirstOfSorted(s, rank, matches);
      NoneOutranks(x, s, rank, matches);
    }
  }

  lemma MatchInRest<T>(s: seq<T>, matches: T -> bool)
    requires s != []
    ensures SomeMatch(s, matches) <==> matches(s[0]) || SomeMatch(s[1..], matches)
  {
    assert forall i :: 0 < i < |s| ==> s[i] == s[1..][i - 1];
  }

  lemma BestOfLonger<T>(s: seq<T>, rank: T -> Rank, matches: T -> bool, i: int)
    requires s != [] && IsBest(s[1..], rank, matches, i)
    ensures IsBest(s, rank, matches, if matches(s[0]) && !Outranks(rank(s[i + 1]), rank(s[0])) then 0 else i + 1)
  {
    assert forall j :: 0 < j < |s| ==> s[j] == s[1..][j - 1];
  }

  lemma OnlyHeadMatches<T>(s: seq<T>, rank: T -> Rank, matches: T -> bool)
    requires s != [] && matches(s[0]) && !SomeMatch(s[1..], matches)
    ensures IsBest(s, rank, matches, 0)
  {
    assert forall j :: 0 < j < |s| ==> s[j] == s[1..][j - 1];
  }

  /** Sorting stably and taking the first match picks the best match of the original list,
      whatever the ranks and the condition. */
  lemma {:induction false} ScanPicksBest<T>(s: seq<T>, rank: T -> Rank, matches: T -> bool)
    ensures FirstMatch(StableSort(s, rank), matches).Some? <==> SomeMatch(s, matches)
    ensures FirstMatch(StableSort(s, rank), matches).Some? ==>
      exists i :: IsBest(s, rank, matches, i) && s[i] == FirstMatch(StableSort(s, rank), matches).value
  {
    if s != [] {
      var rest := s[1..];
      var found := FirstMatch(StableSort(rest, rank), matches);
      ScanPicksBest(rest, rank, matches);
      SortSorts(rest, rank);
      FirstAfterInsert(s[0], StableSort(rest, rank), rank, matches);
      MatchInRest(s, matches);
      if found.Some? {
        var i :| IsBest(rest, rank, matches, i) && rest[i] == found.value;
        BestOfLonger(s, rank, matches, i);
      } else if matches(s[0]) {
        OnlyHeadMatches(s, rank, matches);
      }
    }
  }
}
