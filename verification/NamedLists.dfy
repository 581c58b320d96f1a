/** Layering lists: items of two layers by name, and lists of patterns. */
module NamedLists {
  import opened Text

  function Keys<T>(items: seq<T>, key: T -> string): set<string> {
    set i | 0 <= i < |items| :: key(items[i])
  }

  /** The first item of each name, and every nameless one, in order. */
  function FirstPerKey<T>(items: seq<T>, key: T -> string): seq<T> {
    if items == [] then []
    else
      var before, last := items[..|items| - 1], items[|items| - 1];
      if key(last) != "" && key(last) in Keys(before, key) then FirstPerKey(before, key)
      else FirstPerKey(before, key) + [last]
  }

  /** No two items share a name. */
  predicate DistinctNames<T>(items: seq<T>, key: T -> string) {
    forall i, j :: 0 <= i < j < |items| && key(items[i]) != "" ==> key(items[i]) != key(items[j])
  }

  /** The items whose names are not taken. */
  function Unshadowed<T>(items: seq<T>, key: T -> string, taken: set<string>): seq<T> {
    if items == [] then []
    else
      var before, last := items[..|items| - 1], items[|items| - 1];
      Unshadowed(before, key, taken) + if key(last) != "" && key(last) in taken then [] else [last]
  }

  lemma KeysOfAppended<T>(items: seq<T>, x: T, key: T -> string)
    ensures Keys(items + [x], key) == Keys(items, key) + {key(x)}
  {
    var all := items + [x];
    assert all[|items|] == x;
    forall k | k in Keys(items, key)
      ensures k in Keys(all, key)
    {
      var i :| 0 <= i < |items| && key(items[i]) == k;
      assert all[i] == items[i];
    }
  }

  lemma FirstPerKeyOfAppended<T>(items: seq<T>, x: T, key: T -> string)
    ensures FirstPerKey(items + [x], key) ==
      FirstPerKey(items, key) + if key(x) != "" && key(x) in Keys(items, key) then [] else [x]
  {
    assert (items + [x])[..|items|] == items;
  }

  method AppendItems<T>(items: seq<T>, key: T -> string, result: seq<T>, seen: set<string>, ghost done: seq<T>)
    returns (extended: seq<T>, nowSeen: set<string>)
    requires result == FirstPerKey(done, key)
    requires forall k :: k in seen <==> k != "" && k in Keys(done, key)
    ensures extended == FirstPerKey(done + items, key)
    ensures forall k :: k in nowSeen <==> k != "" && k in Keys(done + items, key)
  {
    hide FirstPerKey, Keys;
    extended, nowSeen := result, seen;
    assert done + items[..0] == done;
    for i := 0 to |items|
      invariant extended == FirstPerKey(done + items[..i], key)
      invariant forall k :: k in nowSeen <==> k != "" && k in Keys(done + items[..i], key)
    {
      var k := key(items[i]);
      KeysOfAppended(done + items[..i], items[i], key);
      assert done + items[..i + 1] == (done + items[..i]) + [items[i]];
      FirstPerKeyOfAppended(done + items[..i], items[i], key);
      if k != "" {
        if k in nowSeen {
          continue;
        }
        nowSeen := nowSeen + {k};
      }
      extended := extended + [items[i]];
    }
    assert items[..|items|] == items;
  }

  /** mergeNamedItems. */
  method MergeNamedItems<T>(base: seq<T>, override: seq<T>, key: T -> string) returns (result: seq<T>)
    ensures result == FirstPerKey(override + base, key)
  {
    if |base| == 0 && |override| == 0 {
      return [];
    }
    var seen: set<string>;
    result, seen := AppendItems(override, key, [], {}, []);
    assert [] + override == override;
    result, seen := AppendItems(base, key, result, seen, override);
  }

  lemma {:induction false} DistinctIsKept<T>(items: seq<T>, key: T -> string)
    requires DistinctNames(items, key)
    ensures FirstPerKey(items, key) == items
  {
    if items != [] {
      var before, last := items[..|items| - 1], items[|items| - 1];
      DistinctIsKept(before, key);
      forall i | 0 <= i < |before| && key(last) != ""
        ensures key(before[i]) != key(last)
      {
        assert before[i] == items[i];
      }
    }
  }

  lemma LastIsNew<T>(override: seq<T>, base: seq<T>, key: T -> string)
    requires base != [] && DistinctNames(base, key)
    ensures
      var k := key(base[|base| - 1]);
      k != "" ==> (k in Keys(override + base[..|base| - 1], key) <==> k in Keys(override, key))
  {
    var before, k := base[..|base| - 1], key(base[|base| - 1]);
    var all := override + before;
    forall i | |override| <= i < |all| && k != ""
      ensures key(all[i]) != k
    {
      assert all[i] == base[i - |override|];
    }
    assert forall i :: 0 <= i < |override| ==> all[i] == override[i];
    if k in Keys(override, key) {
      var i :| 0 <= i < |override| && key(override[i]) == k;
      assert all[i] == override[i];
    }
  }

  /** Layers that name each item once merge to the override's items in full, followed by
      the base's that it does not name. */
  lemma {:induction false} MergedLayers<T>(override: seq<T>, base: seq<T>, key: T -> string)
    requires DistinctNames(override, key) && DistinctNames(base, key)
    ensures FirstPerKey(override + base, key) == override + Unshadowed(base, key, Keys(override, key))
  {
    if base == [] {
      assert override + base == override;
      DistinctIsKept(override, key);
    } else {
      var before, last := base[..|base| - 1], base[|base| - 1];
      MergedLayers(override, before, key);
      assert (override + base)[..|override + base| - 1] == override + before;
      assert key(last) != "" && key(last) in Keys(override + before, key) <==>
        key(last) != "" && key(last) in Keys(override, key) by {
        LastIsNew(override, base, key);
      }
    }
  }

  /** Whatever the layers, the merge names each item at most once, contains nothing new, and
      loses no name. */
  lemma {:induction false} MergeIsClean<T>(items: seq<T>, key: T -> string)
    ensures DistinctNames(FirstPerKey(items, key), key)
    ensures forall x :: x in FirstPerKey(items, key) ==> x in items
    ensures Keys(FirstPerKey(items, key), key) == Keys(items, key)
  {
    if items != [] {
      var before, last := items[..|items| - 1], items[|items| - 1];
      MergeIsClean(before, key);
      assert items == before + [last];
      KeysOfAppended(before, last, key);
      KeysOfAppended(FirstPerKey(before, key), last, key);
      var kept := FirstPerKey(before, key);
      forall i | 0 <= i < |kept|
        ensures key(kept[i]) in Keys(kept, key)
      {
      }
    }
  }

  lemma {:induction false} UnshadowedMembers<T>(items: seq<T>, key: T -> string, taken: set<string>)
    ensures forall x :: x in Unshadowed(items, key, taken) <==> x in items && (key(x) == "" || key(x) !in taken)
  {
    if items != [] {
      UnshadowedMembers(items[..|items| - 1], key, taken);
      assert items == items[..|items| - 1] + [items[|items| - 1]];
    }
  }

  // ----- patterns -----

  /** normalizePatterns: trimmed, blanks dropped. */
  function Patterns(values: seq<string>): seq<string> {
    if values == [] then []
    else
      var before, last := values[..|values| - 1], Trim(values[|values| - 1]);
      Patterns(before) + if last == "" then [] else [last]
  }

  lemma {:induction false} PatternMembers(values: seq<string>)
    ensures forall x :: x in Patterns(values) <==> x != "" && exists i :: 0 <= i < |values| && Trim(values[i]) == x
    ensures forall x :: x in Patterns(values) ==> Trim(x) == x
  {
    hide Trim;
    if values != [] {
      var before, last := values[..|values| - 1], Trim(values[|values| - 1]);
      TrimIdempotent(values[|values| - 1]);
      PatternMembers(before);
      assert forall i :: 0 <= i < |before| ==> values[i] == before[i];
      forall x
        ensures x in Patterns(values) <==> x != "" && exists i :: 0 <= i < |values| && Trim(values[i]) == x
      {
        if x in Patterns(before) {
          var i :| 0 <= i < |before| && Trim(before[i]) == x;
          assert Trim(values[i]) == x;
        }
      }
    }
  }

  method NormalizePatterns(values: seq<string>) returns (out: seq<string>)
    ensures out == Patterns(values)
  {
    out := [];
    for i := 0 to |values|
      invariant out == Patterns(values[..i])
    {
      assert values[..i + 1][..i] == values[..i];
      var item := Trim(values[i]);
      if item == "" {
        continue;
      }
      out := out + [item];
    }
    assert values[..|values|] == values;
  }

  function Itself(s: string): string {
    s
  }

  method AppendStrings(items: seq<string>, result: seq<string>, seen: set<string>, ghost done: seq<string>)
    returns (extended: seq<string>, nowSeen: set<string>)
    requires result == FirstPerKey(done, Itself)
    requires forall k :: k in seen <==> k in Keys(done, Itself)
    ensures extended == FirstPerKey(done + Patterns(items), Itself)
    ensures forall k :: k in nowSeen <==> k in Keys(done + Patterns(items), Itself)
  {
    hide Trim, FirstPerKey, Keys;
    extended, nowSeen := result, seen;
    assert done + Patterns(items[..0]) == done;
    for i := 0 to |items|
      invariant extended == FirstPerKey(done + Patterns(items[..i]), Itself)
      invariant forall k :: k in nowSeen <==> k in Keys(done + Patterns(items[..i]), Itself)
    {
      assert items[..i + 1][..i] == items[..i];
      var trimmed := Trim(items[i]);
      if trimmed == "" {
        assert done + Patterns(items[..i + 1]) == done + Patterns(items[..i]);
        continue;
      }
      ghost var sofar := done + Patterns(items[..i]);
      assert done + Patterns(items[..i + 1]) == sofar + [trimmed];
      FirstPerKeyOfAppended(sofar, trimmed, Itself);
      KeysOfAppended(sofar, trimmed, Itself);
      if trimmed in nowSeen {
        continue;
      }
      nowSeen := nowSeen + {trimmed};
      extended := extended + [trimmed];
    }
    assert items[..|items|] == items;
  }

  function MergedStrings(base: seq<string>, override: seq<string>): seq<string> {
    FirstPerKey(Patterns(base) + Patterns(override), Itself)
  }

  /** mergeStringLists. */
  method MergeStringLists(base: seq<string>, override: seq<string>) returns (result: seq<string>)
    ensures result == MergedStrings(base, override)
  {
    if |base| == 0 && |override| == 0 {
      return [];
    }
    var seen: set<string>;
    result, seen := AppendStrings(base, [], {}, []);
    assert [] + Patterns(base) == Patterns(base);
    result, seen := AppendStrings(override, result, seen, Patterns(base));
  }

  /** The merged list holds exactly the two layers' patterns, each once, already trimmed. */
  lemma MergedStringsUnite(base: seq<string>, override: seq<string>)
    ensures
      var r := MergedStrings(base, override);
      && (forall x :: x in r <==> x in Patterns(base) || x in Patterns(override))
      && (forall i, j :: 0 <= i < j < |r| ==> r[i] != r[j])
      && (forall x :: x in Patterns(r) <==> x in r)
  {
    hide Trim, FirstPerKey;
    var all := Patterns(base) + Patterns(override);
    var r := MergedStrings(base, override);
    MergeIsClean(all, Itself);
    forall x
      ensures x in r <==> x in all
    {
      if x in all {
        var i :| 0 <= i < |all| && all[i] == x;
        assert Itself(all[i]) in Keys(all, Itself);
        var j :| 0 <= j < |r| && Itself(r[j]) == x;
      }
    }
    PatternMembers(base);
    PatternMembers(override);
    PatternMembers(r);
    forall i, j | 0 <= i < j < |r|
      ensures r[i] != r[j]
    {
      assert r[i] in all;
      assert Itself(r[i]) != "";
    }
    forall x
      ensures x in Patterns(r) <==> x in r
    {
      if x in r {
        var i :| 0 <= i < |r| && r[i] == x;
        assert x in all && Trim(r[i]) == x;
      }
      if x in Patterns(r) {
        var i :| 0 <= i < |r| && Trim(r[i]) == x;
        assert r[i] in all && r[i] == x;
      }
    }
  }

  /** firstNonBlank of two values. */
  function FirstNonBlank(first: string, second: string): string {
    if Trim(first) != "" then Trim(first) else Trim(second)
  }
}
