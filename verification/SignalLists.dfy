/** The lists of failure fingerprints and reasons that a check reports, as the
    convergence controller reads them: trimmed, shortened, limited, without
    repetition. */
module SignalLists {
  import opened Text
  import opened Wrappers

  const MAX_ITEMS: nat := 40
  const MAX_LENGTH: nat := 240

  /** The longest beginning of `s` that takes at most `n` code units. */
  function CutTo(s: string, n: nat): string {
    if s == [] || |Units(s[0])| > n then [] else [s[0]] + CutTo(s[1..], n - |Units(s[0])|)
  }

  function Cut(s: string): string {
    CutTo(s, MAX_LENGTH)
  }

  lemma {:induction false} CutExactly(s: string, n: nat)
    ensures CutTo(s, n) <= s && |UnitsOf(CutTo(s, n))| <= n
    ensures CutTo(s, n) == s <==> |UnitsOf(s)| <= n
    ensures CutTo(s, n) != s ==> |UnitsOf(CutTo(s, n))| + |Units(s[|CutTo(s, n)|])| > n
  {
    if s != [] && |Units(s[0])| <= n {
      CutExactly(s[1..], n - |Units(s[0])|);
      assert s == [s[0]] + s[1..];
    }
  }

  lemma CutShort(s: string)
    ensures |UnitsOf(Cut(s))| <= 240
    ensures Cut(s) == s <==> |UnitsOf(s)| <= 240
  {
    CutExactly(s, MAX_LENGTH);
  }

  /** The items of a list that are not blank, trimmed and shortened. */
  function Clean(list: seq<string>): seq<string> {
    if list == [] then []
    else (if Trim(list[0]) == "" then [] else [Cut(Trim(list[0]))]) + Clean(list[1..])
  }

  function Dedup(list: seq<string>): seq<string> {
    if list == [] then []
    else
      var front, last := list[..|list| - 1], list[|list| - 1];
      Dedup(front) + if last in front then [] else [last]
  }

  /** Those of them that the limit leaves. */
  function CleanFirst(list: seq<string>, limit: nat): seq<string> {
    if |Clean(list)| > limit then Clean(list)[..limit] else Clean(list)
  }

  function Normalized(list: Option<seq<string>>, limit: nat): Option<seq<string>> {
    if list.None? || Clean(list.value) == [] then None
    else Some(Dedup(CleanFirst(list.value, limit)))
  }

  lemma {:induction false} CleanSnoc(list: seq<string>, x: string)
    ensures Clean(list + [x]) == Clean(list) + Clean([x])
  {
    if list != [] {
      assert (list + [x])[1..] == list[1..] + [x];
      CleanSnoc(list[1..], x);
    } else {
      assert [] + [x] == [x];
    }
  }

  lemma CleanOne(x: string)
    ensures Clean([x]) == if Trim(x) == "" then [] else [Cut(Trim(x))]
  {
    assert [x][1..] == [];
  }

  lemma CleanNext(list: seq<string>, i: nat)
    requires i < |list|
    ensures Clean(list[..i + 1]) == Clean(list[..i]) + if Trim(list[i]) == "" then [] else [Cut(Trim(list[i]))]
  {
    assert list[..i + 1] == list[..i] + [list[i]];
    CleanSnoc(list[..i], list[i]);
    CleanOne(list[i]);
  }

  lemma {:induction false} CleanPrefix(list: seq<string>, k: nat)
    requires k <= |list|
    ensures Clean(list[..k]) <= Clean(list)
    decreases |list| - k
  {
    if k == |list| {
      assert list[..k] == list;
    } else {
      assert list[..k + 1] == list[..k] + [list[k]];
      CleanSnoc(list[..k], list[k]);
      CleanPrefix(list, k + 1);
    }
  }

  /** The two loops of `normalizeSignalList`: the limit is on the items kept, before
      duplicates are dropped. */
  method NormalizeSignalList(list: Option<seq<string>>, limit: nat) returns (result: Option<seq<string>>)
    requires limit >= 1
    ensures result == Normalized(list, limit)
  {
    if list.None? || list.value == [] {
      return None;
    }
    var items := list.value;
    var kept := KeepItems(items, limit);
    if kept == [] {
      return None;
    }
    var seen: set<string> := {};
    var deduped: seq<string> := [];
    for i := 0 to |kept|
      invariant forall s :: s in seen <==> s in kept[..i]
      invariant deduped == Dedup(kept[..i])
    {
      var s := kept[i];
      assert kept[..i + 1] == kept[..i] + [s];
      assert kept[..i + 1][..i] == kept[..i];
      if s in seen {
        continue;
      }
      seen := seen + {s};
      deduped := deduped + [s];
    }
    assert kept[..|kept|] == kept;
    return Some(deduped);
  }

  method KeepItems(items: seq<string>, limit: nat) returns (kept: seq<string>)
    requires limit >= 1
    ensures kept == CleanFirst(items, limit)
  {
    kept := [];
    for i := 0 to |items|
      invariant kept == Clean(items[..i]) && |kept| < limit
    {
      var s := Trim(items[i]);
      CleanNext(items, i);
      if s == "" {
        continue;
      }
      kept := kept + [Cut(s)];
      if |kept| >= limit {
        CleanPrefix(items, i + 1);
        return;
      }
    }
    assert items[..|items|] == items;
  }

  // ------------------------------------------------- the set a list stands for

  /** Cleaning a list within the limit keeps the set of its shortened strings. */
  function CleanSet(list: seq<string>): set<string> {
    set s | s in list && Trim(s) != "" :: Cut(Trim(s))
  }

  lemma {:induction false} CleanMembers(list: seq<string>)
    ensures forall s :: s in Clean(list) <==> s in CleanSet(list)
  {
    if list != [] {
      CleanMembers(list[1..]);
      assert list == [list[0]] + list[1..];
      assert CleanSet(list) ==
        (if Trim(list[0]) == "" then {} else {Cut(Trim(list[0]))}) + CleanSet(list[1..]);
    }
  }

  lemma {:induction false} DedupMembers(list: seq<string>)
    ensures forall s :: s in Dedup(list) <==> s in list
    ensures forall i, j :: 0 <= i < j < |Dedup(list)| ==> Dedup(list)[i] != Dedup(list)[j]
  {
    if list != [] {
      var front, last := list[..|list| - 1], list[|list| - 1];
      DedupMembers(front);
      assert list == front + [last];
    }
  }

  ghost predicate WithinLimit(list: Option<seq<string>>) {
    list.Some? ==> |Clean(list.value)| <= MAX_ITEMS
  }

  ghost function Meaning(list: Option<seq<string>>): set<string> {
    if list.None? then {} else CleanSet(list.value)
  }

  lemma NormalizedMembers(list: Option<seq<string>>)
    requires WithinLimit(list)
    ensures Normalized(list, MAX_ITEMS).None? <==> Meaning(list) == {}
    ensures Normalized(list, MAX_ITEMS).Some? ==>
      forall s :: s in Normalized(list, MAX_ITEMS).value <==> s in Meaning(list)
  {
    if list.Some? {
      CleanMembers(list.value);
      DedupMembers(Clean(list.value));
      if Clean(list.value) != [] {
        assert Clean(list.value)[0] in Clean(list.value);
      }
    }
  }

  // ------------------------------------------------- which items are kept

  /** How many items of the list are not blank. */
  function NonBlank(list: seq<string>): nat {
    if list == [] then 0
    else NonBlank(list[..|list| - 1]) + if Trim(list[|list| - 1]) == "" then 0 else 1
  }

  /** The `i`-th item is kept: it is not blank, and fewer than `limit` before it are not. */
  predicate Keeps(list: seq<string>, limit: nat, i: nat) {
    i < |list| && Trim(list[i]) != "" && NonBlank(list[..i]) < limit
  }

  lemma {:induction false} CleanAt(list: seq<string>, i: nat)
    requires i <= |list|
    ensures |Clean(list[..i])| == NonBlank(list[..i])
    ensures i < |list| && Trim(list[i]) != "" ==>
              NonBlank(list[..i]) < |Clean(list)| && Clean(list)[NonBlank(list[..i])] == Cut(Trim(list[i]))
  {
    if i > 0 {
      CleanAt(list, i - 1);
      CleanNext(list, i - 1);
      assert list[..i][..i - 1] == list[..i - 1];
    }
    if i < |list| {
      CleanNext(list, i);
      CleanPrefix(list, i + 1);
    }
  }

  /** Every cleaned item comes from one of the list. */
  lemma {:induction false} CleanFrom(list: seq<string>, n: nat, k: nat) returns (i: nat)
    requires n <= |list| && k < |Clean(list[..n])|
    ensures i < n && Trim(list[i]) != "" && NonBlank(list[..i]) == k
    ensures Clean(list[..n])[k] == Cut(Trim(list[i]))
    decreases n
  {
    CleanNext(list, n - 1);
    CleanAt(list, n - 1);
    if k < |Clean(list[..n - 1])| {
      i := CleanFrom(list, n - 1, k);
    } else {
      i := n - 1;
    }
  }

  lemma KeptExactly(list: seq<string>, limit: nat, s: string)
    ensures s in CleanFirst(list, limit) <==> exists i: nat :: Keeps(list, limit, i) && s == Cut(Trim(list[i]))
  {
    var kept := CleanFirst(list, limit);
    assert list[..|list|] == list;
    if s in kept {
      var k :| 0 <= k < |kept| && kept[k] == s;
      var i := CleanFrom(list, |list|, k);
      assert Keeps(list, limit, i);
    }
    if i: nat :| Keeps(list, limit, i) && s == Cut(Trim(list[i])) {
      CleanAt(list, i);
      assert kept[NonBlank(list[..i])] == s;
    }
  }

  lemma CleanIsEmpty(list: seq<string>)
    ensures Clean(list) == [] <==> forall i :: 0 <= i < |list| ==> Trim(list[i]) == ""
  {
    assert list[..|list|] == list;
    if Clean(list) != [] {
      var i := CleanFrom(list, |list|, 0);
    }
    if i :| 0 <= i < |list| && Trim(list[i]) != "" {
      CleanAt(list, i);
    }
  }

  /** A list comes to the first `limit` of its items that are not blank, trimmed and cut,
      each once; to nothing when all are blank. */
  lemma NormalizedExactly(list: seq<string>, limit: nat, s: string)
    ensures Normalized(Some(list), limit).None? <==> forall i :: 0 <= i < |list| ==> Trim(list[i]) == ""
    ensures Normalized(Some(list), limit).Some? ==>
      var kept := Normalized(Some(list), limit).value;
      && (s in kept <==> exists i: nat :: Keeps(list, limit, i) && s == Cut(Trim(list[i])))
      && (forall i, j :: 0 <= i < j < |kept| ==> kept[i] != kept[j])
  {
    CleanIsEmpty(list);
    KeptExactly(list, limit, s);
    DedupMembers(CleanFirst(list, limit));
  }
}
