/** Merging environment overrides into a list of defaults: the loops over a results list with an index
    from key to position, and the compaction that removes the entries marked as unset. */
module EnvMerge {
  import opened Strings

  function Key(e: string): string { Before(e, '=') }

  /** `k=v` sets a key; a bare `k` removes it. */
  predicate Sets(e: string) { '=' in e }

  predicate HasKey(list: seq<string>, k: string) { exists i :: 0 <= i < |list| && Key(list[i]) == k }

  // ----- what the merge is -----

  /** The last override that names a key. */
  function LastOn(overrides: seq<string>, k: string): Option<string> {
    if overrides == [] then None
    else if Key(overrides[|overrides| - 1]) == k then Some(overrides[|overrides| - 1])
    else LastOn(overrides[..|overrides| - 1], k)
  }

  function Overridden(e: string, overrides: seq<string>): string {
    match LastOn(overrides, Key(e))
    case None => e
    case Some(v) => if Sets(v) then v else ""
  }

  /** The defaults, in place: only the last one of a key can be overridden. */
  function Slots(defaults: seq<string>, overrides: seq<string>): seq<string> {
    if defaults == [] then []
    else
      [if HasKey(defaults[1..], Key(defaults[0])) then defaults[0] else Overridden(defaults[0], overrides)]
        + Slots(defaults[1..], overrides)
  }

  /** The settings of keys that have no default, in order. */
  function Added(defaults: seq<string>, overrides: seq<string>): seq<string> {
    if overrides == [] then []
    else
      var n := |overrides| - 1;
      Added(defaults, overrides[..n])
        + if Sets(overrides[n]) && !HasKey(defaults, Key(overrides[n])) then [overrides[n]] else []
  }

  function Merged(defaults: seq<string>, overrides: seq<string>): seq<string> {
    NonEmpty(Slots(defaults, overrides) + Added(defaults, overrides))
  }

  // ----- what it is for -----

  /** The entry an environment list gives a key: the last one wins. */
  function Lookup(list: seq<string>, k: string): Option<string> {
    if list == [] then None
    else
      var later := Lookup(list[1..], k);
      if later.Some? then later else if Key(list[0]) == k then Some(list[0]) else None
  }

  /** What the documentation promises for a key: its last override decides, and a bare one removes it. */
  function Wanted(defaults: seq<string>, overrides: seq<string>, k: string): Option<string> {
    match LastOn(overrides, k)
    case None => Lookup(defaults, k)
    case Some(v) => if Sets(v) then Some(v) else None
  }

  predicate AllSet(list: seq<string>) { forall i :: 0 <= i < |list| ==> Sets(list[i]) }

  function Count(list: seq<string>, k: string): nat {
    if list == [] then 0 else (if Key(list[0]) == k then 1 else 0) + Count(list[1..], k)
  }

  /** The last override that sets a key. */
  function LastSet(overrides: seq<string>, k: string): Option<string> {
    if overrides == [] then None
    else
      var last := overrides[|overrides| - 1];
      if Sets(last) && Key(last) == k then Some(last) else LastSet(overrides[..|overrides| - 1], k)
  }

  /** A key is merged as promised unless its last override removes it while the defaults hold it more
      than once, or while they do not hold it and an earlier override sets it. */
  predicate Promised(defaults: seq<string>, overrides: seq<string>, k: string) {
    LastOn(overrides, k).Some? && !Sets(LastOn(overrides, k).value)
    ==> Count(defaults, k) == 1 || (Count(defaults, k) == 0 && LastSet(overrides, k).None?)
  }

  // ----- laws -----

  lemma {:induction false} LookupAppend(a: seq<string>, b: seq<string>, k: string)
    ensures Lookup(a + b, k) == if Lookup(b, k).Some? then Lookup(b, k) else Lookup(a, k)
  {
    if a == [] {
      assert a + b == b;
    } else {
      assert (a + b)[1..] == a[1..] + b;
      LookupAppend(a[1..], b, k);
    }
  }

  lemma HasKeyCons(list: seq<string>, k: string)
    requires list != []
    ensures HasKey(list, k) <==> Key(list[0]) == k || HasKey(list[1..], k)
  {
    if HasKey(list, k) {
      var i :| 0 <= i < |list| && Key(list[i]) == k;
      assert i > 0 ==> list[1..][i - 1] == list[i];
    }
    if HasKey(list[1..], k) {
      var i :| 0 <= i < |list[1..]| && Key(list[1..][i]) == k;
      assert list[i + 1] == list[1..][i];
    }
  }

  lemma {:induction false} CountIsHas(list: seq<string>, k: string)
    ensures Count(list, k) > 0 <==> HasKey(list, k)
    ensures Lookup(list, k).Some? <==> HasKey(list, k)
  {
    if list != [] {
      HasKeyCons(list, k);
      CountIsHas(list[1..], k);
    }
  }

  lemma LastOnKey(overrides: seq<string>, k: string)
    ensures LastOn(overrides, k).Some? ==> Key(LastOn(overrides, k).value) == k
  {
  }

  /** A setting that no later override removes. */
  lemma {:induction false} LastSetOn(overrides: seq<string>, k: string)
    ensures LastOn(overrides, k).Some? && Sets(LastOn(overrides, k).value)
      ==> LastSet(overrides, k) == LastOn(overrides, k)
    ensures LastOn(overrides, k).None? ==> LastSet(overrides, k).None?
    ensures LastSet(overrides, k).Some? ==> Key(LastSet(overrides, k).value) == k && Sets(LastSet(overrides, k).value)
  {
    if overrides != [] { LastSetOn(overrides[..|overrides| - 1], k); }
  }

  lemma {:induction false} AddedLookup(defaults: seq<string>, overrides: seq<string>, k: string)
    ensures Lookup(Added(defaults, overrides), k) == if HasKey(defaults, k) then None else LastSet(overrides, k)
  {
    if overrides != [] {
      var n := |overrides| - 1;
      AddedLookup(defaults, overrides[..n], k);
      var extra := if Sets(overrides[n]) && !HasKey(defaults, Key(overrides[n])) then [overrides[n]] else [];
      LookupAppend(Added(defaults, overrides[..n]), extra, k);
    }
  }

  lemma {:induction false} AddedSet(defaults: seq<string>, overrides: seq<string>)
    ensures "" !in Added(defaults, overrides)
  {
    if overrides != [] { AddedSet(defaults, overrides[..|overrides| - 1]); }
  }

  lemma LookupCons(e: string, rest: seq<string>, k: string)
    ensures Lookup([e] + rest, k)
      == if Lookup(rest, k).Some? then Lookup(rest, k) else if Key(e) == k then Some(e) else None
  {
    assert ([e] + rest)[1..] == rest;
  }

  lemma NonEmptyCons(e: string, rest: seq<string>)
    ensures NonEmpty([e] + rest) == if e == "" then NonEmpty(rest) else [e] + NonEmpty(rest)
  {
    assert ([e] + rest)[1..] == rest;
  }

  /** What the defaults' places give a key. */
  lemma {:induction false} SlotsLookup(defaults: seq<string>, overrides: seq<string>, k: string)
    requires AllSet(defaults)
    ensures var l, r := LastOn(overrides, k), Lookup(NonEmpty(Slots(defaults, overrides)), k);
      && (l.None? ==> r == Lookup(defaults, k))
      && (l.Some? && Sets(l.value) ==> r == if HasKey(defaults, k) then l else None)
      && (l.Some? && !Sets(l.value) ==> (r.Some? <==> Count(defaults, k) > 1))
  {
    if defaults != [] {
      var e, rest := defaults[0], defaults[1..];
      var slot := if HasKey(rest, Key(e)) then e else Overridden(e, overrides);
      SlotsLookup(rest, overrides, k);
      HasKeyCons(defaults, k);
      CountIsHas(rest, k);
      NonEmptyCons(slot, Slots(rest, overrides));
      LookupCons(slot, NonEmpty(Slots(rest, overrides)), k);
      LastOnKey(overrides, k);
      LastOnKey(overrides, Key(e));
      assert slot != "" ==> Key(slot) == Key(e);
    }
  }

  /** The merged environment gives a key what the documentation promises exactly when `Promised` holds,
      for all valid defaults, all overrides and every key. */
  lemma MergeKeepsPromise(defaults: seq<string>, overrides: seq<string>, k: string)
    requires AllSet(defaults)
    ensures Promised(defaults, overrides, k)
      <==> Lookup(Merged(defaults, overrides), k) == Wanted(defaults, overrides, k)
  {
    var s, a := Slots(defaults, overrides), Added(defaults, overrides);
    NonEmptyAppend(s, a);
    AddedSet(defaults, overrides);
    NonEmptyId(a);
    LookupAppend(NonEmpty(s), a, k);
    SlotsLookup(defaults, overrides, k);
    AddedLookup(defaults, overrides, k);
    CountIsHas(defaults, k);
    LastSetOn(overrides, k);
  }

  /** In particular for defaults with distinct keys when no override removes a key it has set. */
  lemma DistinctDefaultsKeepPromise(defaults: seq<string>, overrides: seq<string>, k: string)
    requires AllSet(defaults) && Count(defaults, k) <= 1
    requires HasKey(defaults, k) || LastOn(overrides, k).None? || Sets(LastOn(overrides, k).value)
    ensures Lookup(Merged(defaults, overrides), k) == Wanted(defaults, overrides, k)
  {
    CountIsHas(defaults, k);
    MergeKeepsPromise(defaults, overrides, k);
  }

  /** Where a default ends up. */
  lemma {:induction false} SlotsAt(defaults: seq<string>, overrides: seq<string>, i: nat)
    requires i < |defaults|
    ensures |Slots(defaults, overrides)| == |defaults|
    ensures Slots(defaults, overrides)[i]
      == if HasKey(defaults[i + 1..], Key(defaults[i])) then defaults[i] else Overridden(defaults[i], overrides)
  {
    if i > 0 {
      SlotsAt(defaults[1..], overrides, i - 1);
      assert defaults[1..][i..] == defaults[i + 1..];
    } else if |defaults| > 1 {
      SlotsAt(defaults[1..], overrides, 0);
    }
  }

  // ----- on the texts themselves -----

  /** `k=v` is an entry for `k` and sets it; `k` alone is one too and removes it. */
  lemma EntryKey(k: string, v: string)
    requires '=' !in k
    ensures Key(k + "=" + v) == k && Sets(k + "=" + v)
    ensures Key(k) == k && !Sets(k)
  {
    CutAt(k, '=', v);
    assert k + ['='] + v == k + "=" + v;
    IndexOfFirst(k, '=');
  }

  /** One default and one override: the new value in its place, the removal, or a further entry. */
  lemma MergedTexts(k: string, v0: string, v: string, other: string)
    requires '=' !in k && '=' !in other && other != k
    ensures Merged([k + "=" + v0], [k + "=" + v]) == [k + "=" + v]
    ensures Merged([k + "=" + v0], [k]) == []
    ensures Merged([k + "=" + v0], [other + "=" + v]) == [k + "=" + v0, other + "=" + v]
    ensures Merged([k + "=" + v0], [other]) == [k + "=" + v0]
  {
    EntryKey(k, v0);
    EntryKey(k, v);
    EntryKey(other, v);
    MergedOne(k + "=" + v0, k + "=" + v);
    MergedOne(k + "=" + v0, k);
    MergedOne(k + "=" + v0, other + "=" + v);
    MergedOne(k + "=" + v0, other);
  }

  lemma SlotsOne(e: string, o: string)
    ensures Slots([e], [o]) == [if Key(o) == Key(e) then if Sets(o) then o else "" else e]
  {
    assert [e][1..] == [];
    assert !HasKey([], Key(e));
    assert LastOn([o], Key(e)) == if Key(o) == Key(e) then Some(o) else None by { assert [o][..0] == []; }
  }

  lemma AddedOne(e: string, o: string)
    ensures Added([e], [o]) == if Sets(o) && Key(o) != Key(e) then [o] else []
  {
    assert HasKey([e], Key(o)) <==> Key([e][0]) == Key(o);
    AddedNext([e], [], o);
    assert [] + [o] == [o];
  }

  lemma NonEmptyOne(e: string)
    ensures NonEmpty([e]) == if e == "" then [] else [e]
  {
    assert [e][1..] == [];
  }

  lemma MergedOne(e: string, o: string)
    requires e != "" && (Sets(o) ==> o != "")
    ensures Merged([e], [o]) ==
      if Key(o) == Key(e) then if Sets(o) then [o] else []
      else if Sets(o) then [e, o] else [e]
  {
    SlotsOne(e, o);
    AddedOne(e, o);
    NonEmptyAppend(Slots([e], [o]), Added([e], [o]));
    NonEmptyOne(Slots([e], [o])[0]);
    NonEmptyOne(o);
  }

  // ----- the code -----

  /** The index of the last default with a key. */
  predicate LastIndex(defaults: seq<string>, k: string, i: int) {
    0 <= i < |defaults| && Key(defaults[i]) == k && !HasKey(defaults[i + 1..], k)
  }

  predicate Indexed(defaults: seq<string>, cache: map<string, nat>) {
    && (forall k :: k in cache ==> LastIndex(defaults, k, cache[k]))
    && (forall i :: 0 <= i < |defaults| ==> Key(defaults[i]) in cache)
  }

  lemma IndexedNext(before: seq<string>, e: string, cache: map<string, nat>)
    requires Indexed(before, cache)
    ensures Indexed(before + [e], cache[Key(e) := |before|])
  {
    var list, next := before + [e], cache[Key(e) := |before|];
    forall k | k in next ensures LastIndex(list, k, next[k]) {
      if k != Key(e) {
        var i := cache[k];
        assert list[i + 1..] == before[i + 1..] + [e];
        HasKeySnoc(before[i + 1..], e, k);
      }
    }
  }

  lemma HasKeySnoc(list: seq<string>, e: string, k: string)
    ensures HasKey(list + [e], k) ==> HasKey(list, k) || Key(e) == k
  {
    if i :| 0 <= i < |list + [e]| && Key((list + [e])[i]) == k {
      assert i < |list| ==> (list + [e])[i] == list[i];
    }
  }

  /** Replacing the entry at the cached index is what the next override does to the defaults. */
  lemma SlotsNext(defaults: seq<string>, overrides: seq<string>, v: string, i: nat)
    requires LastIndex(defaults, Key(v), i)
    ensures |Slots(defaults, overrides)| == |defaults|
    ensures Slots(defaults, overrides + [v]) == Slots(defaults, overrides)[i := if Sets(v) then v else ""]
  {
    assert (overrides + [v])[..|overrides|] == overrides;
    SlotsAt(defaults, overrides, i);
    SlotsAt(defaults, overrides + [v], i);
    forall j | 0 <= j < |defaults| && j != i
      ensures Slots(defaults, overrides + [v])[j] == Slots(defaults, overrides)[j]
    {
      SlotsAt(defaults, overrides, j);
      SlotsAt(defaults, overrides + [v], j);
      OtherSlot(defaults, Key(v), i, j);
    }
  }

  lemma OtherSlot(defaults: seq<string>, k: string, i: nat, j: nat)
    requires LastIndex(defaults, k, i) && j < |defaults| && j != i
    ensures Key(defaults[j]) == k ==> HasKey(defaults[j + 1..], k)
  {
    if j < i {
      assert defaults[j + 1..][i - j - 1] == defaults[i];
    } else {
      assert defaults[i + 1..][j - i - 1] == defaults[j];
    }
  }

  lemma {:induction false} SlotsUnnamed(defaults: seq<string>, overrides: seq<string>, v: string)
    requires !HasKey(defaults, Key(v))
    ensures Slots(defaults, overrides + [v]) == Slots(defaults, overrides)
  {
    if defaults != [] {
      HasKeyCons(defaults, Key(v));
      assert (overrides + [v])[..|overrides|] == overrides;
      SlotsUnnamed(defaults[1..], overrides, v);
    }
  }

  lemma AddedNext(defaults: seq<string>, overrides: seq<string>, v: string)
    ensures Added(defaults, overrides + [v])
      == Added(defaults, overrides) + if Sets(v) && !HasKey(defaults, Key(v)) then [v] else []
  {
    assert (overrides + [v])[..|overrides|] == overrides;
  }

  lemma UpdateLeft<T>(a: seq<T>, b: seq<T>, i: nat, x: T)
    requires i < |a|
    ensures (a + b)[i := x] == a[i := x] + b
  {
  }

  /** A round whose key has a default. */
  lemma KnownKey(defaults: seq<string>, before: seq<string>, given: seq<string>, v: string, i: nat)
    requires LastIndex(defaults, Key(v), i) && given == Slots(defaults, before) + Added(defaults, before)
    ensures i < |given| && given[i := if Sets(v) then v else ""]
      == Slots(defaults, before + [v]) + Added(defaults, before + [v])
  {
    assert Key(defaults[i]) == Key(v) && HasKey(defaults, Key(v));
    AddedNext(defaults, before, v);
    SlotsNext(defaults, before, v, i);
    UpdateLeft(Slots(defaults, before), Added(defaults, before), i, if Sets(v) then v else "");
  }

  /** A round whose key has none. */
  lemma NewKey(defaults: seq<string>, before: seq<string>, given: seq<string>, v: string)
    requires !HasKey(defaults, Key(v)) && given == Slots(defaults, before) + Added(defaults, before)
    ensures given + (if Sets(v) then [v] else []) == Slots(defaults, before + [v]) + Added(defaults, before + [v])
  {
    AddedNext(defaults, before, v);
    SlotsUnnamed(defaults, before, v);
    Assoc(Slots(defaults, before), Added(defaults, before), if Sets(v) then [v] else []);
  }

  /** One round of the loop over the overrides. */
  method Override(ghost defaults: seq<string>, ghost before: seq<string>, cache: map<string, nat>,
                  given: seq<string>, value: string) returns (results: seq<string>)
    requires Indexed(defaults, cache)
    requires given == Slots(defaults, before) + Added(defaults, before)
    ensures results == Slots(defaults, before + [value]) + Added(defaults, before + [value])
  {
    results := given;
    var k := Key(value);
    if k in cache {
      KnownKey(defaults, before, given, value, cache[k]);
    } else {
      NewKey(defaults, before, given, value);
    }
    if !Sets(value) {
      if k in cache { results := results[cache[k] := ""]; }
      return;
    }
    if k in cache {
      results := results[cache[k] := value];
    } else {
      results := results + [value];
    }
  }

  lemma CompactStep(results: seq<string>, i: nat)
    requires i < |results| && results[i] == ""
    ensures NonEmpty(results[..i] + results[i + 1..]) == NonEmpty(results)
  {
    assert results == results[..i] + ([""] + results[i + 1..]);
    NonEmptyAppend(results[..i], [""] + results[i + 1..]);
    NonEmptyCons("", results[i + 1..]);
    NonEmptyAppend(results[..i], results[i + 1..]);
  }

  /** The compaction: deleting while stepping back is a stable filter, and it ends. */
  method Compact(given: seq<string>) returns (results: seq<string>)
    ensures results == NonEmpty(given)
  {
    results := given;
    var i := 0;
    while i < |results|
      invariant 0 <= i <= |results|
      invariant forall j :: 0 <= j < i ==> results[j] != ""
      invariant NonEmpty(results) == NonEmpty(given)
      decreases |results| - i
    {
      if results[i] == "" {
        CompactStep(results, i);
        results := results[..i] + results[i + 1..];
        i := i - 1;
      }
      i := i + 1;
    }
    NonEmptyId(results);
  }

  /** The copy of the defaults, and where each key was last seen. */
  method CopyDefaults(defaults: seq<string>) returns (results: seq<string>, cache: map<string, nat>)
    ensures results == defaults && Indexed(defaults, cache)
  {
    results, cache := [], map[];
    for i := 0 to |defaults|
      invariant results == defaults[..i] && Indexed(results, cache)
    {
      IndexedNext(results, defaults[i], cache);
      assert defaults[..i + 1] == defaults[..i] + [defaults[i]];
      cache := cache[Key(defaults[i]) := i];
      results := results + [defaults[i]];
    }
    assert defaults[..|defaults|] == defaults;
  }

  method ReplaceOrAppendEnvValues(defaults: seq<string>, overrides: seq<string>) returns (results: seq<string>)
    ensures results == Merged(defaults, overrides)
  {
    var cache;
    results, cache := CopyDefaults(defaults);
    NothingOverridden(defaults);
    for j := 0 to |overrides|
      invariant results == Slots(defaults, overrides[..j]) + Added(defaults, overrides[..j])
    {
      results := Override(defaults, overrides[..j], cache, results, overrides[j]);
      assert overrides[..j + 1] == overrides[..j] + [overrides[j]];
    }
    assert overrides[..|overrides|] == overrides;
    results := Compact(results);
  }

  lemma {:induction false} NothingOverridden(defaults: seq<string>)
    ensures Slots(defaults, []) == defaults
  {
    if defaults != [] { NothingOverridden(defaults[1..]); }
  }
}
