/** Which items to add, to update and to delete (pkg/proxmox/generics.go). */
module Generics {
  import opened Wrappers

  /** What is in the list under each key; a later item replaces an earlier one. */
  function AsMap<I(!new)>(items: seq<I>, key: I -> string): map<string, I> {
    if items == [] then map[]
    else var last := items[|items| - 1]; AsMap(items[..|items| - 1], key)[key(last) := last]
  }

  /** The items that satisfy `p`, in their order. */
  function Filter<I(!new)>(items: seq<I>, p: I -> bool): seq<I> {
    if items == [] then []
    else
      var last, rest := items[|items| - 1], Filter(items[..|items| - 1], p);
      if p(last) then rest + [last] else rest
  }

  lemma {:induction false} FilterHas<I(!new)>(items: seq<I>, p: I -> bool, x: I)
    ensures x in Filter(items, p) <==> x in items && p(x)
  {
    if items != [] {
      FilterHas(items[..|items| - 1], p, x);
      assert items == items[..|items| - 1] + [items[|items| - 1]];
    }
  }

  function Keys<I(!new)>(items: seq<I>, key: I -> string): seq<string> {
    seq(|items|, i requires 0 <= i < |items| => key(items[i]))
  }

  lemma KeysHas<I(!new)>(items: seq<I>, key: I -> string, k: string)
    ensures k in Keys(items, key) <==> exists x :: x in items && key(x) == k
  {
    if k in Keys(items, key) {
      var i :| 0 <= i < |items| && Keys(items, key)[i] == k;
      assert items[i] in items && key(items[i]) == k;
    }
    if x :| x in items && key(x) == k {
      var i :| 0 <= i < |items| && items[i] == x;
      assert Keys(items, key)[i] == k;
    }
  }

  /** A desired item that the guest does not have. */
  function ToAdd<I(!new)>(desired: seq<I>, actual: map<string, I>, key: I -> string): seq<I> {
    Filter(desired, (x: I) => key(x) !in actual)
  }

  function ToUpdate<I(==,!new)>(desired: seq<I>, actual: map<string, I>, key: I -> string): seq<I> {
    Filter(desired, (x: I) => key(x) in actual && actual[key(x)] != x)
  }

  function ToDelete<I(!new)>(desired: seq<I>, actual: seq<I>, key: I -> string): seq<I> {
    Filter(actual, (x: I) => key(x) !in Keys(desired, key))
  }

  method MapItems<I(!new)>(items: seq<I>, key: I -> string) returns (m: map<string, I>)
    ensures m == AsMap(items, key)
  {
    m := map[];
    for i := 0 to |items|
      invariant m == AsMap(items[..i], key)
    {
      assert items[..i + 1][..i] == items[..i];
      m := m[key(items[i]) := items[i]];
    }
    assert items[..|items|] == items;
  }

  method ClassifyItems<I(==,!new)>(desired: seq<I>, actual: seq<I>, key: I -> string)
    returns (toAdd: seq<I>, toUpdate: seq<I>, toDelete: seq<I>)
    ensures toAdd == ToAdd(desired, AsMap(actual, key), key)
    ensures toUpdate == ToUpdate(desired, AsMap(actual, key), key)
    ensures toDelete == ToDelete(desired, actual, key)
  {
    var actualMap := MapItems(actual, key);
    toAdd, toUpdate, toDelete := [], [], [];
    var keys: seq<string> := [];
    for i := 0 to |desired|
      invariant toAdd == ToAdd(desired[..i], actualMap, key) && toUpdate == ToUpdate(desired[..i], actualMap, key)
      invariant keys == Keys(desired[..i], key)
    {
      assert desired[..i + 1][..i] == desired[..i];
      var item := desired[i];
      keys := keys + [key(item)];
      if key(item) in actualMap {
        if item != actualMap[key(item)] {
          toUpdate := toUpdate + [item];
        }
      } else {
        toAdd := toAdd + [item];
      }
    }
    assert desired[..|desired|] == desired;
    for i := 0 to |actual|
      invariant toDelete == ToDelete(desired, actual[..i], key)
    {
      assert actual[..i + 1][..i] == actual[..i];
      if key(actual[i]) !in keys {
        toDelete := toDelete + [actual[i]];
      }
    }
    assert actual[..|actual|] == actual;
  }

  // ------------------------------------------------------------------- effects

  datatype Effect<I> = Set(item: I) | Remove(item: I)

  function Sets<I(!new)>(items: seq<I>): seq<Effect<I>> {
    seq(|items|, i requires 0 <= i < |items| => Set(items[i]))
  }

  function Removes<I(!new)>(items: seq<I>): seq<Effect<I>> {
    seq(|items|, i requires 0 <= i < |items| => Remove(items[i]))
  }

  /** All effects, in their order. */
  function Plan<I(!new)>(toAdd: seq<I>, toUpdate: seq<I>, toDelete: seq<I>): seq<Effect<I>> {
    Sets(toAdd) + Sets(toUpdate) + Removes(toDelete)
  }

  function Did<I(!new)>(config: map<string, I>, key: I -> string, e: Effect<I>): map<string, I> {
    match e
    case Set(x) => config[key(x) := x]
    case Remove(x) => config - {key(x)}
  }

  function Ran<I(!new)>(config: map<string, I>, key: I -> string, es: seq<Effect<I>>): map<string, I> {
    if es == [] then config else Did(Ran(config, key, es[..|es| - 1]), key, es[|es| - 1])
  }

  function Changes<I(==,!new)>(desired: seq<I>, actual: seq<I>, key: I -> string): seq<Effect<I>> {
    var m := AsMap(actual, key);
    Plan(ToAdd(desired, m, key), ToUpdate(desired, m, key), ToDelete(desired, actual, key))
  }

  lemma RanOneMore<I(!new)>(config: map<string, I>, key: I -> string, es: seq<Effect<I>>, n: nat)
    requires n < |es|
    ensures Ran(config, key, es[..n + 1]) == Did(Ran(config, key, es[..n]), key, es[n])
  {
    assert es[..n + 1][..n] == es[..n];
  }

  lemma {:induction false} RanInTurn<I(!new)>(
    config: map<string, I>, key: I -> string, first: seq<Effect<I>>, rest: seq<Effect<I>>)
    ensures Ran(config, key, first + rest) == Ran(Ran(config, key, first), key, rest)
  {
    if rest == [] {
      assert first + rest == first;
    } else {
      RanInTurn(config, key, first, rest[..|rest| - 1]);
      assert (first + rest)[..|first + rest| - 1] == first + rest[..|rest| - 1];
    }
  }

  lemma FirstPart<I(!new)>(toAdd: seq<I>, toUpdate: seq<I>, toDelete: seq<I>, n: nat)
    requires n <= |toAdd|
    ensures Plan(toAdd, toUpdate, toDelete)[..n] == Sets(toAdd)[..n]
  {
  }

  lemma SecondPart<I(!new)>(
    config: map<string, I>, key: I -> string, toAdd: seq<I>, toUpdate: seq<I>, toDelete: seq<I>, n: nat)
    requires n <= |toUpdate|
    ensures Ran(config, key, Plan(toAdd, toUpdate, toDelete)[..|toAdd| + n]) ==
      Ran(Ran(config, key, Sets(toAdd)), key, Sets(toUpdate)[..n])
  {
    RanInTurn(config, key, Sets(toAdd), Sets(toUpdate)[..n]);
    assert Plan(toAdd, toUpdate, toDelete)[..|toAdd| + n] == Sets(toAdd) + Sets(toUpdate)[..n];
  }

  lemma ThirdPart<I(!new)>(
    config: map<string, I>, key: I -> string, toAdd: seq<I>, toUpdate: seq<I>, toDelete: seq<I>, n: nat)
    requires n <= |toDelete|
    ensures Ran(config, key, Plan(toAdd, toUpdate, toDelete)[..|toAdd| + |toUpdate| + n]) ==
      Ran(Ran(Ran(config, key, Sets(toAdd)), key, Sets(toUpdate)), key, Removes(toDelete)[..n])
  {
    RanInTurn(config, key, Sets(toAdd), Sets(toUpdate));
    RanInTurn(config, key, Sets(toAdd) + Sets(toUpdate), Removes(toDelete)[..n]);
    assert Plan(toAdd, toUpdate, toDelete)[..|toAdd| + |toUpdate| + n] ==
           Sets(toAdd) + Sets(toUpdate) + Removes(toDelete)[..n];
  }

  /** What the calls made of the guest's configuration. */
  class Guest<I(!new)> {
    var config: map<string, I>

    constructor (config: map<string, I>)
      ensures this.config == config
    {
      this.config := config;
    }

    method Do(key: I -> string, e: Effect<I>, calls: Effect<I> -> Reply) returns (ok: bool, ghost done: nat)
      modifies this
      ensures ok <==> calls(e).Answered?
      ensures done == if calls(e) == Lost(false) then 0 else 1
      ensures config == if done == 1 then Did(old(config), key, e) else old(config)
    {
      ok, done := calls(e).Answered?, 0;
      if calls(e) != Lost(false) {
        config := if e.Set? then config[key(e.item) := e.item] else config - {key(e.item)};
        done := 1;
      }
    }

    method SetAll(key: I -> string, items: seq<I>, calls: Effect<I> -> Reply) returns (ok: bool, ghost done: nat)
      modifies this
      ensures done <= |items| && (ok ==> done == |items|)
      ensures config == Ran(old(config), key, Sets(items)[..done])
      ensures ok ==> config == Ran(old(config), key, Sets(items))
      ensures (forall e :: calls(e).Answered?) ==> ok
    {
      done := 0;
      for i := 0 to |items|
        invariant done == i && config == Ran(old(config), key, Sets(items)[..i])
      {
        RanOneMore(old(config), key, Sets(items), i);
        ghost var more;
        ok, more := Do(key, Set(items[i]), calls);
        done := done + more;
        if !ok {
          return;
        }
      }
      assert Sets(items)[..done] == Sets(items);
      ok := true;
    }

    method RemoveAll(key: I -> string, items: seq<I>, calls: Effect<I> -> Reply) returns (ok: bool, ghost done: nat)
      modifies this
      ensures done <= |items| && (ok ==> done == |items|)
      ensures config == Ran(old(config), key, Removes(items)[..done])
      ensures (forall e :: calls(e).Answered?) ==> ok
    {
      done := 0;
      for i := 0 to |items|
        invariant done == i && config == Ran(old(config), key, Removes(items)[..i])
      {
        RanOneMore(old(config), key, Removes(items), i);
        ghost var more;
        ok, more := Do(key, Remove(items[i]), calls);
        done := done + more;
        if !ok {
          return;
        }
      }
      ok := true;
    }

    /** Adds, then updates, then deletes, up to the first call that fails. `done`: how
        many effects there were. */
    method ApplyChanges(key: I -> string, toAdd: seq<I>, toUpdate: seq<I>, toDelete: seq<I>, calls: Effect<I> -> Reply)
      returns (ok: bool, ghost done: nat)
      modifies this
      ensures done <= |Plan(toAdd, toUpdate, toDelete)| && (ok ==> done == |Plan(toAdd, toUpdate, toDelete)|)
      ensures config == Ran(old(config), key, Plan(toAdd, toUpdate, toDelete)[..done])
      ensures (forall e :: calls(e).Answered?) ==> ok
    {
      assert |Plan(toAdd, toUpdate, toDelete)| == |toAdd| + |toUpdate| + |toDelete|;
      ok, done := SetAll(key, toAdd, calls);
      FirstPart(toAdd, toUpdate, toDelete, done);
      if !ok {
        return;
      }
      ghost var more;
      ok, more := SetAll(key, toUpdate, calls);
      SecondPart(old(config), key, toAdd, toUpdate, toDelete, more);
      done := done + more;
      if !ok {
        return;
      }
      ok, more := RemoveAll(key, toDelete, calls);
      ThirdPart(old(config), key, toAdd, toUpdate, toDelete, more);
      done := done + more;
    }
  }

  // ------------------------------------------------------------------- results

  lemma {:induction false} AsMapHas<I(!new)>(items: seq<I>, key: I -> string, k: string)
    ensures k in AsMap(items, key) <==> exists x :: x in items && key(x) == k
    ensures k in AsMap(items, key) ==> AsMap(items, key)[k] in items && key(AsMap(items, key)[k]) == k
  {
    if items != [] {
      var last, rest := items[|items| - 1], items[..|items| - 1];
      AsMapHas(rest, key, k);
      assert items == rest + [last] && last in items;
    }
  }

  /** Of several items with one key the last counts. */
  lemma {:induction false} LastCounts<I(!new)>(items: seq<I>, key: I -> string, i: nat)
    requires i < |items| && forall j :: i < j < |items| ==> key(items[j]) != key(items[i])
    ensures key(items[i]) in AsMap(items, key) && AsMap(items, key)[key(items[i])] == items[i]
  {
    if i < |items| - 1 {
      LastCounts(items[..|items| - 1], key, i);
    }
  }

  /** First the items to add, then those to update, each set, then those to delete. */
  lemma PlanInTurn<I(!new)>(toAdd: seq<I>, toUpdate: seq<I>, toDelete: seq<I>)
    ensures |Plan(toAdd, toUpdate, toDelete)| == |toAdd| + |toUpdate| + |toDelete|
    ensures forall i :: 0 <= i < |toAdd| + |toUpdate| + |toDelete| ==>
      Plan(toAdd, toUpdate, toDelete)[i] ==
        if i < |toAdd| then Set(toAdd[i])
        else if i < |toAdd| + |toUpdate| then Set(toUpdate[i - |toAdd|])
        else Remove(toDelete[i - |toAdd| - |toUpdate|])
  {
  }

  /** No two different items share a key. */
  ghost predicate Consistent<I(!new)>(items: seq<I>, key: I -> string) {
    forall x, y :: x in items && y in items && key(x) == key(y) ==> x == y
  }

  ghost predicate SameAt<I(!new)>(m: map<string, I>, n: map<string, I>, k: string) {
    (k in m <==> k in n) && (k in m ==> m[k] == n[k])
  }

  ghost predicate Touches<I(!new)>(e: Effect<I>, key: I -> string, k: string) {
    key(e.item) == k
  }

  /** The last effect on a key decides, and without one it stays as it was. */
  lemma {:induction false} LastWins<I(!new)>(config: map<string, I>, key: I -> string, es: seq<Effect<I>>, k: string)
    ensures (exists e :: e in es && Touches(e, key, k)) || SameAt(Ran(config, key, es), config, k)
    ensures (exists e :: e in es && Touches(e, key, k)) ==>
      exists e :: e in es && Touches(e, key, k) && SameAt(Ran(config, key, es), Did(config, key, e), k)
  {
    if es != [] {
      var last, rest := es[|es| - 1], es[..|es| - 1];
      LastWins(config, key, rest, k);
      assert es == rest + [last] && last in es;
      if !Touches(last, key, k) {
        assert forall e :: e in es && Touches(e, key, k) ==> e in rest;
      } else {
        assert SameAt(Ran(config, key, es), Did(config, key, last), k);
      }
    }
  }

  lemma PlanHas<I(!new)>(toAdd: seq<I>, toUpdate: seq<I>, toDelete: seq<I>, x: I)
    ensures Set(x) in Plan(toAdd, toUpdate, toDelete) <==> x in toAdd || x in toUpdate
    ensures Remove(x) in Plan(toAdd, toUpdate, toDelete) <==> x in toDelete
  {
    SetsHas(toAdd, x);
    SetsHas(toUpdate, x);
    if x in toDelete {
      var i :| 0 <= i < |toDelete| && toDelete[i] == x;
      assert Removes(toDelete)[i] == Remove(x);
    }
  }

  lemma SetsHas<I(!new)>(items: seq<I>, x: I)
    ensures Set(x) in Sets(items) <==> x in items
  {
    if x in items {
      var i :| 0 <= i < |items| && items[i] == x;
      assert Sets(items)[i] == Set(x);
    }
  }

  /** The effect is called for: a desired item is missing or different, or an actual
      one is not desired. */
  ghost predicate Due<I(!new)>(desired: seq<I>, actual: seq<I>, key: I -> string, e: Effect<I>) {
    match e
    case Set(x) => x in desired && (key(x) in AsMap(actual, key) ==> AsMap(actual, key)[key(x)] != x)
    case Remove(x) => x in actual && key(x) !in AsMap(desired, key)
  }

  /** The plan consists of just the effects that are called for. */
  lemma ChangesHas<I(!new)>(desired: seq<I>, actual: seq<I>, key: I -> string, e: Effect<I>)
    ensures e in Changes(desired, actual, key) <==> Due(desired, actual, key, e)
  {
    var m, x := AsMap(actual, key), e.item;
    FilterHas(desired, (x: I) => key(x) !in m, x);
    FilterHas(desired, (x: I) => key(x) in m && m[key(x)] != x, x);
    FilterHas(actual, (x: I) => key(x) !in Keys(desired, key), x);
    PlanHas(ToAdd(desired, m, key), ToUpdate(desired, m, key), ToDelete(desired, actual, key), x);
    KeysHas(desired, key, key(x));
    AsMapHas(desired, key, key(x));
  }

  /** Every effect of the plan does to its key what the desired list says. */
  lemma EffectIsWanted<I(!new)>(desired: seq<I>, actual: seq<I>, key: I -> string, e: Effect<I>)
    requires Consistent(desired, key) && e in Changes(desired, actual, key)
    ensures forall config: map<string, I> :: SameAt(Did(config, key, e), AsMap(desired, key), key(e.item))
  {
    ChangesHas(desired, actual, key, e);
    AsMapHas(desired, key, key(e.item));
  }

  /** A key that needs a change is touched by the plan. */
  lemma NeededChange<I(!new)>(desired: seq<I>, actual: seq<I>, key: I -> string, k: string) returns (e: Effect<I>)
    requires !SameAt(AsMap(actual, key), AsMap(desired, key), k)
    ensures e in Changes(desired, actual, key) && Touches(e, key, k)
  {
    AsMapHas(desired, key, k);
    AsMapHas(actual, key, k);
    e := if k in AsMap(desired, key) then Set(AsMap(desired, key)[k]) else Remove(AsMap(actual, key)[k]);
    ChangesHas(desired, actual, key, e);
  }

  /** However far the changes get, each key is as it was or as it is wanted. */
  lemma PrefixIsBetween<I(!new)>(desired: seq<I>, actual: seq<I>, key: I -> string, n: nat, k: string)
    requires Consistent(desired, key) && n <= |Changes(desired, actual, key)|
    ensures
      var m := Ran(AsMap(actual, key), key, Changes(desired, actual, key)[..n]);
      SameAt(m, AsMap(actual, key), k) || SameAt(m, AsMap(desired, key), k)
  {
    var es := Changes(desired, actual, key);
    LastWins(AsMap(actual, key), key, es[..n], k);
    forall e | e in es[..n]
      ensures e in es && SameAt(Did(AsMap(actual, key), key, e), AsMap(desired, key), key(e.item))
    {
      EffectIsWanted(desired, actual, key, e);
    }
  }

  /** All changes made, the guest has exactly the desired items. */
  lemma ChangesReachDesired<I(!new)>(desired: seq<I>, actual: seq<I>, key: I -> string)
    requires Consistent(desired, key)
    ensures Ran(AsMap(actual, key), key, Changes(desired, actual, key)) == AsMap(desired, key)
  {
    var es := Changes(desired, actual, key);
    var m := Ran(AsMap(actual, key), key, es);
    forall k ensures SameAt(m, AsMap(desired, key), k) {
      LastWins(AsMap(actual, key), key, es, k);
      if e :| e in es && Touches(e, key, k) && SameAt(m, Did(AsMap(actual, key), key, e), k) {
        EffectIsWanted(desired, actual, key, e);
      } else if !SameAt(AsMap(actual, key), AsMap(desired, key), k) {
        var e := NeededChange(desired, actual, key, k);
        assert false;
      }
    }
    assert forall k :: k in m ==> SameAt(m, AsMap(desired, key), k);
    assert forall k :: k in AsMap(desired, key) ==> SameAt(m, AsMap(desired, key), k);
  }

  /** When two different desired items share a key, there is a guest that already has
      the one that counts and loses it to the other. */
  lemma DuplicateLoses<I(!new)>(desired: seq<I>, key: I -> string, x: I, y: I)
    requires x in desired && y in desired && key(x) == key(y) && x != y
    ensures exists actual :: Ran(AsMap(actual, key), key, Changes(desired, actual, key)) != AsMap(desired, key)
  {
    var k := key(x);
    AsMapHas(desired, key, k);
    var b := AsMap(desired, key)[k];
    var a := if x == b then y else x;
    var actual := [b];
    assert actual[..0] == [] && AsMap(actual[..0], key) == map[];
    var m := AsMap(actual, key);
    assert m == map[k := b];
    var es := Changes(desired, actual, key);
    ChangesHas(desired, actual, key, Set(a));
    assert Touches(Set(a), key, k);
    LastWins(m, key, es, k);
    var e :| e in es && Touches(e, key, k) && SameAt(Ran(m, key, es), Did(m, key, e), k);
    ChangesHas(desired, actual, key, e);
    assert Ran(AsMap(actual, key), key, Changes(desired, actual, key)) != AsMap(desired, key);
  }

  /** The changes are right for every guest exactly when no two different desired
      items share a key. */
  lemma ChangesRightExactly<I(!new)>(desired: seq<I>, key: I -> string)
    ensures Consistent(desired, key) <==>
      forall actual :: Ran(AsMap(actual, key), key, Changes(desired, actual, key)) == AsMap(desired, key)
  {
    if Consistent(desired, key) {
      forall actual ensures Ran(AsMap(actual, key), key, Changes(desired, actual, key)) == AsMap(desired, key) {
        ChangesReachDesired(desired, actual, key);
      }
    } else {
      var x, y :| x in desired && y in desired && key(x) == key(y) && x != y;
      DuplicateLoses(desired, key, x, y);
    }
  }

  /** There is nothing to change exactly when the guest has what is desired. */
  lemma NothingToChange<I(!new)>(desired: seq<I>, actual: seq<I>, key: I -> string)
    ensures Changes(desired, actual, key) == [] <==>
      Consistent(desired, key) && AsMap(actual, key) == AsMap(desired, key)
  {
    if Changes(desired, actual, key) == [] {
      forall x | x in desired ensures key(x) in AsMap(actual, key) && AsMap(actual, key)[key(x)] == x {
        ChangesHas(desired, actual, key, Set(x));
      }
      ChangesReachDesired(desired, actual, key);
    } else if Consistent(desired, key) && AsMap(actual, key) == AsMap(desired, key) {
      var e := Changes(desired, actual, key)[0];
      ChangesHas(desired, actual, key, e);
      AsMapHas(actual, key, key(e.item));
      AsMapHas(desired, key, key(e.item));
      assert false;
    }
  }

  /** Every desired item is added, updated or left alone, as often as it is listed. */
  lemma {:induction false} EachInOneClass<I(!new)>(desired: seq<I>, m: map<string, I>, key: I -> string)
    ensures multiset(desired) ==
      multiset(ToAdd(desired, m, key)) + multiset(ToUpdate(desired, m, key))
      + multiset(Filter(desired, (x: I) => key(x) in m && m[key(x)] == x))
  {
    if desired != [] {
      var last, rest := desired[|desired| - 1], desired[..|desired| - 1];
      EachInOneClass(rest, m, key);
      assert desired == rest + [last];
      assert multiset(desired) == multiset(rest) + multiset{last};
    }
  }

  /** The classes keep the order of the list. */
  lemma {:induction false} FilterKeepsOrder<I(!new)>(first: seq<I>, rest: seq<I>, p: I -> bool)
    ensures Filter(first + rest, p) == Filter(first, p) + Filter(rest, p)
  {
    if rest == [] {
      assert first + rest == first;
    } else {
      var last := rest[|rest| - 1];
      FilterKeepsOrder(first, rest[..|rest| - 1], p);
      assert (first + rest)[..|first + rest| - 1] == first + rest[..|rest| - 1];
    }
  }
}
