/** Scaling a set of virtual machines
    (internal/controller/proxmox/virtualmachineset_controller.go). */
module VmSet {
  import opened Wrappers
  import opened Text
  import opened Pci

  datatype PciMode = Shared | Dedicated | OtherMode

  datatype PciPool = PciPool(mode: PciMode, devices: seq<PciDevice>)

  datatype Set = Set(name: string, replicas: nat, pool: Option<PciPool>, template: seq<PciDevice>)

  /** A VirtualMachine object: who controls it, whose set it is labelled with, whether
      it is being deleted, and the devices in its spec. */
  datatype VM = VM(controller: Option<string>, ownerLabel: Option<string>, deleting: bool, devices: seq<PciDevice>)

  type Objects = map<string, VM>

  function Name(s: Set, i: nat): string {
    s.name + "-" + Itoa(i)
  }

  function Names(s: Set, n: nat): (r: set<string>) {
    set i: nat | i < n :: Name(s, i)
  }

  lemma NameIsNew(s: Set, i: nat)
    ensures Name(s, i) !in Names(s, i)
  {
    forall j: nat | j < i ensures Name(s, j) != Name(s, i) {
      if Name(s, j) == Name(s, i) { NumberedNamesDiffer(s.name + "-", j, i); }
    }
  }

  lemma {:induction false} NamesCount(s: Set, n: nat)
    ensures |Names(s, n)| == n
  {
    if n == 0 {
      assert Names(s, 0) == {};
    } else {
      NamesCount(s, n - 1);
      assert Names(s, n) == Names(s, n - 1) + {Name(s, n - 1)};
      NameIsNew(s, n - 1);
    }
  }

  /** The devices that VM number `i` gets. */
  function DevicesFor(s: Set, i: nat): seq<PciDevice> {
    if s.pool.None? || s.pool.value.mode.OtherMode? then s.template
    else if s.pool.value.mode.Shared? then s.pool.value.devices
    else if i < |s.pool.value.devices| then [s.pool.value.devices[i]]
    else []
  }

  predicate Foreign(s: Set, objects: Objects, i: nat) {
    Name(s, i) in objects && objects[Name(s, i)].controller.Some? && objects[Name(s, i)].controller.value != s.name
  }

  predicate NoneForeign(s: Set, objects: Objects) {
    forall i: nat :: i < s.replicas ==> !Foreign(s, objects, i)
  }

  /** What CreateOrUpdate leaves of one object. */
  function Wanted(s: Set, objects: Objects, i: nat): VM {
    VM(Some(s.name), Some(s.name), Name(s, i) in objects && objects[Name(s, i)].deleting, DevicesFor(s, i))
  }

  /** The objects that others create just before the reconcile does, if any. */
  type Race = string -> Option<VM>

  const QUIET: Race := (_: string) => None

  /** What is there after the call for one object. A create that comes too late is
      answered with AlreadyExists, and the reconcile goes on. */
  function AfterCall(s: Set, objects: Objects, i: nat, race: Race): VM {
    if Name(s, i) !in objects && race(Name(s, i)).Some? then race(Name(s, i)).value else Wanted(s, objects, i)
  }

  function Created(s: Set, objects: Objects, n: nat, race: Race): Objects {
    if n == 0 then objects
    else Created(s, objects, n - 1, race)[Name(s, n - 1) := AfterCall(s, objects, n - 1, race)]
  }

  lemma {:induction false} CreatedAt(s: Set, objects: Objects, n: nat, race: Race, k: string)
    ensures k in Created(s, objects, n, race) <==> k in objects || k in Names(s, n)
    ensures k !in Names(s, n) && k in objects ==> Created(s, objects, n, race)[k] == objects[k]
    ensures forall i: nat :: i < n && k == Name(s, i) ==>
      Created(s, objects, n, race)[k] == AfterCall(s, objects, i, race)
  {
    if n > 0 {
      CreatedAt(s, objects, n - 1, race, k);
      assert k in Names(s, n) <==> k in Names(s, n - 1) || k == Name(s, n - 1);
      forall i: nat | i < n && k == Name(s, i) == Name(s, n - 1) ensures i == n - 1 {
        NumberedNamesDiffer(s.name + "-", i, n - 1);
      }
    }
  }

  /** The set's own objects, as listed by their label. */
  function Owned(s: Set, objects: Objects): set<string> {
    set k | k in objects && objects[k].ownerLabel == Some(s.name)
  }

  /** Listed objects of other than expected names are on their way out. */
  function ScaledDown(s: Set, objects: Objects): Objects {
    map k | k in objects ::
      if k in Owned(s, objects) - Names(s, s.replicas) then objects[k].(deleting := true) else objects[k]
  }

  function PassWith(s: Set, objects: Objects, race: Race): Objects {
    if |Owned(s, objects)| > s.replicas then ScaledDown(s, objects) else Created(s, objects, s.replicas, race)
  }

  /** One completed pass that nobody races with. */
  function Pass(s: Set, objects: Objects): Objects {
    PassWith(s, objects, QUIET)
  }

  /** The objects on their way out are gone. */
  function Gone(s: Set, objects: Objects): Objects {
    map k | k in objects && !objects[k].deleting :: objects[k]
  }

  // ------------------------------------------------------- what a pass is to do

  /** `k` is one of set-0 to set-(n-1). */
  ghost predicate Expected(s: Set, k: string) {
    exists i: nat :: i < s.replicas && k == s.name + "-" + Itoa(i)
  }

  /** Every expected object is there, controlled and labelled by the set; one that somebody
      else creates at the last moment stays as it is. Nothing else changes. */
  ghost predicate AllCreated(s: Set, before: Objects, race: Race, after: Objects) {
    && (forall k :: k in after <==> k in before || Expected(s, k))
    && (forall k :: Expected(s, k) && k in after ==>
         if k !in before && race(k).Some? then after[k] == race(k).value
         else
           && after[k].controller == Some(s.name) && after[k].ownerLabel == Some(s.name)
           && (after[k].deleting <==> k in before && before[k].deleting))
    && (forall k :: k in before && !Expected(s, k) ==> after[k] == before[k])
  }

  /** The objects with the set's label and another name are being deleted. Nothing else
      changes. */
  ghost predicate OthersDeleted(s: Set, before: Objects, after: Objects) {
    && after.Keys == before.Keys
    && forall k :: k in before ==>
         after[k] == if before[k].ownerLabel == Some(s.name) && !Expected(s, k) then before[k].(deleting := true)
                     else before[k]
  }

  /** Another set, or anything else, controls the object. */
  ghost predicate Anothers(s: Set, objects: Objects, k: string) {
    k in objects && objects[k].controller.Some? && objects[k].controller.value != s.name
  }

  /** No expected object fails to be written or belongs to somebody else. */
  ghost predicate Unhindered(s: Set, objects: Objects, fails: string -> bool) {
    forall k :: Expected(s, k) ==> !fails(k) && !Anothers(s, objects, k)
  }

  lemma ExpectedIsNamed(s: Set, k: string)
    ensures Expected(s, k) <==> k in Names(s, s.replicas)
  {
    if k in Names(s, s.replicas) {
      var i: nat :| i < s.replicas && k == Name(s, i);
      assert k == s.name + "-" + Itoa(i);
    }
    if Expected(s, k) {
      var i: nat :| i < s.replicas && k == s.name + "-" + Itoa(i);
      assert k == Name(s, i);
    }
  }

  lemma CreatedMeans(s: Set, before: Objects, race: Race)
    ensures AllCreated(s, before, race, Created(s, before, s.replicas, race))
  {
    var after := Created(s, before, s.replicas, race);
    forall k ensures k in after <==> k in before || Expected(s, k) {
      CreatedAt(s, before, s.replicas, race, k);
      ExpectedIsNamed(s, k);
    }
    forall k | Expected(s, k) && k in after
      ensures
        if k !in before && race(k).Some? then after[k] == race(k).value
        else
          && after[k].controller == Some(s.name) && after[k].ownerLabel == Some(s.name)
          && (after[k].deleting <==> k in before && before[k].deleting)
    {
      CreatedAt(s, before, s.replicas, race, k);
      ExpectedIsNamed(s, k);
      var i: nat :| i < s.replicas && k == Name(s, i);
    }
    forall k | k in before && !Expected(s, k) ensures after[k] == before[k] {
      CreatedAt(s, before, s.replicas, race, k);
      ExpectedIsNamed(s, k);
    }
  }

  /** What is not expected, and what belongs to somebody else, is as it was. */
  ghost predicate OthersKept(s: Set, before: Objects, after: Objects) {
    forall k :: k in before && (Anothers(s, before, k) || !Expected(s, k)) ==> k in after && after[k] == before[k]
  }

  ghost predicate CanMake(s: Set, before: Objects, fails: string -> bool, n: nat) {
    forall j: nat :: j < n ==> !fails(Name(s, j)) && !Foreign(s, before, j)
  }

  lemma OthersStay(s: Set, before: Objects, n: nat, fails: string -> bool, race: Race)
    requires n <= s.replicas && CanMake(s, before, fails, n)
    ensures OthersKept(s, before, Created(s, before, n, race))
  {
    forall k | k in before && (Anothers(s, before, k) || !Expected(s, k))
      ensures k in Created(s, before, n, race) && Created(s, before, n, race)[k] == before[k]
    {
      CreatedAt(s, before, n, race, k);
      forall i: nat | i < n ensures k != Name(s, i) {
        assert !Foreign(s, before, i) && Expected(s, Name(s, i));
      }
    }
  }

  lemma UnhinderedExactly(s: Set, before: Objects, fails: string -> bool)
    ensures Unhindered(s, before, fails) <==> CanMake(s, before, fails, s.replicas)
  {
    if CanMake(s, before, fails, s.replicas) {
      forall k | Expected(s, k) ensures !fails(k) && !Anothers(s, before, k) {
        var i: nat :| i < s.replicas && k == s.name + "-" + Itoa(i);
        assert k == Name(s, i) && !Foreign(s, before, i);
      }
    } else {
      var j: nat :| j < s.replicas && !(!fails(Name(s, j)) && !Foreign(s, before, j));
      assert Expected(s, Name(s, j));
    }
  }

  /** The objects written before it do not change what becomes of the next. */
  lemma NextCall(s: Set, before: Objects, i: nat, race: Race)
    ensures Foreign(s, Created(s, before, i, race), i) <==> Foreign(s, before, i)
    ensures AfterCall(s, Created(s, before, i, race), i, race) == AfterCall(s, before, i, race)
  {
    NameIsNew(s, i);
    CreatedAt(s, before, i, race, Name(s, i));
  }

  lemma ScaledDownMeans(s: Set, before: Objects)
    ensures OthersDeleted(s, before, ScaledDown(s, before))
  {
    forall k | k in before ensures Expected(s, k) <==> k in Names(s, s.replicas) {
      ExpectedIsNamed(s, k);
    }
  }

  class Cluster {
    var objects: Objects

    constructor (objects: Objects)
      ensures this.objects == objects
    {
      this.objects := objects;
    }

    method CreateOrUpdate(s: Set, i: nat, fails: string -> bool, race: Race) returns (ok: bool)
      modifies this
      ensures ok <==> !fails(Name(s, i)) && !Foreign(s, old(objects), i)
      ensures objects == if ok then old(objects)[Name(s, i) := AfterCall(s, old(objects), i, race)] else old(objects)
    {
      var name := Name(s, i);
      ok := !fails(name) && !Foreign(s, objects, i);
      if !ok {
        return;
      }
      if name !in objects && race(name).Some? {
        objects := objects[name := race(name).value];
        return;
      }
      var deleting := name in objects && objects[name].deleting;
      objects := objects[name := VM(Some(s.name), Some(s.name), deleting, DevicesFor(s, i))];
    }

    method Delete(name: string, fails: string -> bool) returns (ok: bool)
      modifies this
      ensures ok <==> !fails(name) && name in old(objects)
      ensures objects == if ok then old(objects)[name := old(objects)[name].(deleting := true)] else old(objects)
    {
      ok := !fails(name) && name in objects;
      if ok {
        objects := objects[name := objects[name].(deleting := true)];
      }
    }

    /** Writes the expected objects in turn up to one that cannot be; `n` were written. */
    method WriteInTurn(s: Set, fails: string -> bool, race: Race) returns (ok: bool, ghost n: nat)
      modifies this
      ensures n <= s.replicas && objects == Created(s, old(objects), n, race) && CanMake(s, old(objects), fails, n)
      ensures if ok then n == s.replicas else !CanMake(s, old(objects), fails, s.replicas)
    {
      n := 0;
      for i := 0 to s.replicas
        invariant n == i && objects == Created(s, old(objects), i, race) && CanMake(s, old(objects), fails, i)
      {
        NextCall(s, old(objects), i, race);
        ok := CreateOrUpdate(s, i, fails, race);
        if !ok {
          return;
        }
        n := n + 1;
      }
      ok := true;
    }

    method CreateOrUpdateVirtualMachineCRs(s: Set, fails: string -> bool, race: Race) returns (ok: bool)
      modifies this
      ensures ok ==> objects == Created(s, old(objects), s.replicas, race)
      ensures ok ==> AllCreated(s, old(objects), race, objects)
      ensures ok <==> Unhindered(s, old(objects), fails)
      // also when it ends early
      ensures OthersKept(s, old(objects), objects)
    {
      CreatedMeans(s, objects, race);
      UnhinderedExactly(s, objects, fails);
      ghost var n;
      ok, n := WriteInTurn(s, fails, race);
      OthersStay(s, old(objects), n, fails, race);
    }

    method ExpectedNames(s: Set) returns (expected: set<string>)
      ensures expected == Names(s, s.replicas)
      ensures forall k :: k in expected <==> Expected(s, k)
    {
      expected := {};
      for i := 0 to s.replicas
        invariant expected == Names(s, i)
      {
        expected := expected + {Name(s, i)};
      }
      forall k ensures k in expected <==> Expected(s, k) {
        ExpectedIsNamed(s, k);
      }
    }

    /** `list` is what the informer listed, in any order. */
    method ScaleDownVMs(s: Set, list: seq<string>, fails: string -> bool) returns (ok: bool)
      requires forall k :: k in list <==> k in objects && objects[k].ownerLabel == Some(s.name)
      modifies this
      ensures ok ==> objects == ScaledDown(s, old(objects))
      ensures ok ==> OthersDeleted(s, old(objects), objects)
      ensures forall k :: k in old(objects) && Expected(s, k) ==> k in objects && objects[k] == old(objects)[k]
      ensures (forall k :: !fails(k)) ==> ok
    {
      ScaledDownMeans(s, objects);
      var expected := ExpectedNames(s);
      for i := 0 to |list|
        invariant objects.Keys == old(objects).Keys
        invariant forall k :: k in objects ==>
          objects[k] == if k in list[..i] && k !in expected then old(objects)[k].(deleting := true) else old(objects)[k]
      {
        assert list[i] in list && list[..i + 1] == list[..i] + [list[i]];
        if list[i] !in expected {
          ok := Delete(list[i], fails);
          if !ok {
            return;
          }
        }
      }
      assert list[..|list|] == list;
      ok := true;
    }

    /** A pass that scales down also writes the status, which may fail when the work is
        done. */
    method HandleVMsetOperations(s: Set, list: seq<string>, fails: string -> bool, race: Race, patchFails: bool)
      returns (ok: bool)
      requires |list| == |Owned(s, objects)| && forall k :: k in list <==> k in Owned(s, objects)
      modifies this
      ensures ok ==> objects == PassWith(s, old(objects), race)
      ensures ok ==>
        if |list| > s.replicas then OthersDeleted(s, old(objects), objects)
        else AllCreated(s, old(objects), race, objects)
      ensures (forall k :: !fails(k)) && |list| > s.replicas ==>
        objects == ScaledDown(s, old(objects)) && (ok <==> !patchFails)
      ensures |list| <= s.replicas ==> (ok <==> Unhindered(s, old(objects), fails))
      ensures |list| <= s.replicas ==> OthersKept(s, old(objects), objects)
    {
      if |list| > s.replicas {
        ok := ScaleDownVMs(s, list, fails);
        ok := ok && !patchFails;
      } else {
        ok := CreateOrUpdateVirtualMachineCRs(s, fails, race);
      }
    }
  }

  // ------------------------------------------------------------------- results

  /** Every expected object is as wanted. */
  ghost predicate AllMade(s: Set, objects: Objects) {
    forall i: nat :: i < s.replicas ==>
      Name(s, i) in objects && objects[Name(s, i)] == VM(Some(s.name), Some(s.name), false, DevicesFor(s, i))
  }

  /** The set is as it should be. */
  ghost predicate Exact(s: Set, objects: Objects) {
    Owned(s, objects) == Names(s, s.replicas) && AllMade(s, objects)
  }

  /** No object of the set, or of one of its names, is on its way out. */
  predicate Live(s: Set, objects: Objects) {
    forall k :: k in objects && (k in Owned(s, objects) || k in Names(s, s.replicas)) ==> !objects[k].deleting
  }

  /** Where nothing is on its way out, a pass that creates leaves every expected
      object as wanted and adds no other. */
  lemma CreateMakes(s: Set, objects: Objects)
    requires Live(s, objects)
    ensures
      var after := Created(s, objects, s.replicas, QUIET);
      Owned(s, after) == Owned(s, objects) + Names(s, s.replicas) && Live(s, after) && AllMade(s, after)
  {
    var after := Created(s, objects, s.replicas, QUIET);
    forall k ensures k in Owned(s, after) <==> k in Owned(s, objects) || k in Names(s, s.replicas) {
      CreatedAt(s, objects, s.replicas, QUIET, k);
      if k in Names(s, s.replicas) {
        var i: nat :| i < s.replicas && k == Name(s, i);
      }
    }
    forall i: nat | i < s.replicas
      ensures Name(s, i) in after && after[Name(s, i)] == VM(Some(s.name), Some(s.name), false, DevicesFor(s, i))
    {
      CreatedAt(s, objects, s.replicas, QUIET, Name(s, i));
      assert Name(s, i) in Names(s, s.replicas);
    }
    forall k | k in after && (k in Owned(s, after) || k in Names(s, s.replicas)) ensures !after[k].deleting {
      CreatedAt(s, objects, s.replicas, QUIET, k);
      if k in Names(s, s.replicas) {
        var i: nat :| i < s.replicas && k == Name(s, i);
      }
    }
  }

  /** Scaling down and waiting leaves exactly the owned objects of expected names, as
      they were. */
  lemma ScaleDownKeeps(s: Set, objects: Objects, k: string)
    requires Live(s, objects)
    ensures
      var after := Gone(s, ScaledDown(s, objects));
      && (k in Owned(s, after) <==> k in Owned(s, objects) && k in Names(s, s.replicas))
      && (k in Names(s, s.replicas) && k in objects ==> k in after && after[k] == objects[k])
      && (k in after ==> k in objects && after[k] == objects[k])
  {
  }

  lemma GoneKeepsLive(s: Set, objects: Objects)
    requires Live(s, objects)
    ensures Owned(s, Gone(s, objects)) == Owned(s, objects) && Live(s, Gone(s, objects))
    ensures forall k :: k in Names(s, s.replicas) && k in objects ==>
      k in Gone(s, objects) && Gone(s, objects)[k] == objects[k]
  {
  }

  lemma SubsetSize(a: set<string>, b: set<string>)
    requires a <= b
    ensures |a| <= |b| && (|a| == |b| ==> a == b)
  {
    assert b == a + (b - a);
  }

  lemma ExactIsKept(s: Set, objects: Objects)
    requires Owned(s, objects) == Names(s, s.replicas) && AllMade(s, objects)
    ensures Exact(s, Gone(s, objects))
  {
    forall i: nat | i < s.replicas
      ensures Name(s, i) in Gone(s, objects) && Gone(s, objects)[Name(s, i)] == objects[Name(s, i)]
    {
    }
    forall k ensures k in Owned(s, Gone(s, objects)) <==> k in Names(s, s.replicas) {
      if k in Names(s, s.replicas) {
        var i: nat :| i < s.replicas && k == Name(s, i);
      }
    }
  }

  lemma SecondPass(s: Set, o: Objects)
    requires Live(s, o) && (Owned(s, o) <= Names(s, s.replicas) || |Owned(s, o)| > s.replicas)
    requires AllMade(s, o) || |Owned(s, o)| <= s.replicas
    ensures Exact(s, Gone(s, Pass(s, o)))
  {
    if |Owned(s, o)| <= s.replicas {
      CreateMakes(s, o);
      assert Owned(s, Pass(s, o)) == Names(s, s.replicas);
      ExactIsKept(s, Pass(s, o));
    } else {
      var after := Gone(s, Pass(s, o));
      forall i: nat | i < s.replicas ensures Name(s, i) in after && after[Name(s, i)] == o[Name(s, i)] {
        assert Name(s, i) in Names(s, s.replicas);
        ScaleDownKeeps(s, o, Name(s, i));
      }
      forall k ensures k in Owned(s, after) <==> k in Names(s, s.replicas) {
        ScaleDownKeeps(s, o, k);
        if k in Names(s, s.replicas) {
          var i: nat :| i < s.replicas && k == Name(s, i);
        }
      }
    }
  }

  lemma GoneIsLive(s: Set, objects: Objects)
    ensures Live(s, Gone(s, objects))
  {
  }

  /** Expected objects that are on their way out. */
  function Leaving(s: Set, objects: Objects): set<string> {
    set k | k in objects && k in Names(s, s.replicas) && objects[k].deleting
  }

  /** Owned objects of unexpected names that are not on their way out. */
  function Extra(s: Set, objects: Objects): set<string> {
    set k | k in Owned(s, objects) && k !in Names(s, s.replicas) && !objects[k].deleting
  }

  /** What a first pass that creates leaves when its deletions are done. */
  lemma OwnedAfterCreate(s: Set, objects: Objects)
    requires |Owned(s, objects)| <= s.replicas
    ensures
      var o := Gone(s, Pass(s, objects));
      && Owned(s, o) == (Names(s, s.replicas) - Leaving(s, objects)) + Extra(s, objects)
      && (Leaving(s, objects) == {} ==> AllMade(s, o))
  {
    var made := Pass(s, objects);
    var o := Gone(s, made);
    forall k ensures k in Owned(s, o) <==> k in (Names(s, s.replicas) - Leaving(s, objects)) + Extra(s, objects) {
      CreatedAt(s, objects, s.replicas, QUIET, k);
      if k in Names(s, s.replicas) {
        var i: nat :| i < s.replicas && k == Name(s, i);
        assert made[k] == Wanted(s, objects, i);
      }
    }
    if Leaving(s, objects) == {} {
      forall i: nat | i < s.replicas
        ensures Name(s, i) in o && o[Name(s, i)] == VM(Some(s.name), Some(s.name), false, DevicesFor(s, i))
      {
        CreatedAt(s, objects, s.replicas, QUIET, Name(s, i));
        assert Name(s, i) in Names(s, s.replicas) && Name(s, i) !in Leaving(s, objects);
      }
    }
  }

  lemma EnoughWhenScalingDown(s: Set, objects: Objects)
    requires |Owned(s, objects)| > s.replicas
    ensures Exact(s, Gone(s, Pass(s, Gone(s, Pass(s, objects)))))
  {
    var o := Gone(s, Pass(s, objects));
    GoneIsLive(s, Pass(s, objects));
    NamesCount(s, s.replicas);
    SubsetSize(Owned(s, o), Names(s, s.replicas));
    SecondPass(s, o);
  }

  lemma EnoughWithoutLeaving(s: Set, objects: Objects)
    requires |Owned(s, objects)| <= s.replicas && Leaving(s, objects) == {}
    ensures Exact(s, Gone(s, Pass(s, Gone(s, Pass(s, objects)))))
  {
    var o := Gone(s, Pass(s, objects));
    GoneIsLive(s, Pass(s, objects));
    OwnedAfterCreate(s, objects);
    NamesCount(s, s.replicas);
    SubsetSize(Names(s, s.replicas), Owned(s, o));
    SecondPass(s, o);
  }

  lemma EnoughWithoutExtra(s: Set, objects: Objects)
    requires |Owned(s, objects)| <= s.replicas && Extra(s, objects) == {}
    ensures Exact(s, Gone(s, Pass(s, Gone(s, Pass(s, objects)))))
  {
    var o := Gone(s, Pass(s, objects));
    GoneIsLive(s, Pass(s, objects));
    OwnedAfterCreate(s, objects);
    NamesCount(s, s.replicas);
    SubsetSize(Owned(s, o), Names(s, s.replicas));
    SecondPass(s, o);
  }

  /** Two passes are enough exactly when the first scales down, or no expected object
      is on its way out, or there is no other object to be removed. */
  lemma TwoPassesExactly(s: Set, objects: Objects)
    ensures Exact(s, Gone(s, Pass(s, Gone(s, Pass(s, objects))))) <==>
      |Owned(s, objects)| > s.replicas || Leaving(s, objects) == {} || Extra(s, objects) == {}
  {
    if |Owned(s, objects)| > s.replicas {
      EnoughWhenScalingDown(s, objects);
    } else if Leaving(s, objects) == {} {
      EnoughWithoutLeaving(s, objects);
    } else if Extra(s, objects) == {} {
      EnoughWithoutExtra(s, objects);
    } else {
      BothMissing(s, objects);
    }
  }

  lemma BothMissing(s: Set, objects: Objects)
    requires |Owned(s, objects)| <= s.replicas && Leaving(s, objects) != {} && Extra(s, objects) != {}
    ensures !Exact(s, Gone(s, Pass(s, Gone(s, Pass(s, objects)))))
  {
    var o := Gone(s, Pass(s, objects));
    OwnedAfterCreate(s, objects);
    GoneIsLive(s, Pass(s, objects));
    var gone :| gone in Leaving(s, objects);
    var extra :| extra in Extra(s, objects);
    if |Owned(s, o)| > s.replicas {
      ScaleDownKeeps(s, o, gone);
      assert gone !in Owned(s, Gone(s, Pass(s, o)));
    } else {
      CreateMakes(s, o);
      GoneKeepsLive(s, Pass(s, o));
      assert extra in Owned(s, Gone(s, Pass(s, o)));
    }
  }

  /** Where nothing of the set is on its way out, two passes and their deletions reach
      exactly the expected set. */
  lemma TwoPassesConverge(s: Set, objects: Objects)
    requires Live(s, objects)
    ensures Exact(s, Gone(s, Pass(s, Gone(s, Pass(s, objects)))))
  {
    TwoPassesExactly(s, objects);
    assert Leaving(s, objects) == {};
  }

  /** From any objects at all, three passes do. */
  lemma ThreePassesConverge(s: Set, objects: Objects)
    ensures Exact(s, Gone(s, Pass(s, Gone(s, Pass(s, Gone(s, Pass(s, objects)))))))
  {
    GoneIsLive(s, Pass(s, objects));
    TwoPassesConverge(s, Gone(s, Pass(s, objects)));
  }

  lemma ScaleDownChanges(s: Set, objects: Objects)
    requires Live(s, objects) && |Owned(s, objects)| > s.replicas
    ensures ScaledDown(s, objects) != objects
  {
    NamesCount(s, s.replicas);
    if forall k :: k in Owned(s, objects) ==> k in Names(s, s.replicas) {
      SubsetSize(Owned(s, objects), Names(s, s.replicas));
      assert false;
    } else {
      var k :| k in Owned(s, objects) && k !in Names(s, s.replicas);
      assert ScaledDown(s, objects)[k].deleting && !objects[k].deleting;
    }
  }

  /** The second pass meets no foreign object if the first one met none. */
  lemma StaysOurs(s: Set, objects: Objects)
    requires NoneForeign(s, objects)
    ensures NoneForeign(s, Gone(s, Pass(s, objects)))
  {
    var after := Gone(s, Pass(s, objects));
    forall i: nat | i < s.replicas ensures !Foreign(s, after, i) {
      CreatedAt(s, objects, s.replicas, QUIET, Name(s, i));
      assert !Foreign(s, objects, i) && Name(s, i) in Names(s, s.replicas);
    }
  }

  /** A pass over a live set changes nothing exactly when the set is as it should be. */
  lemma LiveFixpoint(s: Set, objects: Objects)
    requires Live(s, objects)
    ensures Pass(s, objects) == objects <==> Exact(s, objects)
  {
    NamesCount(s, s.replicas);
    if Exact(s, objects) {
      forall k ensures k in Created(s, objects, s.replicas, QUIET) <==> k in objects {
        CreatedAt(s, objects, s.replicas, QUIET, k);
      }
      forall k | k in objects ensures Created(s, objects, s.replicas, QUIET)[k] == objects[k] {
        CreatedAt(s, objects, s.replicas, QUIET, k);
        if k in Names(s, s.replicas) {
          var i: nat :| i < s.replicas && k == Name(s, i);
        }
      }
    }
    if Pass(s, objects) == objects {
      if |Owned(s, objects)| > s.replicas {
        ScaleDownChanges(s, objects);
        assert false;
      }
      CreateMakes(s, objects);
      SubsetSize(Names(s, s.replicas), Owned(s, objects));
    }
  }

  /** Nothing is on its way out. */
  predicate AtRest(objects: Objects) {
    forall k :: k in objects ==> !objects[k].deleting
  }

  /** A pass and its deletions leave any objects as they are exactly when nothing is on
      its way out and the set is as it should be. */
  lemma FixpointExactly(s: Set, objects: Objects)
    ensures Gone(s, Pass(s, objects)) == objects <==> AtRest(objects) && Exact(s, objects)
  {
    if AtRest(objects) && Exact(s, objects) {
      LiveFixpoint(s, objects);
      assert Gone(s, objects) == objects;
    }
    if Gone(s, Pass(s, objects)) == objects {
      assert AtRest(objects);
      if |Owned(s, objects)| > s.replicas {
        ScaleDownRemoves(s, objects);
        assert false;
      }
      CreateMakes(s, objects);
      GoneKeepsLive(s, Pass(s, objects));
      NamesCount(s, s.replicas);
      SubsetSize(Names(s, s.replicas), Owned(s, objects));
    }
  }

  lemma ScaleDownRemoves(s: Set, objects: Objects)
    requires |Owned(s, objects)| > s.replicas
    ensures Gone(s, ScaledDown(s, objects)) != objects
  {
    NamesCount(s, s.replicas);
    if forall k :: k in Owned(s, objects) ==> k in Names(s, s.replicas) {
      SubsetSize(Owned(s, objects), Names(s, s.replicas));
      assert false;
    } else {
      var k :| k in Owned(s, objects) && k !in Names(s, s.replicas);
      assert k !in Gone(s, ScaledDown(s, objects));
    }
  }

  /** What an exact set looks like: of the objects with the set's label there are set-0
      to set-(n-1) and no others, each under the set's control and not being deleted. */
  lemma ExactMeans(s: Set, objects: Objects)
    requires Exact(s, objects)
    ensures forall k :: (k in objects && objects[k].ownerLabel == Some(s.name)) <==> Expected(s, k)
    ensures forall k :: Expected(s, k) ==>
      k in objects && objects[k].controller == Some(s.name) && !objects[k].deleting
  {
    forall k ensures (k in objects && objects[k].ownerLabel == Some(s.name)) <==> Expected(s, k) {
      ExpectedIsNamed(s, k);
      assert k in Owned(s, objects) <==> k in Names(s, s.replicas);
    }
    forall k | Expected(s, k) ensures k in objects && objects[k].controller == Some(s.name) && !objects[k].deleting {
      ExpectedIsNamed(s, k);
      var i: nat :| i < s.replicas && k == Name(s, i);
    }
  }

  /** In shared mode every machine gets the whole list; without a pool, or in any other
      mode but dedicated, it gets what the template says. */
  lemma SharedDevices(s: Set, objects: Objects, k: string)
    requires Exact(s, objects) && k in Owned(s, objects)
    ensures s.pool.Some? && s.pool.value.mode.Shared? ==> objects[k].devices == s.pool.value.devices
    ensures s.pool.None? || s.pool.value.mode.OtherMode? ==> objects[k].devices == s.template
  {
    var i: nat :| i < s.replicas && k == Name(s, i);
  }

  /** In dedicated mode machine `j` gets entry `j` of the device list, or none beyond
      its end; so with different entries each goes to one machine and no other. */
  lemma DedicatedDevices(s: Set, objects: Objects, k: string, j: nat)
    requires Exact(s, objects) && s.pool.Some? && s.pool.value.mode.Dedicated? && k in Owned(s, objects)
    ensures
      var devices := s.pool.value.devices;
      && (k == Name(s, j) ==> objects[k].devices == if j < |devices| then [devices[j]] else [])
      && (j < |devices| && (forall p, q :: 0 <= p < q < |devices| ==> devices[p] != devices[q]) ==>
           (devices[j] in objects[k].devices <==> k == Name(s, j)))
  {
    var i: nat :| i < s.replicas && k == Name(s, i);
    if k == Name(s, j) {
      NumberedNamesDiffer(s.name + "-", i, j);
    }
  }
}
