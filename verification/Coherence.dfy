/** What the container caches are worth over whole runs in which containers are
    also destroyed, created and changed behind the operator's back. */
module Coherence {
  import opened Wrappers
  import opened ContainerHost
  import opened Containers

  datatype World = World(nodes: Nodes, cts: Cts)

  datatype Op =
    | Lookup(node: string, name: string, found: Result<int, ClientError>)
    | Poll(node: string, name: string, id: int, read: Result<CtObj, ClientError>)
    | Get(node: string, name: string, id: int, read: Result<CtObj, ClientError>)
    | Delete(node: string, name: string, id: int, done: Result<(), ClientError>, calls: seq<Call>)
    | Adjust(node: string, name: string, id: int, done: Result<(), ClientError>, ct: CT)
    | Clone(node: string, id: int, ct: CT)
    | Restart
    | OutsideCreate(node: string, id: int, ct: CT)
    | OutsideDestroy(node: string, id: int)
    | Change(node: string, id: int, ct: CT)

  /** The client's operations by their contracts, and the outside world. A new
      container may get any VMID that is free; containers are not renamed. */
  ghost predicate Took(w: World, op: Op, w': World) {
    match op
    case Lookup(node, name, found) =>
      IdPost(w.nodes, w.cts, node, name, found, w'.nodes) && w' == w.(nodes := w'.nodes)
    case Poll(node, name, id, read) =>
      RefreshPost(w.nodes, w.cts, node, name, id, read, w'.nodes) && w' == w.(nodes := w'.nodes)
    case Get(node, name, id, read) =>
      GetPost(w.nodes, w.cts, node, name, id, read, w'.nodes) && w' == w.(nodes := w'.nodes)
    case Delete(node, name, id, done, calls) =>
      DeletePost(w.nodes, w.cts, node, name, id, done, w'.nodes, w'.cts, calls)
    case Adjust(node, name, id, done, ct) =>
      AdjustPost(w.nodes, w.cts, node, name, id, done, ct, w'.nodes, w'.cts)
    case Clone(node, id, ct) =>
      && id > 0 && node != "" && (node, id) !in w.cts && w'.cts == w.cts[(node, id) := ct]
      && SameBut(w.nodes, w'.nodes, node, ct.name, 0) && CachedObj(w'.nodes, node, 0) == CachedObj(w.nodes, node, 0)
      && CachedId(w'.nodes, node, ct.name) == Some(id)
    case Restart => w' == w.(nodes := map[])
    case OutsideCreate(node, id, ct) =>
      id > 0 && node != "" && (node, id) !in w.cts && w' == w.(cts := w.cts[(node, id) := ct])
    case OutsideDestroy(node, id) => w' == w.(cts := w.cts - {(node, id)})
    case Change(node, id, ct) =>
      (node, id) in w.cts && ct.name == w.cts[(node, id)].name && w' == w.(cts := w.cts[(node, id) := ct])
  }

  ghost predicate IdOk(w: World, n: string, m: string) {
    match CachedId(w.nodes, n, m)
    case None => true
    case Some(id) => id > 0 && ((n, id) in w.cts ==> w.cts[(n, id)].name == m)
  }

  ghost predicate ObjOk(w: World, n: string, id: int) {
    match CachedObj(w.nodes, n, id)
    case None => true
    case Some(o) => id > 0 && o.node == n && o.id == id && ((n, id) in w.cts ==> w.cts[(n, id)].name == o.info.name)
  }

  /** A cached VMID belongs to a container of that name or to none at all. */
  ghost predicate Coherent(w: World) {
    && ValidCts(w.cts)
    && (forall n, m :: IdOk(w, n, m))
    && (forall n, id :: ObjOk(w, n, id))
  }

  /** Nothing is cached under the VMID with another name. */
  ghost predicate UnclaimedId(w: World, n: string, id: int, name: string) {
    && (forall m :: CachedId(w.nodes, n, m) == Some(id) ==> m == name)
    && (CachedObj(w.nodes, n, id).Some? ==> CachedObj(w.nodes, n, id).value.info.name == name)
  }

  /** A new container does not get a VMID under which another one is still cached. */
  ghost predicate Unclaimed(w: World, op: Op) {
    match op
    case Clone(n, id, ct) => UnclaimedId(w, n, id, ct.name)
    case OutsideCreate(n, id, ct) => UnclaimedId(w, n, id, ct.name)
    case _ => true
  }

  lemma StepKeepsIds(w: World, op: Op, w': World, n: string, m: string)
    requires Coherent(w) && Took(w, op, w') && Unclaimed(w, op)
    ensures IdOk(w', n, m)
  {
    assert IdOk(w, n, m);
    if op.Get? {
      assert ObjOk(w, op.node, op.id);
    }
  }

  lemma StepKeepsObjs(w: World, op: Op, w': World, n: string, i: int)
    requires Coherent(w) && Took(w, op, w') && Unclaimed(w, op)
    ensures ObjOk(w', n, i)
  {
    assert ObjOk(w, n, i);
  }

  lemma StepKeepsCoherent(w: World, op: Op, w': World)
    requires Coherent(w) && Took(w, op, w') && Unclaimed(w, op)
    ensures Coherent(w')
  {
    forall n, m ensures IdOk(w', n, m) { StepKeepsIds(w, op, w', n, m); }
    forall n, i ensures ObjOk(w', n, i) { StepKeepsObjs(w, op, w', n, i); }
  }

  /** A VMID given out while another container is cached under it spoils the caches. */
  lemma ClaimedSpoils(w: World, op: Op, w': World)
    requires Coherent(w) && Took(w, op, w') && !Unclaimed(w, op)
    ensures !Coherent(w')
  {
    var n, id, name := op.node, op.id, op.ct.name;
    assert w'.cts[(n, id)].name == name;
    if m :| CachedId(w.nodes, n, m) == Some(id) && m != name {
      assert !IdOk(w', n, m);
    } else {
      assert ObjOk(w, n, id);
      assert !ObjOk(w', n, id);
    }
  }

  /** The exact condition: of all operations and outside changes, only handing out a
      VMID under which another container is cached spoils the caches. */
  lemma StepCoherentExactly(w: World, op: Op, w': World)
    requires Coherent(w) && Took(w, op, w')
    ensures Coherent(w') <==> Unclaimed(w, op)
  {
    if Unclaimed(w, op) {
      StepKeepsCoherent(w, op, w');
    } else {
      ClaimedSpoils(w, op, w');
    }
  }

  // --------------------------------------------------------------------- runs

  ghost predicate TookAt(ws: seq<World>, ops: seq<Op>, i: nat)
    requires |ws| == |ops| + 1 && i < |ops|
  {
    Took(ws[i], ops[i], ws[i + 1])
  }

  ghost predicate IsRun(ws: seq<World>, ops: seq<Op>) {
    && |ws| == |ops| + 1 && ws[0].nodes == map[] && ValidCts(ws[0].cts)
    && forall i :: 0 <= i < |ops| ==> TookAt(ws, ops, i)
  }

  ghost predicate AllUnclaimed(ws: seq<World>, ops: seq<Op>, n: nat)
    requires |ws| == |ops| + 1 && n <= |ops|
  {
    forall i :: 0 <= i < n ==> Unclaimed(ws[i], ops[i])
  }

  lemma {:induction false} RunKeepsCoherent(ws: seq<World>, ops: seq<Op>, n: nat)
    requires IsRun(ws, ops) && n <= |ops| && AllUnclaimed(ws, ops, n)
    ensures Coherent(ws[n])
  {
    if n > 0 {
      RunKeepsCoherent(ws, ops, n - 1);
      assert TookAt(ws, ops, n - 1);
      StepKeepsCoherent(ws[n - 1], ops[n - 1], ws[n]);
    }
  }

  /** The caches are coherent all through a run exactly when no VMID is handed out
      while another container is cached under it. */
  lemma {:induction false} RunCoherentExactly(ws: seq<World>, ops: seq<Op>, n: nat)
    requires IsRun(ws, ops) && n <= |ops|
    ensures (forall i :: 0 <= i <= n ==> Coherent(ws[i])) <==> AllUnclaimed(ws, ops, n)
  {
    if AllUnclaimed(ws, ops, n) {
      forall i | 0 <= i <= n ensures Coherent(ws[i]) { RunKeepsCoherent(ws, ops, i); }
    } else {
      var i :| 0 <= i < n && !Unclaimed(ws[i], ops[i]);
      assert TookAt(ws, ops, i);
      if Coherent(ws[i]) {
        ClaimedSpoils(ws[i], ops[i], ws[i + 1]);
      }
    }
  }

  /** VMIDs are positive and cached objects are filed under their own place, whatever
      VMIDs are reused. */
  lemma StepKeepsValid(w: World, op: Op, w': World)
    requires ValidCts(w.cts) && ValidNodes(w.nodes) && Took(w, op, w')
    ensures ValidCts(w'.cts) && ValidNodes(w'.nodes)
  {
    forall n, m | CachedId(w'.nodes, n, m).Some? ensures CachedId(w'.nodes, n, m).value > 0 {
      NameEffect(w, op, w', n, m);
    }
    forall n, i | CachedObj(w'.nodes, n, i).Some?
      ensures i > 0 && CachedObj(w'.nodes, n, i).value.node == n && CachedObj(w'.nodes, n, i).value.id == i
    {
      ObjectEffect(w, op, w', n, i);
    }
  }

  /** A name newly cached is the name of a container that is there. */
  lemma NameEffect(w: World, op: Op, w': World, n: string, m: string)
    requires ValidCts(w.cts) && ValidNodes(w.nodes) && Took(w, op, w')
    ensures
      var c, c' := CachedId(w.nodes, n, m), CachedId(w'.nodes, n, m);
      c' == c || c'.None? || (n, c'.value) in w.cts || (op.Clone? && op.node == n && c'.value == op.id)
    ensures
      var c, c' := CachedId(w.nodes, n, m), CachedId(w'.nodes, n, m);
      c' == c || c'.None? || HasName(w.cts, n, c'.value, m) || HasName(w'.cts, n, c'.value, m)
  {
  }

  /** An object newly cached is the container as it is. */
  lemma ObjectEffect(w: World, op: Op, w': World, n: string, i: int)
    requires ValidCts(w.cts) && ValidNodes(w.nodes) && Took(w, op, w')
    ensures
      var o, o' := CachedObj(w.nodes, n, i), CachedObj(w'.nodes, n, i);
      o' == o || o'.None? || ((n, i) in w.cts && o'.value == CtObj(n, i, w.cts[(n, i)]))
  {
  }

  // ------------------------------------------------------------- fresh VMIDs

  ghost predicate Existed(ws: seq<World>, i: nat, a: (string, int))
    requires i < |ws|
  {
    exists k :: 0 <= k <= i && a in ws[k].cts
  }

  /** Step `i` hands out no VMID that any container had before. */
  ghost predicate FreshAt(ws: seq<World>, ops: seq<Op>, i: nat)
    requires |ws| == |ops| + 1 && i < |ops|
  {
    ops[i].Clone? || ops[i].OutsideCreate? ==> !Existed(ws, i, (ops[i].node, ops[i].id))
  }

  lemma {:induction false} RunKeepsValid(ws: seq<World>, ops: seq<Op>, n: nat)
    requires IsRun(ws, ops) && n <= |ops|
    ensures ValidCts(ws[n].cts) && ValidNodes(ws[n].nodes)
  {
    if n > 0 {
      RunKeepsValid(ws, ops, n - 1);
      assert TookAt(ws, ops, n - 1);
      StepKeepsValid(ws[n - 1], ops[n - 1], ws[n]);
    }
  }

  /** What is cached was there once. */
  lemma {:induction false} CachedExisted(ws: seq<World>, ops: seq<Op>, n: nat, node: string, m: string, id: int)
    requires IsRun(ws, ops) && n <= |ops|
    requires CachedId(ws[n].nodes, node, m) == Some(id) || CachedObj(ws[n].nodes, node, id).Some?
    ensures Existed(ws, n, (node, id))
  {
    if n > 0 {
      var w, op, w' := ws[n - 1], ops[n - 1], ws[n];
      RunKeepsValid(ws, ops, n - 1);
      assert TookAt(ws, ops, n - 1);
      NameEffect(w, op, w', node, m);
      ObjectEffect(w, op, w', node, id);
      if CachedId(w.nodes, node, m) == Some(id) || CachedObj(w.nodes, node, id).Some? {
        CachedExisted(ws, ops, n - 1, node, m, id);
        var k :| 0 <= k <= n - 1 && (node, id) in ws[k].cts;
      } else {
        assert (node, id) in w.cts || (node, id) in w'.cts;
      }
    }
  }

  /** So in a run with fresh VMIDs the caches are always coherent. */
  lemma FreshRunKeepsCoherent(ws: seq<World>, ops: seq<Op>, n: nat)
    requires IsRun(ws, ops) && n <= |ops| && forall i :: 0 <= i < n ==> FreshAt(ws, ops, i)
    ensures Coherent(ws[n])
  {
    forall i | 0 <= i < n ensures Unclaimed(ws[i], ops[i]) {
      assert FreshAt(ws, ops, i);
      if ops[i].Clone? || ops[i].OutsideCreate? {
        var node, id := ops[i].node, ops[i].id;
        forall m ensures CachedId(ws[i].nodes, node, m) != Some(id) {
          if CachedId(ws[i].nodes, node, m) == Some(id) { CachedExisted(ws, ops, i, node, m, id); }
        }
        if CachedObj(ws[i].nodes, node, id).Some? { CachedExisted(ws, ops, i, node, "", id); }
      }
    }
    RunKeepsCoherent(ws, ops, n);
  }

  // ----------------------------------------------------------------- deletion

  ghost predicate UniqueName(cts: Cts, node: string, name: string) {
    forall i, j :: HasName(cts, node, i, name) && HasName(cts, node, j, name) ==> i == j
  }

  /** A NotFound is true, that is, no container has the name, exactly when a cached
      VMID, if there is one, was that of every container of the name. */
  lemma NotFoundExactly(w: World, op: Op, w': World)
    requires Took(w, op, w') && op.Delete? && op.done == Err(NotFound)
    ensures NoneNamed(w'.cts, op.node, op.name) <==>
      (CachedId(w.nodes, op.node, op.name).Some? ==>
        forall id :: HasName(w.cts, op.node, id, op.name) ==> id == CachedId(w.nodes, op.node, op.name).value)
  {
    if !NoneNamed(w'.cts, op.node, op.name) {
      var id :| (op.node, id) in w'.cts && w'.cts[(op.node, id)].name == op.name;
      assert HasName(w.cts, op.node, id, op.name);
    } else {
      assert forall id :: !HasName(w.cts, op.node, id, op.name);
    }
  }

  /** A success leaves no container of the name exactly when only one had it. */
  lemma DeletedExactly(w: World, op: Op, w': World)
    requires Took(w, op, w') && op.Delete? && op.done.Ok?
    ensures NoneNamed(w'.cts, op.node, op.name) <==> UniqueName(w.cts, op.node, op.name)
  {
    var node, name, gone := op.node, op.name, op.id;
    assert HasName(w.cts, node, gone, name);
    assert forall i :: HasName(w.cts, node, i, name) && i != gone ==> HasName(w'.cts, node, i, name);
    if !NoneNamed(w'.cts, node, name) {
      var i :| (node, i) in w'.cts && w'.cts[(node, i)].name == name;
      assert HasName(w.cts, node, i, name) && i != gone;
    }
  }

  /** Either answer leaves the name uncached, so a NotFound repeated at once is true. */
  lemma SecondNotFoundIsTrue(w0: World, first: Op, w1: World, again: Op, w2: World)
    requires Took(w0, first, w1) && first.Delete? && (first.done.Ok? || first.done == Err(NotFound))
    requires Took(w1, again, w2) && again.Delete? && again.node == first.node && again.name == first.name
    requires again.done == Err(NotFound)
    ensures CachedId(w1.nodes, first.node, first.name).None?
    ensures NoneNamed(w2.cts, again.node, again.name)
  {
    NotFoundExactly(w1, again, w2);
  }

  /** What happens otherwise: the cached VMID is gone and the name has been given to a
      new container by hand. That container survives the call. */
  lemma StaleIdHidesRecreated(node: string, name: string, ct: CT)
    requires node != "" && ct.name == name
    ensures exists w: World, op: Op, w': World ::
      Coherent(w) && Took(w, op, w') && op.Delete? && op.node == node && op.name == name && op.done == Err(NotFound)
      && HasName(w.cts, node, 101, name) && w'.cts == w.cts
  {
    var w := World(map[node := NodeCache(map[name := 100], map[])], map[(node, 101) := ct]);
    var w' := w.(nodes := map[node := NodeCache(map[], map[])]);
    var op := Delete(node, name, 100, Err(NotFound), []);
    assert HasName(w.cts, node, 101, name);
    assert Took(w, op, w');
    assert Coherent(w);
  }

  /** A poll that finds the VMID gone makes the next lookup see what is there: if a
      container of that name has been created since, under any VMID, it is found. */
  lemma PollFollowsRecreation(w0: World, poll: Op, w1: World, cts: Cts, lookup: Op, nodes: Nodes)
    requires poll.Poll? && poll.read == Err(NotFound) && Took(w0, poll, w1)
    requires lookup.Lookup? && lookup.node == poll.node && lookup.name == poll.name && lookup.found.Ok?
    requires IdPost(w1.nodes, cts, lookup.node, lookup.name, lookup.found, nodes)
    ensures if lookup.found.value != 0 then HasName(cts, poll.node, lookup.found.value, poll.name)
            else NoneNamed(cts, poll.node, poll.name)
    ensures CachedObj(nodes, poll.node, poll.id).None?
  {
  }

  /** The same for one container created by hand under a VMID that is free. */
  lemma ReuseExactly(w: World, node: string, id: int, ct: CT)
    requires Coherent(w) && (node, id) !in w.cts && id > 0 && node != ""
    ensures Coherent(w.(cts := w.cts[(node, id) := ct])) <==> UnclaimedId(w, node, id, ct.name)
  {
    StepCoherentExactly(w, OutsideCreate(node, id, ct), w.(cts := w.cts[(node, id) := ct]));
  }
}
