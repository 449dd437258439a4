/** The ownership gate every reconcile passes before it touches Proxmox
    (internal/controller/proxmox/guestname.go), and what it guarantees over whole runs. */
module Ownership {
  import opened Wrappers
  import opened GuestName

  datatype Key = Key(kind: string, namespace: string, name: string)

  function KeyOf(c: Claim): Key {
    Key(c.kind, c.namespace, c.name)
  }

  /** The NameConflict condition: what its message names, and the generation it was set for. */
  datatype Mark = Mark(guest: string, node: string, owner: Key, generation: nat)

  /** A claiming resource in the API server. */
  datatype Obj = Obj(uid: nat, generation: nat, claim: Claim, finalizer: bool, deleting: bool, conflict: Option<Mark>)

  datatype WriteFault = NoFault | Gone | Refused

  /** What the caller does next. `Pass`: go on to Proxmox. */
  datatype Gate = Pass | Wait(seconds: nat) | Stop | Fail

  const NAME_CONFLICT_REQUEUE: nat := 30

  // ---------------------------------------------------------------- ownership

  ghost predicate WellKeyed(objs: map<Key, Obj>) {
    forall k :: k in objs ==> KeyOf(objs[k].claim) == k
  }

  /** No live claim on k's guest is before k's. Objects being deleted still count. */
  ghost predicate Owns(fold: FoldTable, objs: map<Key, Obj>, k: Key) {
    k in objs &&
    forall j :: j in objs && objs[k].claim.SameGuest(fold, objs[j].claim) ==> !objs[j].claim.Before(objs[k].claim)
  }

  /** `o` is the owner of k's guest. */
  ghost predicate OwnerFor(fold: FoldTable, objs: map<Key, Obj>, k: Key, o: Key) {
    k in objs && Owns(fold, objs, o) && objs[k].claim.SameGuest(fold, objs[o].claim)
  }

  /** At most one live object per guest is let through the gate. */
  lemma OneOwnerPerGuest(fold: FoldTable, objs: map<Key, Obj>, j: Key, k: Key)
    requires WellKeyed(objs) && Owns(fold, objs, j) && Owns(fold, objs, k)
    requires objs[j].claim.SameGuest(fold, objs[k].claim)
    ensures j == k
  {
    BeforeIsStrictTotalOrder(objs[j].claim, objs[k].claim, objs[j].claim);
  }

  /** The owner is the oldest: it is on k's guest, and no claim on that guest was created
      earlier, nor, created at the same time, comes first by kind, namespace and name. */
  lemma OwnerIsOldest(fold: FoldTable, objs: map<Key, Obj>, k: Key, o: Key)
    requires k in objs
    ensures OwnerFor(fold, objs, k, o) <==>
      && o in objs && Place(fold, objs[o].claim) == Place(fold, objs[k].claim)
      && forall j :: j in objs && Place(fold, objs[j].claim) == Place(fold, objs[k].claim) ==>
           NoLater(objs[o].claim, objs[j].claim)
  {
    if o in objs {
      SameGuestExactly(fold, objs[k].claim, objs[o].claim);
      forall j | j in objs
        ensures objs[o].claim.SameGuest(fold, objs[j].claim) <==>
          Place(fold, objs[j].claim) == Place(fold, objs[o].claim)
        ensures NoLater(objs[o].claim, objs[j].claim) <==> !objs[j].claim.Before(objs[o].claim)
      {
        SameGuestExactly(fold, objs[o].claim, objs[j].claim);
        NoLaterExactly(objs[o].claim, objs[j].claim);
      }
    }
  }

  function MarkFor(o: Obj, owner: Key): Mark {
    Mark(o.claim.guest, o.claim.node, owner, o.generation)
  }

  /** What `claimGuest` answers and what it leaves in the API server, `owner`
      being the owner of k's guest. */
  function ClaimStep(objs: map<Key, Obj>, k: Key, owner: Key, fault: WriteFault): (Gate, map<Key, Obj>)
    requires k in objs
  {
    var o := objs[k];
    if owner == k then
      if o.conflict.None? then (Pass, objs)
      else match fault
        case NoFault => (Pass, objs[k := o.(conflict := None)])
        case Gone => (Pass, objs)
        case Refused => (Fail, objs)
    else if o.deleting then
      if !o.finalizer then (Stop, objs)
      else match fault
        case NoFault => (Stop, objs - {k})
        case Gone => (Stop, objs)
        case Refused => (Fail, objs)
    else
      var mark := Some(MarkFor(o, owner));
      if o.conflict == mark then (Wait(NAME_CONFLICT_REQUEUE), objs)
      else match fault
        case NoFault => (Wait(NAME_CONFLICT_REQUEUE), objs[k := o.(conflict := mark)])
        case Gone => (Stop, objs)
        case Refused => (Fail, objs)
  }

  /** The API server's store, as claimGuest uses it. */
  class ApiServer {
    var objs: map<Key, Obj>

    constructor (objs: map<Key, Obj>)
      ensures this.objs == objs
    {
      this.objs := objs;
    }

    /** The claims of one space, in whatever order the listing returns them. */
    method ListClaims(lxc: bool) returns (claims: seq<Claim>)
      ensures forall c :: c in claims <==> exists k :: k in objs && objs[k].claim.lxc == lxc && c == objs[k].claim
    {
      claims := [];
      var todo := objs.Keys;
      while todo != {}
        invariant todo <= objs.Keys
        invariant forall c :: c in claims <==>
          exists k :: k in objs.Keys - todo && objs[k].claim.lxc == lxc && c == objs[k].claim
        decreases |todo|
      {
        var k :| k in todo;
        var before := claims;
        if objs[k].claim.lxc == lxc {
          claims := claims + [objs[k].claim];
        }
        assert forall c :: c in claims <==> c in before || (objs[k].claim.lxc == lxc && c == objs[k].claim);
        assert objs.Keys - (todo - {k}) == (objs.Keys - todo) + {k};
        todo := todo - {k};
      }
    }

    method PatchConflict(k: Key, mark: Option<Mark>, fault: WriteFault)
      requires k in objs
      modifies this
      ensures objs == if fault.NoFault? then old(objs)[k := old(objs)[k].(conflict := mark)] else old(objs)
    {
      if fault.NoFault? {
        objs := objs[k := objs[k].(conflict := mark)];
      }
    }

    /** Kubemox's finalizer is the last one, so a deleted object leaves with it. */
    method DropFinalizer(k: Key, fault: WriteFault)
      requires k in objs && objs[k].deleting
      modifies this
      ensures objs == if fault.NoFault? then old(objs) - {k} else old(objs)
    {
      if fault.NoFault? {
        objs := objs - {k};
      }
    }
  }

  /** claimGuest, refining ClaimStep with the owner its own listing determines. */
  method ClaimGuest(api: ApiServer, fold: FoldTable, k: Key, listFails: bool, fault: WriteFault)
    returns (gate: Gate, ghost owner: Key)
    requires WellKeyed(api.objs) && k in api.objs
    modifies api
    ensures listFails ==> gate == Fail && api.objs == old(api.objs)
    ensures !listFails ==> OwnerFor(fold, old(api.objs), k, owner)
    ensures !listFails ==> (gate, api.objs) == ClaimStep(old(api.objs), k, owner, fault)
    // the owner goes on, its conflict mark cleared
    ensures !listFails && owner == k && !fault.Refused? ==> gate == Pass
    ensures !listFails && owner == k && fault.NoFault? ==>
      api.objs == old(api.objs)[k := old(api.objs)[k].(conflict := None)]
    ensures !listFails && owner == k && old(api.objs)[k].conflict.None? ==> gate == Pass && api.objs == old(api.objs)
    // another that is deleted leaves at once, its guest untouched
    ensures !listFails && owner != k && old(api.objs)[k].deleting && old(api.objs)[k].finalizer ==>
      match fault
      case NoFault => gate == Stop && k !in api.objs
      case Gone => gate == Stop && api.objs == old(api.objs)
      case Refused => gate == Fail && api.objs == old(api.objs)
    ensures !listFails && owner != k && old(api.objs)[k].deleting && !old(api.objs)[k].finalizer ==>
      gate == Stop && api.objs == old(api.objs)
    // any other is marked, once for each owner and generation, and waits
    ensures !listFails && owner != k && !old(api.objs)[k].deleting && fault.NoFault? ==>
      var o := old(api.objs)[k];
      && gate == Wait(30)
      && api.objs == old(api.objs)[k := o.(conflict := Some(Mark(o.claim.guest, o.claim.node, owner, o.generation)))]
    // a write that is needed and fails ends the claim
    ensures !listFails && owner == k && old(api.objs)[k].conflict.Some? && fault.Refused? ==> gate == Fail
    ensures !listFails && owner != k && !old(api.objs)[k].deleting && !fault.NoFault? ==>
      var o := old(api.objs)[k];
      gate ==
        if o.conflict == Some(Mark(o.claim.guest, o.claim.node, owner, o.generation)) then Wait(30)
        else if fault.Refused? then Fail else Stop
    // nobody else is touched, and a refused write changes nothing
    ensures forall j :: j != k ==>
      (j in api.objs <==> j in old(api.objs)) && (j in api.objs ==> api.objs[j] == old(api.objs)[j])
    ensures !fault.NoFault? ==> api.objs == old(api.objs)
    ensures gate.Pass? ==> Owns(fold, old(api.objs), k) && Owns(fold, api.objs, k)
  {
    owner := k;
    var obj := api.objs[k];
    var claim := obj.claim;
    var claims := api.ListClaims(claim.lxc);
    var answer := Owner(fold, if listFails then Err("list") else Ok(claims), claim);
    if answer.Err? {
      return Fail, owner;
    }
    owner := KeyOf(answer.value);
    OwnerFromListing(fold, api.objs, claims, k, answer.value);

    if answer.value.SameObject(claim) {
      if obj.conflict.None? {
        return Pass, owner;
      }
      api.PatchConflict(k, None, fault);
      return if fault.Refused? then Fail else Pass, owner;
    }

    if obj.deleting {
      if obj.finalizer {
        api.DropFinalizer(k, fault);
        return if fault.Refused? then Fail else Stop, owner;
      }
      return Stop, owner;
    }

    var mark := Some(MarkFor(obj, KeyOf(answer.value)));
    if obj.conflict != mark {
      api.PatchConflict(k, mark, fault);
      if !fault.NoFault? {
        return if fault.Refused? then Fail else Stop, owner;
      }
    }
    gate := Wait(NAME_CONFLICT_REQUEUE);
  }

  lemma OwnerFromListing(fold: FoldTable, objs: map<Key, Obj>, claims: seq<Claim>, k: Key, owner: Claim)
    requires WellKeyed(objs) && k in objs
    requires forall c :: c in claims <==>
      exists j :: j in objs && objs[j].claim.lxc == objs[k].claim.lxc && c == objs[j].claim
    requires IsOwner(fold, claims, objs[k].claim, owner)
    ensures OwnerFor(fold, objs, k, KeyOf(owner)) && owner == objs[KeyOf(owner)].claim
  {
    assert objs[k].claim in claims;
    var o :| o in objs && objs[o].claim.lxc == objs[k].claim.lxc && owner == objs[o].claim;
    forall j | j in objs && owner.SameGuest(fold, objs[j].claim) ensures !objs[j].claim.Before(owner) {
      SameGuestIsEquivalence(fold, objs[k].claim, owner, objs[j].claim);
      assert objs[j].claim in claims;
    }
  }

  // ------------------------------------------------------------------ machine

  /** A reconcile in flight. `Gated`: past claimGuest. `Armed`: holds the
      finalizer, so it may write to Proxmox. `snap` is the object it works from. */
  datatype Worker = Gated(snap: Obj) | Armed(snap: Obj)

  datatype World = World(nextUid: nat, objs: map<Key, Obj>, busy: map<Key, Worker>)

  datatype Step =
    | Create(obj: Obj)
    | Edit(k: Key, claim: Claim)
    | RequestDelete(k: Key)
    | EnterGate(k: Key, owner: Key, fault: WriteFault)
    | Arm(k: Key)
    | Mutate(k: Key)
    | ReleaseFinalizer(k: Key)
    | End(k: Key)

  ghost predicate Enabled(fold: FoldTable, w: World, s: Step) {
    match s
    case Create(obj) =>
      KeyOf(obj.claim) !in w.objs && obj.uid == w.nextUid && !obj.finalizer && !obj.deleting && obj.conflict.None?
    case Edit(k, claim) => k in w.objs && KeyOf(claim) == k && claim.created == w.objs[k].claim.created
    case RequestDelete(k) => k in w.objs
    case EnterGate(k, owner, fault) => k !in w.busy && OwnerFor(fold, w.objs, k, owner)
    case Arm(k) => k in w.busy && w.busy[k].Gated?
    case Mutate(k) => k in w.busy && w.busy[k].Armed?
    case ReleaseFinalizer(k) => k in w.busy && w.busy[k].Armed? && w.busy[k].snap.deleting
    case End(k) => k in w.busy
  }

  /** The worker's object is still there (and not another one of the same name). */
  ghost predicate Live(w: World, k: Key) {
    k in w.busy && k in w.objs && w.objs[k].uid == w.busy[k].snap.uid
  }

  /** Adding the finalizer is an Update, which the API server refuses for an
      object that changed since it was read or is gone. A deleted object without
      finalizer is left alone. */
  ghost function ArmStep(w: World, k: Key): World
    requires k in w.busy
  {
    var snap := w.busy[k].snap;
    if snap.finalizer then w.(busy := w.busy[k := Armed(snap)])
    else if snap.deleting || k !in w.objs || w.objs[k] != snap then w.(busy := w.busy - {k})
    else
      var held := snap.(finalizer := true);
      w.(objs := w.objs[k := held], busy := w.busy[k := Armed(held)])
  }

  ghost function Next(fold: FoldTable, w: World, s: Step): World
    requires Enabled(fold, w, s)
  {
    match s
    case Create(obj) => w.(nextUid := w.nextUid + 1, objs := w.objs[KeyOf(obj.claim) := obj])
    case Edit(k, claim) =>
      w.(objs := w.objs[k := w.objs[k].(claim := claim, generation := w.objs[k].generation + 1)])
    case RequestDelete(k) =>
      if w.objs[k].finalizer then w.(objs := w.objs[k := w.objs[k].(deleting := true)])
      else w.(objs := w.objs - {k})
    case EnterGate(k, owner, fault) =>
      var (gate, objs) := ClaimStep(w.objs, k, owner, fault);
      w.(objs := objs, busy := if gate.Pass? then w.busy[k := Gated(objs[k])] else w.busy)
    case Arm(k) => ArmStep(w, k)
    case Mutate(k) => w
    case ReleaseFinalizer(k) =>
      w.(objs := if k in w.objs && w.objs[k] == w.busy[k].snap then w.objs - {k} else w.objs,
         busy := w.busy - {k})
    case End(k) => w.(busy := w.busy - {k})
  }

  /** The worker may yet write to Proxmox: it holds the finalizer, or nothing stands in
      the way of its taking it. */
  ghost predicate CanWrite(w: World, k: Key) {
    && k in w.busy
    && (w.busy[k].snap.finalizer || (!w.busy[k].snap.deleting && k in w.objs && w.objs[k] == w.busy[k].snap))
  }

  /** k's object taking up claim `c` would come before a worker that can write to the
      same guest. */
  ghost predicate Overtakes(fold: FoldTable, w: World, k: Key, c: Claim) {
    exists j :: j != k && CanWrite(w, j) && j in w.objs && w.objs[j].claim.SameGuest(fold, c) &&
      c.Before(w.objs[j].claim)
  }

  /** The only steps that break the single writer: placing an earlier claim on a guest
      that a worker can write to, and moving an object off its guest while its worker
      holds the finalizer. */
  ghost predicate Harmful(fold: FoldTable, w: World, s: Step) {
    match s
    case Create(obj) => Overtakes(fold, w, KeyOf(obj.claim), obj.claim)
    case Edit(k, claim) =>
      || Overtakes(fold, w, k, claim)
      || (k in w.busy && w.busy[k].snap.finalizer && !claim.SameGuest(fold, w.busy[k].snap.claim))
    case _ => false
  }

  /** The worker's object owns the guest the worker is about to write to. */
  ghost predicate OnItsGuest(fold: FoldTable, w: World, k: Key)
    requires k in w.busy
  {
    Owns(fold, w.objs, k) && w.objs[k].claim.SameGuest(fold, w.busy[k].snap.claim)
  }

  ghost predicate WorkerOk(fold: FoldTable, w: World, k: Key)
    requires k in w.busy
  {
    && (w.busy[k].snap.finalizer ==> Live(w, k) && w.objs[k].finalizer)
    && (w.busy[k].Armed? ==> w.busy[k].snap.finalizer)
    && w.busy[k].snap.uid < w.nextUid
    && (Live(w, k) ==> w.busy[k].snap.generation <= w.objs[k].generation)
    && (CanWrite(w, k) ==> OnItsGuest(fold, w, k))
  }

  ghost predicate Inv(fold: FoldTable, w: World) {
    && WellKeyed(w.objs)
    && (forall k :: k in w.objs ==> w.objs[k].uid < w.nextUid)
    && (forall k :: k in w.objs && w.objs[k].deleting ==> w.objs[k].finalizer)
    && (forall k :: k in w.busy ==> WorkerOk(fold, w, k))
  }

  /** Objects only go away or change apart from their claims. */
  ghost predicate Shrinks(objs: map<Key, Obj>, objs': map<Key, Obj>) {
    objs'.Keys <= objs.Keys &&
    forall j :: j in objs' ==>
      objs'[j].claim == objs[j].claim && objs'[j].uid == objs[j].uid && objs'[j].generation == objs[j].generation
  }

  lemma OwnsShrinks(fold: FoldTable, objs: map<Key, Obj>, objs': map<Key, Obj>, k: Key)
    requires Owns(fold, objs, k) && k in objs' && Shrinks(objs, objs')
    ensures Owns(fold, objs', k)
  {
  }

  lemma NextShrinks(fold: FoldTable, w: World, s: Step)
    requires Enabled(fold, w, s) && !s.Create? && !s.Edit?
    ensures Shrinks(w.objs, Next(fold, w, s).objs) && Next(fold, w, s).nextUid == w.nextUid
  {
  }

  /** A new claim takes the guest from k exactly when it is on k's guest and before k. */
  lemma OwnsJoined(fold: FoldTable, objs: map<Key, Obj>, j: Key, o: Obj, k: Key)
    requires Owns(fold, objs, k) && j != k
    ensures Owns(fold, objs[j := o], k) <==> !(objs[k].claim.SameGuest(fold, o.claim) && o.claim.Before(objs[k].claim))
  {
    var objs' := objs[j := o];
    assert objs'[j] == o;
  }

  lemma OwnsEdited(fold: FoldTable, objs: map<Key, Obj>, k: Key, o: Obj)
    requires WellKeyed(objs) && Owns(fold, objs, k)
    requires KeyOf(o.claim) == k && o.claim.created == objs[k].claim.created
    requires objs[k].claim.SameGuest(fold, o.claim)
    ensures Owns(fold, objs[k := o], k)
  {
    var objs' := objs[k := o];
    BeforeIsStrictTotalOrder(o.claim, o.claim, o.claim);
    forall i | i in objs' && o.claim.SameGuest(fold, objs'[i].claim) ensures !objs'[i].claim.Before(o.claim) {
      if i != k {
        SameGuestIsEquivalence(fold, objs[k].claim, o.claim, objs[i].claim);
      }
    }
  }

  lemma CreateKeepsWorker(fold: FoldTable, w: World, s: Step, k: Key)
    requires Inv(fold, w) && Enabled(fold, w, s) && !Harmful(fold, w, s) && s.Create? && k in w.busy
    ensures WorkerOk(fold, Next(fold, w, s), k)
  {
    var w', j := Next(fold, w, s), KeyOf(s.obj.claim);
    assert WorkerOk(fold, w, k);
    if CanWrite(w', k) {
      assert j != k && CanWrite(w, k);
      OwnsJoined(fold, w.objs, j, s.obj, k);
    }
  }

  lemma EditKeepsWorker(fold: FoldTable, w: World, s: Step, k: Key)
    requires Inv(fold, w) && Enabled(fold, w, s) && !Harmful(fold, w, s) && s.Edit? && k in w.busy
    ensures WorkerOk(fold, Next(fold, w, s), k)
  {
    var w' := Next(fold, w, s);
    assert WorkerOk(fold, w, k);
    if CanWrite(w', k) {
      var o := w'.objs[s.k];
      if s.k == k {
        StillOnGuest(fold, w, s);
      } else {
        assert CanWrite(w, k);
        OwnsJoined(fold, w.objs, s.k, o, k);
      }
    }
  }

  /** A worker with the finalizer stays on its guest when its object is edited within
      that guest. */
  lemma StillOnGuest(fold: FoldTable, w: World, s: Step)
    requires Inv(fold, w) && Enabled(fold, w, s) && !Harmful(fold, w, s) && s.Edit? && s.k in w.busy
    requires CanWrite(Next(fold, w, s), s.k)
    ensures OnItsGuest(fold, Next(fold, w, s), s.k)
  {
    var k, snap := s.k, w.busy[s.k].snap;
    assert WorkerOk(fold, w, k);
    assert snap.finalizer;
    SameGuestIsEquivalence(fold, w.objs[k].claim, snap.claim, s.claim);
    SameGuestIsEquivalence(fold, s.claim, snap.claim, s.claim);
    OwnsEdited(fold, w.objs, k, Next(fold, w, s).objs[k]);
  }

  /** Nobody but k's own reconcile takes k's finalizer away while k owns its guest. */
  lemma FinalizerHeld(fold: FoldTable, w: World, s: Step, k: Key)
    requires Inv(fold, w) && Enabled(fold, w, s) && !s.Create? && !s.Edit?
    requires k in w.busy && k in Next(fold, w, s).busy && Live(w, k) && w.objs[k].finalizer
    ensures k in Next(fold, w, s).objs && Next(fold, w, s).objs[k].finalizer
  {
    assert WorkerOk(fold, w, k);
    if s.EnterGate? {
      ClaimStepHolds(w.objs, s.k, s.owner, s.fault, k);
    }
  }

  /** A claim lets nobody go but the object it is about, if that is deleted and not the owner. */
  lemma ClaimStepHolds(objs: map<Key, Obj>, j: Key, owner: Key, fault: WriteFault, k: Key)
    requires j in objs && k in objs && j != k
    ensures k in ClaimStep(objs, j, owner, fault).1 && ClaimStep(objs, j, owner, fault).1[k] == objs[k]
  {
  }

  lemma RestKeepsWorker(fold: FoldTable, w: World, s: Step, k: Key)
    requires Inv(fold, w) && Enabled(fold, w, s) && !s.Create? && !s.Edit?
    requires k in w.busy && k in Next(fold, w, s).busy && w.busy[k] == Next(fold, w, s).busy[k]
    ensures WorkerOk(fold, Next(fold, w, s), k)
  {
    var w' := Next(fold, w, s);
    assert WorkerOk(fold, w, k);
    NextShrinks(fold, w, s);
    if w.busy[k].snap.finalizer {
      FinalizerHeld(fold, w, s, k);
    }
    if CanWrite(w', k) {
      assert CanWrite(w, k);
      OwnsShrinks(fold, w.objs, w'.objs, k);
    }
  }

  lemma EnterGateStartsWorker(fold: FoldTable, w: World, s: Step)
    requires Inv(fold, w) && Enabled(fold, w, s) && s.EnterGate? && s.k in Next(fold, w, s).busy
    ensures WorkerOk(fold, Next(fold, w, s), s.k)
  {
    NextShrinks(fold, w, s);
    OwnsShrinks(fold, w.objs, Next(fold, w, s).objs, s.k);
    SameGuestIsEquivalence(fold, w.objs[s.k].claim, w.objs[s.k].claim, w.objs[s.k].claim);
  }

  lemma ArmKeepsWorker(fold: FoldTable, w: World, s: Step)
    requires Inv(fold, w) && Enabled(fold, w, s) && s.Arm? && s.k in Next(fold, w, s).busy
    ensures WorkerOk(fold, Next(fold, w, s), s.k)
  {
    NextShrinks(fold, w, s);
    assert WorkerOk(fold, w, s.k);
    OwnsShrinks(fold, w.objs, Next(fold, w, s).objs, s.k);
  }

  lemma StepKeepsWorkers(fold: FoldTable, w: World, s: Step, k: Key)
    requires Inv(fold, w) && Enabled(fold, w, s) && !Harmful(fold, w, s) && k in Next(fold, w, s).busy
    ensures WorkerOk(fold, Next(fold, w, s), k)
  {
    match s {
      case Create(_) => CreateKeepsWorker(fold, w, s, k);
      case Edit(_, _) => EditKeepsWorker(fold, w, s, k);
      case EnterGate(g, _, _) =>
        if g == k { EnterGateStartsWorker(fold, w, s); } else { RestKeepsWorker(fold, w, s, k); }
      case Arm(a) =>
        if a == k { ArmKeepsWorker(fold, w, s); } else { RestKeepsWorker(fold, w, s, k); }
      case _ => RestKeepsWorker(fold, w, s, k);
    }
  }

  lemma StepKeepsInv(fold: FoldTable, w: World, s: Step)
    requires Inv(fold, w) && Enabled(fold, w, s) && !Harmful(fold, w, s)
    ensures Inv(fold, Next(fold, w, s))
  {
    forall k | k in Next(fold, w, s).busy ensures WorkerOk(fold, Next(fold, w, s), k) {
      StepKeepsWorkers(fold, w, s, k);
    }
    ObjectsStayWellFormed(fold, w, s);
  }

  lemma ObjectsStayWellFormed(fold: FoldTable, w: World, s: Step)
    requires Inv(fold, w) && Enabled(fold, w, s)
    ensures var w' := Next(fold, w, s);
      && WellKeyed(w'.objs)
      && (forall k :: k in w'.objs ==> w'.objs[k].uid < w'.nextUid)
      && (forall k :: k in w'.objs && w'.objs[k].deleting ==> w'.objs[k].finalizer)
  {
    if !s.Create? && !s.Edit? {
      NextShrinks(fold, w, s);
      DeletingHoldsFinalizer(fold, w, s);
    }
  }

  lemma DeletingHoldsFinalizer(fold: FoldTable, w: World, s: Step)
    requires Inv(fold, w) && Enabled(fold, w, s) && !s.Create? && !s.Edit?
    ensures forall k :: k in Next(fold, w, s).objs && Next(fold, w, s).objs[k].deleting ==>
      Next(fold, w, s).objs[k].finalizer
  {
  }

  // --------------------------------------------------------------------- runs

  ghost predicate Init(w: World) {
    && w.busy == map[] && WellKeyed(w.objs)
    && (forall k :: k in w.objs ==> w.objs[k].uid < w.nextUid)
    && (forall k :: k in w.objs && w.objs[k].deleting ==> w.objs[k].finalizer)
  }

  ghost predicate RunStep(fold: FoldTable, ws: seq<World>, ss: seq<Step>, i: nat)
    requires |ws| == |ss| + 1 && i < |ss|
  {
    Enabled(fold, ws[i], ss[i]) && ws[i + 1] == Next(fold, ws[i], ss[i])
  }

  ghost predicate IsPath(fold: FoldTable, ws: seq<World>, ss: seq<Step>) {
    |ws| == |ss| + 1 && forall i :: 0 <= i < |ss| ==> RunStep(fold, ws, ss, i)
  }

  ghost predicate HarmlessAt(fold: FoldTable, ws: seq<World>, ss: seq<Step>, i: nat)
    requires |ws| == |ss| + 1 && i < |ss|
  {
    !Harmful(fold, ws[i], ss[i])
  }

  ghost predicate IsHarmless(fold: FoldTable, ws: seq<World>, ss: seq<Step>) {
    IsPath(fold, ws, ss) && forall i :: 0 <= i < |ss| ==> HarmlessAt(fold, ws, ss, i)
  }

  lemma {:induction false} PathKeepsInv(fold: FoldTable, ws: seq<World>, ss: seq<Step>, n: nat)
    requires IsHarmless(fold, ws, ss) && Inv(fold, ws[0]) && n <= |ss|
    ensures Inv(fold, ws[n])
  {
    if n > 0 {
      PathKeepsInv(fold, ws, ss, n - 1);
      assert RunStep(fold, ws, ss, n - 1) && HarmlessAt(fold, ws, ss, n - 1);
      StepKeepsInv(fold, ws[n - 1], ss[n - 1]);
    }
  }

  predicate IsWrite(s: Step) {
    s.Mutate? || s.ReleaseFinalizer?
  }

  /** Whoever writes is the live object with the least claim on the guest, holds the
      finalizer, still claims that very guest, and is alone in being armed for it. */
  ghost predicate WriteOk(fold: FoldTable, w: World, k: Key) {
    && k in w.busy && OnItsGuest(fold, w, k) && w.objs[k].finalizer
    && forall j :: j in w.busy && w.busy[j].Armed? && w.busy[j].snap.claim.SameGuest(fold, w.busy[k].snap.claim) ==>
         j == k
  }

  lemma ArmedIsOk(fold: FoldTable, w: World, k: Key)
    requires Inv(fold, w) && k in w.busy && w.busy[k].Armed?
    ensures WriteOk(fold, w, k)
  {
    assert WorkerOk(fold, w, k);
    forall j | j in w.busy && w.busy[j].Armed? && w.busy[j].snap.claim.SameGuest(fold, w.busy[k].snap.claim)
      ensures j == k
    {
      assert WorkerOk(fold, w, j);
      SameGuestIsEquivalence(fold, w.objs[j].claim, w.busy[j].snap.claim, w.busy[k].snap.claim);
      SameGuestIsEquivalence(fold, w.objs[j].claim, w.busy[k].snap.claim, w.objs[k].claim);
      SameGuestIsEquivalence(fold, w.busy[k].snap.claim, w.objs[k].claim, w.objs[j].claim);
      OneOwnerPerGuest(fold, w.objs, j, k);
    }
  }

  /** In every run without harmful steps there is a single writer: every mutation and
      every release of a guest is in order. */
  lemma SingleWriter(fold: FoldTable, ws: seq<World>, ss: seq<Step>, n: nat)
    requires IsHarmless(fold, ws, ss) && Init(ws[0]) && n < |ss| && IsWrite(ss[n])
    ensures WriteOk(fold, ws[n], ss[n].k)
  {
    PathKeepsInv(fold, ws, ss, n);
    assert RunStep(fold, ws, ss, n);
    ArmedIsOk(fold, ws[n], ss[n].k);
  }

  ghost predicate WritesOk(fold: FoldTable, ws: seq<World>, ss: seq<Step>) {
    |ws| == |ss| + 1 && forall n :: 0 <= n < |ss| && IsWrite(ss[n]) ==> WriteOk(fold, ws[n], ss[n].k)
  }

  /** Every write of every continuation without further harm is in order. */
  ghost predicate StaysSingle(fold: FoldTable, w: World) {
    forall ws, ss :: IsHarmless(fold, ws, ss) && ws[0] == w ==> WritesOk(fold, ws, ss)
  }

  /** A harmful step leaves a worker that can write but is not on a guest of its own. */
  lemma HarmDone(fold: FoldTable, w: World, s: Step) returns (j: Key)
    requires Inv(fold, w) && Enabled(fold, w, s) && Harmful(fold, w, s)
    ensures CanWrite(Next(fold, w, s), j) && j in Next(fold, w, s).objs && !OnItsGuest(fold, Next(fold, w, s), j)
  {
    var k := Touched(s);
    var c := if s.Create? then s.obj.claim else s.claim;
    if j' :| j' != k && CanWrite(w, j') && j' in w.objs && w.objs[j'].claim.SameGuest(fold, c) &&
             c.Before(w.objs[j'].claim)
    {
      j := j';
      assert WorkerOk(fold, w, j);
      OwnsJoined(fold, w.objs, k, Next(fold, w, s).objs[k], j);
    } else {
      j := k;
      assert WorkerOk(fold, w, j);
    }
  }

  /** Two steps of its own bring such a worker to write. */
  lemma HarmShows(fold: FoldTable, w: World, j: Key) returns (ws: seq<World>, ss: seq<Step>)
    requires CanWrite(w, j) && j in w.objs && !OnItsGuest(fold, w, j) && WellKeyed(w.objs)
    ensures IsHarmless(fold, ws, ss) && ws[0] == w && !WritesOk(fold, ws, ss)
  {
    if w.busy[j].Armed? {
      ws, ss := [w, w], [Mutate(j)];
      assert RunStep(fold, ws, ss, 0) && HarmlessAt(fold, ws, ss, 0);
      assert IsWrite(ss[0]) && !WriteOk(fold, ws[0], j);
    } else {
      var armed := Next(fold, w, Arm(j));
      assert armed.busy[j].Armed? && armed.busy[j].snap.claim == w.busy[j].snap.claim;
      SameClaimsSameOwner(fold, w.objs, armed.objs, j);
      ws, ss := [w, armed, armed], [Arm(j), Mutate(j)];
      assert RunStep(fold, ws, ss, 0) && RunStep(fold, ws, ss, 1);
      assert HarmlessAt(fold, ws, ss, 0) && HarmlessAt(fold, ws, ss, 1);
      assert IsWrite(ss[1]) && !WriteOk(fold, ws[1], j);
    }
  }

  lemma SameClaimsSameOwner(fold: FoldTable, objs: map<Key, Obj>, objs': map<Key, Obj>, k: Key)
    requires objs'.Keys == objs.Keys && forall j :: j in objs ==> objs'[j].claim == objs[j].claim
    ensures Owns(fold, objs, k) <==> Owns(fold, objs', k)
  {
  }

  /** The exact condition: after a step there is a single writer in every continuation
      without further harm if and only if the step is not harmful. */
  lemma SingleWriterExactly(fold: FoldTable, w: World, s: Step)
    requires Inv(fold, w) && Enabled(fold, w, s)
    ensures StaysSingle(fold, Next(fold, w, s)) <==> !Harmful(fold, w, s)
  {
    var w' := Next(fold, w, s);
    if Harmful(fold, w, s) {
      ObjectsStayWellFormed(fold, w, s);
      var j := HarmDone(fold, w, s);
      var ws, ss := HarmShows(fold, w', j);
    } else {
      StepKeepsInv(fold, w, s);
      forall ws: seq<World>, ss: seq<Step> | IsHarmless(fold, ws, ss) && ws[0] == w'
        ensures WritesOk(fold, ws, ss)
      {
        forall n: nat | n < |ss| && IsWrite(ss[n]) ensures WriteOk(fold, ws[n], ss[n].k) {
          PathKeepsInv(fold, ws, ss, n);
          assert RunStep(fold, ws, ss, n);
          ArmedIsOk(fold, ws[n], ss[n].k);
        }
      }
    }
  }

  /** The exact condition, step by step: an owner that is not itself edited or
      removed keeps its guest unless the step places an earlier claim on it.
      So creating later claims, deleting or releasing other objects and marking
      conflicts never hand a guest over, and an owner being deleted keeps it. */
  lemma OwnerKeptExactly(fold: FoldTable, w: World, s: Step, k: Key)
    requires Inv(fold, w) && Enabled(fold, w, s) && Owns(fold, w.objs, k)
    requires k in Next(fold, w, s).objs && (s.Edit? ==> s.k != k)
    ensures Owns(fold, Next(fold, w, s).objs, k) <==>
      !(match s
        case Create(o) => w.objs[k].claim.SameGuest(fold, o.claim) && o.claim.Before(w.objs[k].claim)
        case Edit(j, c) => w.objs[k].claim.SameGuest(fold, c) && c.Before(w.objs[k].claim)
        case _ => false)
  {
    match s {
      case Create(obj) => OwnsJoined(fold, w.objs, KeyOf(obj.claim), obj, k);
      case Edit(e, claim) =>
        OwnsJoined(fold, w.objs, e, w.objs[e].(claim := claim, generation := w.objs[e].generation + 1), k);
      case _ =>
        NextShrinks(fold, w, s);
        OwnsShrinks(fold, w.objs, Next(fold, w, s).objs, k);
    }
  }

  /** A claim created later never takes a guest from anybody. */
  lemma LaterCreateTakesNothing(fold: FoldTable, w: World, s: Step, k: Key, o: Key)
    requires Enabled(fold, w, s) && s.Create? && OwnerFor(fold, w.objs, k, o)
    requires s.obj.claim.created > w.objs[o].claim.created
    ensures OwnerFor(fold, Next(fold, w, s).objs, k, o)
  {
    NoLaterExactly(w.objs[o].claim, s.obj.claim);
    OwnsJoined(fold, w.objs, KeyOf(s.obj.claim), s.obj, o);
  }

  /** An object leaves only when it is deleted: at once if nothing holds it, else at a claim
      that shows it to own nothing, or released by a worker that has read it as it is now. */
  lemma LeavesWhenDeleted(fold: FoldTable, w: World, s: Step, k: Key)
    requires Inv(fold, w) && Enabled(fold, w, s) && k in w.objs && k !in Next(fold, w, s).objs
    ensures Touched(s) == k
    ensures
      || (s.RequestDelete? && !w.objs[k].finalizer)
      || (w.objs[k].deleting && s.EnterGate? && s.owner != k && s.fault.NoFault?)
      || (w.objs[k].deleting && s.ReleaseFinalizer? && w.busy[k].snap == w.objs[k])
  {
  }

  /** A deleted object that owns no guest leaves at its next claim without fault. */
  lemma ReleasedAtClaim(fold: FoldTable, w: World, s: Step)
    requires Inv(fold, w) && Enabled(fold, w, s) && s.EnterGate? && s.fault.NoFault? && s.owner != s.k
    requires w.objs[s.k].deleting
    ensures Next(fold, w, s) == w.(objs := w.objs - {s.k})
  {
  }

  /** Every deleted object can leave by steps of its own: an owner by releasing its
      guest, any other without a write to the guest. Nobody else is touched. */
  lemma DeletedLeaves(fold: FoldTable, w: World, k: Key, owner: Key) returns (ws: seq<World>, ss: seq<Step>)
    requires Inv(fold, w) && OwnerFor(fold, w.objs, k, owner) && w.objs[k].deleting && k !in w.busy
    ensures IsPath(fold, ws, ss) && ws[0] == w && ws[|ss|] == w.(objs := w.objs - {k})
    ensures forall i :: 0 <= i < |ss| ==> Touched(ss[i]) == k && (IsWrite(ss[i]) ==> k == owner)
  {
    var enter := EnterGate(k, owner, NoFault);
    var w1 := Next(fold, w, enter);
    if k != owner {
      ReleasedAtClaim(fold, w, enter);
      ws, ss := [w, w1], [enter];
      assert RunStep(fold, ws, ss, 0);
    } else {
      var w2 := Next(fold, w1, Arm(k));
      var w3 := Next(fold, w2, ReleaseFinalizer(k));
      assert w3.objs == w.objs - {k} && w3.busy == w.busy;
      ws, ss := [w, w1, w2, w3], [enter, Arm(k), ReleaseFinalizer(k)];
      assert RunStep(fold, ws, ss, 0) && RunStep(fold, ws, ss, 1) && RunStep(fold, ws, ss, 2);
    }
  }

  lemma StepBefore(fold: FoldTable, w: World, s: Step, ws: seq<World>, ss: seq<Step>)
    requires IsPath(fold, ws, ss) && Enabled(fold, w, s) && ws[0] == Next(fold, w, s)
    ensures IsPath(fold, [w] + ws, [s] + ss)
  {
    forall i | 0 <= i < |ss| + 1 ensures RunStep(fold, [w] + ws, [s] + ss, i) {
      if i > 0 { assert RunStep(fold, ws, ss, i - 1); }
    }
  }

  /** So every object that nobody reconciles can be deleted, and is gone at the end. */
  lemma DeletionCompletes(fold: FoldTable, w: World, k: Key, owner: Key) returns (ws: seq<World>, ss: seq<Step>)
    requires Inv(fold, w) && OwnerFor(fold, w.objs, k, owner) && k !in w.busy
    ensures IsPath(fold, ws, ss) && ws[0] == w && ws[|ss|] == w.(objs := w.objs - {k})
    ensures |ss| > 0 && ss[0] == RequestDelete(k)
    ensures forall i :: 0 <= i < |ss| ==> Touched(ss[i]) == k && (IsWrite(ss[i]) ==> k == owner)
  {
    var w1 := Next(fold, w, RequestDelete(k));
    if w.objs[k].finalizer {
      StepKeepsInv(fold, w, RequestDelete(k));
      SameClaimsSameOwner(fold, w.objs, w1.objs, owner);
      var vs, ts := DeletedLeaves(fold, w1, k, owner);
      ws, ss := [w] + vs, [RequestDelete(k)] + ts;
      StepBefore(fold, w, RequestDelete(k), vs, ts);
    } else {
      ws, ss := [w, w1], [RequestDelete(k)];
      assert RunStep(fold, ws, ss, 0);
    }
  }

  // ----------------------------------------------------------------- handover

  /** The live claims queued before k's on the same guest. */
  ghost function Queue(fold: FoldTable, objs: map<Key, Obj>, k: Key): set<Key>
    requires k in objs
  {
    set j | j in objs && objs[k].claim.SameGuest(fold, objs[j].claim) && objs[j].claim.Before(objs[k].claim)
  }

  lemma OwnerIffFirstInQueue(fold: FoldTable, objs: map<Key, Obj>, k: Key)
    requires k in objs
    ensures Owns(fold, objs, k) <==> |Queue(fold, objs, k)| == 0
  {
    if |Queue(fold, objs, k)| == 0 {
      forall j | j in objs && objs[k].claim.SameGuest(fold, objs[j].claim)
        ensures !objs[j].claim.Before(objs[k].claim)
      {
        assert j !in Queue(fold, objs, k);
      }
    } else {
      var j :| j in Queue(fold, objs, k);
    }
  }

  /** The step puts a claim before k's that was not queued there. */
  ghost predicate CutsIn(fold: FoldTable, w: World, s: Step, k: Key)
    requires k in w.objs
  {
    match s
    case Create(o) => w.objs[k].claim.SameGuest(fold, o.claim) && o.claim.Before(w.objs[k].claim)
    case Edit(j, c) =>
      j !in Queue(fold, w.objs, k) && w.objs[k].claim.SameGuest(fold, c) && c.Before(w.objs[k].claim)
    case _ => false
  }

  ghost function Touched(s: Step): Key {
    match s
    case Create(o) => KeyOf(o.claim)
    case _ => s.k
  }

  lemma OnlyTouchedChanges(fold: FoldTable, w: World, s: Step, j: Key)
    requires Enabled(fold, w, s) && j != Touched(s)
    ensures j in w.objs <==> j in Next(fold, w, s).objs
    ensures j in w.objs ==> w.objs[j].claim == Next(fold, w, s).objs[j].claim
  {
  }

  /** One step of waiting: unless somebody cuts in, k's queue loses at most the
      one object the step touches, and gains nobody. */
  lemma QueueStep(fold: FoldTable, w: World, s: Step, k: Key)
    requires Enabled(fold, w, s) && k in w.objs && k in Next(fold, w, s).objs
    requires (s.Edit? ==> s.k != k) && !CutsIn(fold, w, s, k)
    ensures var q, q' := Queue(fold, w.objs, k), Queue(fold, Next(fold, w, s).objs, k);
      && (q' == q || q' == q - {Touched(s)})
      && (Touched(s) in q && Touched(s) !in Next(fold, w, s).objs ==> |q'| == |q| - 1)
  {
    var w', t := Next(fold, w, s), Touched(s);
    var q, q' := Queue(fold, w.objs, k), Queue(fold, w'.objs, k);
    forall j | j != t ensures j in q <==> j in q' {
      OnlyTouchedChanges(fold, w, s, j);
      ClaimOfKept(fold, w, s, k);
    }
    if t in q' && t !in q {
      ClaimOfKept(fold, w, s, k);
      if !s.Create? && !s.Edit? { NextShrinks(fold, w, s); }
    }
  }

  lemma ClaimOfKept(fold: FoldTable, w: World, s: Step, k: Key)
    requires Enabled(fold, w, s) && k in w.objs && k in Next(fold, w, s).objs && (s.Edit? ==> s.k != k)
    ensures w.objs[k].claim == Next(fold, w, s).objs[k].claim
  {
  }

  /** Step i leaves k itself alone and nobody cuts in before k. */
  ghost predicate QuietAt(fold: FoldTable, ws: seq<World>, ss: seq<Step>, k: Key, i: nat)
    requires |ws| == |ss| + 1 && i < |ss|
  {
    && k in ws[i].objs && k in ws[i + 1].objs
    && RunStep(fold, ws, ss, i) && (ss[i].Edit? ==> ss[i].k != k) && !CutsIn(fold, ws[i], ss[i], k)
  }

  ghost predicate Undisturbed(fold: FoldTable, ws: seq<World>, ss: seq<Step>, k: Key) {
    |ws| == |ss| + 1 && k in ws[0].objs && forall i :: 0 <= i < |ss| ==> QuietAt(fold, ws, ss, k, i)
  }

  lemma UndisturbedStep(fold: FoldTable, ws: seq<World>, ss: seq<Step>, k: Key, i: nat)
    requires |ws| == |ss| + 1 && i < |ss| && QuietAt(fold, ws, ss, k, i)
    ensures k in ws[i].objs && k in ws[i + 1].objs
    ensures Queue(fold, ws[i + 1].objs, k) <= Queue(fold, ws[i].objs, k)
  {
    QueueStep(fold, ws[i], ss[i], k);
  }

  lemma {:induction false} QueueOnlyShrinks(fold: FoldTable, ws: seq<World>, ss: seq<Step>, k: Key, m: nat, n: nat)
    requires Undisturbed(fold, ws, ss, k) && m <= n <= |ss|
    ensures k in ws[m].objs && k in ws[n].objs
    ensures Queue(fold, ws[n].objs, k) <= Queue(fold, ws[m].objs, k)
  {
    if m < n {
      QueueOnlyShrinks(fold, ws, ss, k, m, n - 1);
      UndisturbedStep(fold, ws, ss, k, n - 1);
    } else if n > 0 {
      assert QuietAt(fold, ws, ss, k, n - 1);
    }
  }

  /** Handover over a whole run: k becomes owner exactly when everybody queued
      before it at the start has left, and once it is owner it stays owner. */
  lemma Handover(fold: FoldTable, ws: seq<World>, ss: seq<Step>, k: Key, m: nat, n: nat)
    requires Undisturbed(fold, ws, ss, k) && m <= n <= |ss|
    ensures k in ws[m].objs && k in ws[n].objs
    ensures Owns(fold, ws[n].objs, k) <==>
      forall j :: j in Queue(fold, ws[m].objs, k) ==> j !in Queue(fold, ws[n].objs, k)
    ensures Owns(fold, ws[m].objs, k) ==> Owns(fold, ws[n].objs, k)
  {
    QueueOnlyShrinks(fold, ws, ss, k, m, n);
    var before, after := ws[m].objs, ws[n].objs;
    OwnerIffFirstInQueue(fold, before, k);
    OwnerIffFirstInQueue(fold, after, k);
    if !Owns(fold, after, k) {
      var j :| j in Queue(fold, after, k);
    }
  }

  // ---------------------------------------------------------- a harmful step

  /** A run in which two workers come to be armed for one guest: b's reconcile is in
      flight when the older a is renamed onto b's guest. */
  lemma RenameOntoBusyGuest(fold: FoldTable) returns (ws: seq<World>, ss: seq<Step>)
    ensures IsPath(fold, ws, ss) && Init(ws[0])
    ensures exists j, k :: TwoWriters(fold, ws[|ss|], j, k)
  {
    var a, b := Obj(0, 1, Ct("a", 0, "x"), true, false, None), Obj(1, 1, Ct("b", 1, "y"), true, false, None);
    var ka, kb := KeyOf(a.claim), KeyOf(b.claim);
    assert "a"[0] != "b"[0] && "x"[0] != "y"[0];
    var a' := a.(claim := Ct("a", 0, "y"), generation := 2);
    var start, renamed := map[ka := a, kb := b], map[ka := a', kb := b];
    assert OwnerFor(fold, start, kb, kb) && OwnerFor(fold, renamed, ka, ka);
    ws := [World(2, start, map[]),
           World(2, start, map[kb := Gated(b)]),
           World(2, start, map[kb := Armed(b)]),
           World(2, renamed, map[kb := Armed(b)]),
           World(2, renamed, map[kb := Armed(b), ka := Gated(a')]),
           World(2, renamed, map[kb := Armed(b), ka := Armed(a')])];
    ss := [EnterGate(kb, kb, NoFault), Arm(kb), Edit(ka, a'.claim), EnterGate(ka, ka, NoFault), Arm(ka)];
    forall i | 0 <= i < |ss| ensures RunStep(fold, ws, ss, i) {
      if i == 2 {
        assert start[ka := a'] == renamed;
      }
    }
    assert TwoWriters(fold, ws[|ss|], ka, kb);
  }

  ghost predicate TwoWriters(fold: FoldTable, w: World, j: Key, k: Key) {
    && j in w.busy && k in w.busy && j != k && w.busy[j].Armed? && w.busy[k].Armed?
    && w.busy[j].snap.claim.SameGuest(fold, w.busy[k].snap.claim)
  }
}
