/** The life of one Container object and its guest: the finalizer, the deletion, and
    the replacement of the guest when its OCI image changes
    (internal/controller/proxmox/container_controller.go), with a crash possible after
    every single effect. */
module Lifecycle {
  import opened Wrappers
  import opened Text
  import opened OciNaming
  import opened ContainerHost
  import opened Containers
  import opened Coherence

  /** How references become tags, as far as replacement depends on it. */
  datatype Naming = Naming(tag: string -> string, hasTag: (string, string) -> bool, blank: string -> bool)

  ghost predicate TagLaws(n: Naming) {
    && n.blank("")
    && forall made, wanted :: !n.blank(made) && !n.blank(wanted) ==>
         (n.hasTag(n.tag(made), wanted) <==> n.tag(made) == n.tag(wanted)) && !n.blank(n.tag(made))
  }

  /** The naming of OciNaming. */
  function OciNames(id: Digest): Naming {
    Naming((ref: string) => OCIImageProxmoxTag(id, ref),
           (tags: string, ref: string) => LXCHasOCIImageTag(id, tags, ref),
           Blank)
  }

  lemma OciNamesKeepTagLaws(id: Digest)
    ensures TagLaws(OciNames(id))
  {
    forall made, wanted | !Blank(made) && !Blank(wanted)
      ensures (LXCHasOCIImageTag(id, OCIImageProxmoxTag(id, made), wanted) <==>
               OCIImageProxmoxTag(id, made) == OCIImageProxmoxTag(id, wanted))
              && !Blank(OCIImageProxmoxTag(id, made))
    {
      TagOfAnother(id, made, wanted);
    }
  }

  /** The guest's name and node, and whether it is cloned from a template or created
      from an image. These stay fixed. */
  datatype Site = Site(naming: Naming, cloned: bool, node: string, name: string)

  datatype Image = Image(ref: string, storage: string)

  const NO_IMAGE: Image := Image("", "")

  /** The stored Container object. Every write to it takes a new version. */
  datatype Obj = Obj(
    version: nat, image: Image, applied: Image,
    finalizer: bool, deleting: bool, marked: bool, isProtected: bool)

  /** How far the running reconcile has come; `snap` is the object as it holds it. */
  datatype Pass =
    | Idle
    | Started(snap: Obj)
    | Ensured(snap: Obj)
    | Checked(snap: Obj, found: bool)
    | Bootstrapping(snap: Obj)
    | Replacing(snap: Obj)
    | Cleared(snap: Obj)
    | MustCreate(snap: Obj)
    | Created(snap: Obj)
    | Settled(snap: Obj)
    | Removing(snap: Obj)
    | GuestGone(snap: Obj)

  /** `madeFor`: the VMIDs under which the controller created a guest for the object
      and that nobody was given since, with the reference each was made from.
      `leftProtected`: the object left with deletion protection on. */
  datatype State = State(
    base: World, obj: Option<Obj>, madeFor: map<int, string>, leftProtected: bool, pass: Pass)

  datatype Label =
    // the world
    | Outside(op: Op)
    | EditImage(image: Image)
    | SetProtection(on: bool)
    | RequestDelete
    // the reconcile
    | Begin
    | Ensure
    | MarkDeleting
    | CheckExists(found: Result<int, ClientError>)
    | Decide
    | ReadTags(id: int, read: Result<CtObj, ClientError>)
    | Bootstrap
    | DeleteForReplace(id: int, done: Result<(), ClientError>, calls: seq<Call>)
    | ClearApplied
    | CreateGuest(id: int, ct: CT, cached: bool)
    | RecordApplied
    | RemoveGuest(id: int, done: Result<(), ClientError>, calls: seq<Call>)
    | SkipProtected
    | DropFinalizer
    | Finish
    | Crash

  function Tag(site: Site, ref: string): string {
    site.naming.tag(ref)
  }

  /** The tags name the image, or there are none and the spec is trusted. */
  predicate MatchesTags(site: Site, tags: string, ref: string) {
    site.naming.hasTag(tags, ref) || site.naming.blank(tags)
  }

  /** A VMID given to somebody else's container is no longer the controller's. */
  function Forget(site: Site, madeFor: map<int, string>, op: Op): map<int, string> {
    match op
    case Clone(n, id, _) => if n == site.node then madeFor - {id} else madeFor
    case OutsideCreate(n, id, _) => if n == site.node then madeFor - {id} else madeFor
    case _ => madeFor
  }

  /** A status patch leaves the rest of the stored object alone and hands the
      reconcile the object as it then is. One that changes nothing makes no version. */
  function Patched(o: Obj, applied: Image): Obj {
    if o.applied == applied then o else o.(applied := applied, version := o.version + 1)
  }

  /** Somebody else's write to the stored object. */
  function Edited(o: Obj): Obj {
    o.(version := o.version + 1)
  }

  /** The guest gets any VMID that is free. */
  function Creation(site: Site, l: Label): Op
    requires l.CreateGuest?
  {
    if l.cached then Op.Clone(site.node, l.id, l.ct) else OutsideCreate(site.node, l.id, l.ct)
  }

  /** What others do: to the object and to the host. */
  ghost predicate OthersNext(site: Site, s: State, l: Label, s': State) {
    match l
    case Outside(op) =>
      && !op.Restart? && Took(s.base, op, s'.base)
      && s' == s.(base := s'.base, madeFor := Forget(site, s.madeFor, op))
    case EditImage(image) => s.obj.Some? && s' == s.(obj := Some(Edited(s.obj.value).(image := image)))
    case SetProtection(on) => s.obj.Some? && s' == s.(obj := Some(Edited(s.obj.value).(isProtected := on)))
    case RequestDelete =>
      && s.obj.Some?
      && s' == if s.obj.value.finalizer then s.(obj := Some(Edited(s.obj.value).(deleting := true)))
               else s.(obj := None, leftProtected := s.obj.value.isProtected)
    case Crash => s' == s.(base := s.base.(nodes := map[]), pass := Idle)
    case _ => false
  }

  /** The way to a guest that is wanted. */
  ghost predicate KeepNext(site: Site, s: State, l: Label, s': State) {
    match l
    case Begin => s.pass.Idle? && s.obj.Some? && s' == s.(pass := Started(s.obj.value))
    case Ensure =>
      && s.pass.Started? && !s.pass.snap.deleting
      && var snap := s.pass.snap;
         if snap.finalizer then s' == s.(pass := Ensured(snap))
         else if s.obj.None? || s.obj.value.version != snap.version then s' == s.(pass := Idle)
         else
           var o := Edited(snap).(finalizer := true);
           s' == s.(obj := Some(o), pass := Ensured(o))
    case CheckExists(found) =>
      && s.pass.Ensured? && IdPost(s.base.nodes, s.base.cts, site.node, site.name, found, s'.base.nodes)
      && s' == s.(base := s.base.(nodes := s'.base.nodes),
                  pass := if found.Err? then Idle else Checked(s.pass.snap, found.value != 0))
    case Decide =>
      && s.pass.Checked?
      && var snap := s.pass.snap;
         if site.cloned || snap.applied == snap.image then
           s' == s.(pass := if s.pass.found then Settled(snap) else MustCreate(snap))
         else if snap.applied != NO_IMAGE then s' == s.(pass := Replacing(snap))
         else !s.pass.found && s' == s.(pass := MustCreate(snap))
    case ReadTags(id, read) =>
      && !site.cloned && s.pass.Checked? && s.pass.found
      && s.pass.snap.applied == NO_IMAGE && s.pass.snap.image != NO_IMAGE
      && GetPost(s.base.nodes, s.base.cts, site.node, site.name, id, read, s'.base.nodes)
      && s' == s.(base := s.base.(nodes := s'.base.nodes),
                  pass := if read.Err? then Idle
                          else if MatchesTags(site, read.value.info.tags, s.pass.snap.image.ref) then
                            Bootstrapping(s.pass.snap)
                          else Replacing(s.pass.snap))
    case Bootstrap =>
      && s.pass.Bootstrapping?
      && if s.obj.None? then s' == s.(pass := Idle)
         else
           var o := Patched(s.obj.value, s.pass.snap.image);
           s' == s.(obj := Some(o), pass := Settled(o))
    case CreateGuest(id, ct, _) =>
      && s.pass.MustCreate? && ct.name == site.name && (!site.cloned ==> ct.tags == Tag(site, s.pass.snap.image.ref))
      && Took(s.base, Creation(site, l), s'.base)
      && s' == s.(base := s'.base, madeFor := s.madeFor[id := s.pass.snap.image.ref], pass := Created(s.pass.snap))
    case RecordApplied =>
      && s.pass.Created?
      && if s.obj.None? then s' == s.(pass := Idle)
         else if site.cloned then s' == s.(pass := Settled(s.pass.snap))
         else
           var o := Patched(s.obj.value, s.pass.snap.image);
           s' == s.(obj := Some(o), pass := Settled(o))
    case Finish => s' == s.(pass := Idle)
    case _ => false
  }

  ghost predicate DeleteNext(site: Site, s: State, l: Label, s': State) {
    match l
    case DeleteForReplace(id, done, calls) =>
      && s.pass.Replacing? && Took(s.base, Op.Delete(site.node, site.name, id, done, calls), s'.base)
      && s' == s.(base := s'.base,
                  pass := if done.Ok? || done == Err(NotFound) then Cleared(s.pass.snap) else Idle)
    case ClearApplied =>
      && s.pass.Cleared?
      && if s.obj.None? then s' == s.(pass := Idle)
         else
           var o := Patched(s.obj.value, NO_IMAGE);
           s' == s.(obj := Some(o), pass := MustCreate(o))
    case MarkDeleting =>
      && s.pass.Started? && s.pass.snap.deleting
      && var snap := s.pass.snap;
         if !snap.finalizer || s.obj.None? then s' == s.(pass := Idle)
         else if !snap.marked then s' == s.(obj := Some(Edited(s.obj.value).(marked := true)), pass := Idle)
         else s' == s.(pass := Removing(snap))
    case RemoveGuest(id, done, calls) =>
      && s.pass.Removing? && !s.pass.snap.isProtected
      && Took(s.base, Op.Delete(site.node, site.name, id, done, calls), s'.base)
      && s' == s.(base := s'.base,
                  pass := if done.Ok? || done == Err(NotFound) then GuestGone(s.pass.snap) else Idle)
    case SkipProtected => s.pass.Removing? && s.pass.snap.isProtected && s' == s.(pass := GuestGone(s.pass.snap))
    case DropFinalizer =>
      && s.pass.GuestGone?
      && s' == if s.obj.Some? && s.obj.value.version == s.pass.snap.version
               then s.(obj := None, leftProtected := s.pass.snap.isProtected, pass := Idle)
               else s.(pass := Idle)
    case _ => false
  }

  ghost predicate Next(site: Site, s: State, l: Label, s': State) {
    OthersNext(site, s, l, s') || KeepNext(site, s, l, s') || DeleteNext(site, s, l, s')
  }

  // --------------------------------------------------------------------- runs

  ghost predicate NextAt(site: Site, ss: seq<State>, ls: seq<Label>, i: nat)
    requires |ss| == |ls| + 1 && i < |ls|
  {
    Next(site, ss[i], ls[i], ss[i + 1])
  }

  ghost predicate IsPath(site: Site, ss: seq<State>, ls: seq<Label>) {
    |ss| == |ls| + 1 && forall i :: 0 <= i < |ls| ==> NextAt(site, ss, ls, i)
  }

  /** A new object, nothing made for it; the host may already have one guest of the name. */
  ghost predicate Init(site: Site, s: State) {
    && s.base.nodes == map[] && ValidCts(s.base.cts) && UniqueName(s.base.cts, site.node, site.name)
    && s.obj.Some? && s.obj.value.applied == NO_IMAGE && !s.obj.value.finalizer && !s.obj.value.deleting
    && s.madeFor == map[] && s.pass.Idle?
  }

  /** A guest the controller made for the object and that still exists. */
  ghost predicate Made(site: Site, s: State, id: int) {
    id in s.madeFor && (site.node, id) in s.base.cts
  }

  ghost predicate NoneMade(site: Site, s: State) {
    forall id :: !Made(site, s, id)
  }

  // ============================================================ no orphan guest

  /** When the guest is created its name is not cached under another VMID, unless the
      creation itself caches the right one. */
  ghost predicate Fits(site: Site, s: State, l: Label) {
    l.CreateGuest? && !l.cached && CachedId(s.base.nodes, site.node, site.name).Some? ==>
      CachedId(s.base.nodes, site.node, site.name).value == l.id
  }

  /** Host names are unique, also after the step, and a creation fits the cache. */
  ghost predicate Orderly(site: Site, s: State, l: Label, s': State) {
    UniqueName(s'.base.cts, site.node, site.name) && Fits(site, s, l)
  }

  ghost predicate OrderlyAt(site: Site, ss: seq<State>, ls: seq<Label>, i: nat)
    requires |ss| == |ls| + 1 && i < |ls|
  {
    Orderly(site, ss[i], ls[i], ss[i + 1])
  }

  ghost predicate IsOrderly(site: Site, ss: seq<State>, ls: seq<Label>) {
    |ss| == |ls| + 1 && forall i :: 0 <= i < |ls| ==> OrderlyAt(site, ss, ls, i)
  }

  /** The object is gone without deletion protection, and a guest made for it is not. */
  ghost predicate Orphaned(site: Site, s: State) {
    s.obj.None? && !s.leftProtected && !NoneMade(site, s)
  }

  // ---------------------------------------------------------------- invariant

  /** A made guest has the name, and the name is not cached under another VMID. */
  ghost predicate MadeOk(site: Site, s: State, id: int) {
    Made(site, s, id) ==>
      && s.base.cts[(site.node, id)].name == site.name
      && (CachedId(s.base.nodes, site.node, site.name).Some? ==>
            CachedId(s.base.nodes, site.node, site.name).value == id)
  }

  /** No guest without an object that holds the finalizer, unless it was left behind
      on purpose. */
  ghost predicate Held(site: Site, s: State) {
    NoneMade(site, s) || if s.obj.Some? then s.obj.value.finalizer else s.leftProtected
  }

  ghost predicate Current(s: State, snap: Obj) {
    && (snap.finalizer ==> s.obj.Some? && s.obj.value.finalizer)
    && (s.obj.Some? ==>
          snap.version <= s.obj.value.version && (snap.version == s.obj.value.version ==> snap == s.obj.value))
  }

  /** The pass has found or made sure that no guest made for the object exists. */
  predicate SaysGone(p: Pass) {
    match p
    case Checked(_, found) => !found
    case Cleared(_) => true
    case MustCreate(_) => true
    case GuestGone(snap) => !snap.isProtected
    case _ => false
  }

  ghost predicate PassSafe(site: Site, s: State) {
    if s.pass.Idle? then true
    else
      && Current(s, s.pass.snap)
      && (!s.pass.Started? ==> s.pass.snap.finalizer)
      && (s.pass.Ensured? || s.pass.Checked? ==> !s.pass.snap.deleting)
      && (SaysGone(s.pass) ==> NoneMade(site, s))
  }

  ghost predicate BaseOk(site: Site, w: World) {
    ValidCts(w.cts) && ValidNodes(w.nodes) && UniqueName(w.cts, site.node, site.name)
  }

  ghost predicate Safe(site: Site, s: State) {
    && BaseOk(site, s.base)
    && (forall id :: MadeOk(site, s, id))
    && (s.obj.Some? && s.obj.value.deleting ==> s.obj.value.finalizer)
    && Held(site, s) && PassSafe(site, s)
  }

  // ------------------------------------------------------------ steps on the host

  /** What an operation does to one container: it stays, perhaps with other tags if
      somebody changes it, or it goes; or it is a new one. */
  lemma PlaceEffect(w: World, op: Op, w': World, n: string, id: int)
    requires Took(w, op, w') && (n, id) in w'.cts
    ensures
      || ((op.Clone? || op.OutsideCreate?) && (op.node, op.id) == (n, id) && (n, id) !in w.cts)
      || ((n, id) in w.cts && w'.cts[(n, id)].name == w.cts[(n, id)].name &&
          (w'.cts[(n, id)].tags == w.cts[(n, id)].tags ||
           (op.Change? && (op.node, op.id) == (n, id) && w'.cts[(n, id)] == op.ct)))
  {
  }

  /** Any operation of others, or an own one that creates nothing: of the made guests
      some may go, and the name is cached under no wrong VMID. */
  lemma BaseStep(site: Site, s: State, op: Op, s': State)
    requires Safe(site, s) && Took(s.base, op, s'.base) && UniqueName(s'.base.cts, site.node, site.name)
    requires s'.obj == s.obj && s'.leftProtected == s.leftProtected && s'.madeFor == Forget(site, s.madeFor, op)
    ensures BaseOk(site, s'.base) && Held(site, s')
    ensures forall id :: MadeOk(site, s', id) && (Made(site, s', id) ==> Made(site, s, id))
  {
    StepKeepsValid(s.base, op, s'.base);
    NameEffect(s.base, op, s'.base, site.node, site.name);
    forall id ensures MadeOk(site, s', id) && (Made(site, s', id) ==> Made(site, s, id)) {
      assert MadeOk(site, s, id);
      if Made(site, s', id) {
        PlaceEffect(s.base, op, s'.base, site.node, id);
        assert HasName(s.base.cts, site.node, id, site.name) && HasName(s'.base.cts, site.node, id, site.name);
      }
    }
  }

  // ----------------------------------------------------------- steps of the state

  lemma OutsideKeepsSafe(site: Site, s: State, l: Label, s': State)
    requires Safe(site, s) && l.Outside? && Next(site, s, l, s') && Orderly(site, s, l, s')
    ensures Safe(site, s')
  {
    BaseStep(site, s, l.op, s');
  }

  /** A step that leaves the host alone, keeps the object's finalizer and lets the
      object go only protected or without guest. */
  lemma ObjectStep(site: Site, s: State, s': State)
    requires Safe(site, s) && s'.base == s.base && s'.madeFor == s.madeFor
    requires s'.obj.Some? ==>
      && s.obj.Some? && (s.obj.value.finalizer ==> s'.obj.value.finalizer)
      && (s'.obj.value.deleting ==> s'.obj.value.finalizer)
    requires s'.obj.None? ==>
      (s.obj.None? && s'.leftProtected == s.leftProtected) || s'.leftProtected || NoneMade(site, s)
    requires PassSafe(site, s')
    ensures Safe(site, s')
  {
    forall id ensures (Made(site, s', id) <==> Made(site, s, id)) && MadeOk(site, s', id) {
      assert MadeOk(site, s, id);
    }
  }

  lemma SameMade(site: Site, s: State, s': State)
    requires s'.base.cts == s.base.cts && s'.madeFor == s.madeFor
    ensures NoneMade(site, s) <==> NoneMade(site, s')
  {
    assert forall id :: Made(site, s, id) <==> Made(site, s', id);
  }

  lemma EditKeepsSafe(site: Site, s: State, l: Label, s': State)
    requires Safe(site, s) && OthersNext(site, s, l, s') && (l.EditImage? || l.SetProtection? || l.RequestDelete?)
    ensures Safe(site, s')
  {
    SameMade(site, s, s');
    ObjectStep(site, s, s');
  }

  lemma CrashKeepsSafe(site: Site, s: State, l: Label, s': State)
    requires Safe(site, s) && OthersNext(site, s, l, s') && l.Crash?
    ensures Safe(site, s')
  {
    forall id ensures (Made(site, s', id) <==> Made(site, s, id)) && MadeOk(site, s', id) {
      assert MadeOk(site, s, id);
    }
  }

  lemma OthersKeepSafe(site: Site, s: State, l: Label, s': State)
    requires Safe(site, s) && OthersNext(site, s, l, s') && Orderly(site, s, l, s')
    ensures Safe(site, s')
  {
    if l.Outside? {
      OutsideKeepsSafe(site, s, l, s');
    } else if l.Crash? {
      CrashKeepsSafe(site, s, l, s');
    } else {
      EditKeepsSafe(site, s, l, s');
    }
  }

  /** A look-up that finds no container of the name has seen that none is made. */
  lemma NotFoundMeansNoneMade(site: Site, s: State, found: Result<int, ClientError>, nodes: Nodes)
    requires Safe(site, s) && IdPost(s.base.nodes, s.base.cts, site.node, site.name, found, nodes) && found == Ok(0)
    ensures NoneMade(site, s)
  {
    forall id ensures !Made(site, s, id) { assert MadeOk(site, s, id); }
  }

  lemma ReadKeepsSafe(site: Site, s: State, l: Label, s': State)
    requires Safe(site, s) && KeepNext(site, s, l, s') && (l.CheckExists? || l.ReadTags?)
    ensures Safe(site, s')
  {
    var op := if l.CheckExists? then Lookup(site.node, site.name, l.found) else Get(site.node, site.name, l.id, l.read);
    BaseStep(site, s, op, s');
    if l.CheckExists? && l.found == Ok(0) {
      NotFoundMeansNoneMade(site, s, l.found, s'.base.nodes);
    }
    SameMade(site, s, s');
  }

  lemma CreateKeepsSafe(site: Site, s: State, l: Label, s': State)
    requires Safe(site, s) && KeepNext(site, s, l, s') && l.CreateGuest? && Orderly(site, s, l, s')
    ensures Safe(site, s') && forall id :: Made(site, s', id) <==> id == l.id
  {
    StepKeepsValid(s.base, Creation(site, l), s'.base);
    forall id ensures (Made(site, s', id) <==> id == l.id) && MadeOk(site, s', id) {
      assert !Made(site, s, id);
    }
  }

  lemma KeepKeepsSafe(site: Site, s: State, l: Label, s': State)
    requires Safe(site, s) && KeepNext(site, s, l, s') && Orderly(site, s, l, s')
    ensures Safe(site, s')
  {
    if l.CheckExists? || l.ReadTags? {
      ReadKeepsSafe(site, s, l, s');
    } else if l.CreateGuest? {
      CreateKeepsSafe(site, s, l, s');
    } else {
      SameMade(site, s, s');
      ObjectStep(site, s, s');
    }
  }

  ghost predicate OwnDelete(site: Site, op: Op) {
    op.Delete? && op.node == site.node && op.name == site.name
  }

  /** After the guest was deleted, or found not to be there, none is made. */
  lemma DeletedMeansNoneMade(site: Site, s: State, op: Op, s': State)
    requires Safe(site, s) && OwnDelete(site, op) && Took(s.base, op, s'.base) && s'.madeFor == s.madeFor
    requires op.done.Ok? || op.done == Err(NotFound)
    ensures NoneMade(site, s')
  {
    var gone := op.id;
    forall id ensures !Made(site, s', id) {
      assert MadeOk(site, s, id);
      assert Made(site, s', id) ==> Made(site, s, id) && HasName(s.base.cts, site.node, id, site.name);
      assert Made(site, s, id) ==> id == gone;
    }
  }

  lemma OwnDeleteKeepsSafe(site: Site, s: State, l: Label, s': State)
    requires Safe(site, s) && DeleteNext(site, s, l, s') && (l.DeleteForReplace? || l.RemoveGuest?)
    requires UniqueName(s'.base.cts, site.node, site.name)
    ensures Safe(site, s')
  {
    var op := Op.Delete(site.node, site.name, l.id, l.done, l.calls);
    BaseStep(site, s, op, s');
    if l.done.Ok? || l.done == Err(NotFound) {
      DeletedMeansNoneMade(site, s, op, s');
    }
  }

  lemma DeleteKeepsSafe(site: Site, s: State, l: Label, s': State)
    requires Safe(site, s) && DeleteNext(site, s, l, s') && Orderly(site, s, l, s')
    ensures Safe(site, s')
  {
    if l.DeleteForReplace? || l.RemoveGuest? {
      OwnDeleteKeepsSafe(site, s, l, s');
    } else {
      SameMade(site, s, s');
      ObjectStep(site, s, s');
    }
  }

  lemma StepKeepsSafe(site: Site, s: State, l: Label, s': State)
    requires Safe(site, s) && Next(site, s, l, s') && Orderly(site, s, l, s')
    ensures Safe(site, s')
  {
    if OthersNext(site, s, l, s') {
      OthersKeepSafe(site, s, l, s');
    } else if KeepNext(site, s, l, s') {
      KeepKeepsSafe(site, s, l, s');
    } else {
      DeleteKeepsSafe(site, s, l, s');
    }
  }

  lemma {:induction false} PathKeepsSafe(site: Site, ss: seq<State>, ls: seq<Label>, n: nat)
    requires IsPath(site, ss, ls) && Safe(site, ss[0]) && IsOrderly(site, ss, ls) && n <= |ls|
    ensures Safe(site, ss[n])
  {
    if n > 0 {
      PathKeepsSafe(site, ss, ls, n - 1);
      assert NextAt(site, ss, ls, n - 1) && OrderlyAt(site, ss, ls, n - 1);
      StepKeepsSafe(site, ss[n - 1], ls[n - 1], ss[n]);
    }
  }

  /** Any write of the object counts its version up. */
  ghost predicate Versioned(s: State, s': State) {
    s'.obj.Some? ==>
      && s.obj.Some? && s.obj.value.version <= s'.obj.value.version
      && (s.obj.value.version == s'.obj.value.version <==> s.obj == s'.obj)
  }

  lemma OthersVersioned(site: Site, s: State, l: Label, s': State)
    requires OthersNext(site, s, l, s')
    ensures Versioned(s, s')
  {
  }

  lemma KeepVersioned(site: Site, s: State, l: Label, s': State)
    requires KeepNext(site, s, l, s')
    ensures Versioned(s, s')
  {
  }

  lemma DeleteVersioned(site: Site, s: State, l: Label, s': State)
    requires DeleteNext(site, s, l, s')
    ensures Versioned(s, s')
  {
  }

  lemma StepVersioned(site: Site, s: State, l: Label, s': State)
    requires Next(site, s, l, s')
    ensures Versioned(s, s')
  {
    if OthersNext(site, s, l, s') {
      OthersVersioned(site, s, l, s');
    } else if KeepNext(site, s, l, s') {
      KeepVersioned(site, s, l, s');
    } else {
      DeleteVersioned(site, s, l, s');
    }
  }

  /** The version tells whether the object was written to, by anybody, in any run: this
      is what every conflict check relies on. */
  lemma {:induction false} VersionTells(site: Site, ss: seq<State>, ls: seq<Label>, i: nat, j: nat)
    requires IsPath(site, ss, ls) && i <= j <= |ls| && ss[j].obj.Some?
    ensures ss[i].obj.Some? && ss[i].obj.value.version <= ss[j].obj.value.version
    ensures ss[i].obj.value.version == ss[j].obj.value.version <==> ss[i].obj == ss[j].obj
  {
    if i < j {
      assert NextAt(site, ss, ls, j - 1);
      StepVersioned(site, ss[j - 1], ls[j - 1], ss[j]);
      VersionTells(site, ss, ls, i, j - 1);
    }
  }

  predicate RemovesDeleted(p: Pass) {
    p.Removing? || p.GuestGone? ==> p.snap.deleting
  }

  lemma StepRemovesDeleted(site: Site, s: State, l: Label, s': State)
    requires Next(site, s, l, s') && RemovesDeleted(s.pass)
    ensures RemovesDeleted(s'.pass)
  {
    if OthersNext(site, s, l, s') {
      assert s'.pass == s.pass || s'.pass.Idle?;
    } else if KeepNext(site, s, l, s') {
      assert !s'.pass.Removing? && !s'.pass.GuestGone?;
    }
  }

  lemma {:induction false} OnlyDeletedRemoved(site: Site, ss: seq<State>, ls: seq<Label>, n: nat)
    requires IsPath(site, ss, ls) && Init(site, ss[0]) && n <= |ls|
    ensures RemovesDeleted(ss[n].pass)
  {
    if n > 0 {
      OnlyDeletedRemoved(site, ss, ls, n - 1);
      assert NextAt(site, ss, ls, n - 1);
      StepRemovesDeleted(site, ss[n - 1], ls[n - 1], ss[n]);
    }
  }

  lemma LeaveStep(site: Site, s: State, l: Label, s': State)
    requires Next(site, s, l, s') && PassSafe(site, s) && RemovesDeleted(s.pass) && s.obj.Some? && s'.obj.None?
    ensures s'.leftProtected == s.obj.value.isProtected
    ensures
      || (l.RequestDelete? && !s.obj.value.finalizer)
      || (l.DropFinalizer? && s.obj.value.deleting && s.pass == GuestGone(s.obj.value))
  {
    if OthersNext(site, s, l, s') {
      assert l.RequestDelete?;
    } else {
      assert !KeepNext(site, s, l, s');
      assert l.DropFinalizer?;
    }
  }

  /** The object leaves only when it is deleted, at once if nothing holds it, else after a
      pass that removed its guest and found it as it had read it. What counts then is
      whether it is protected as it is stored. */
  lemma LeavesWhenDeleted(site: Site, ss: seq<State>, ls: seq<Label>, i: nat)
    requires IsPath(site, ss, ls) && Init(site, ss[0]) && IsOrderly(site, ss, ls) && i < |ls|
    requires ss[i].obj.Some? && ss[i + 1].obj.None?
    ensures ss[i + 1].leftProtected == ss[i].obj.value.isProtected
    ensures
      || (ls[i].RequestDelete? && !ss[i].obj.value.finalizer)
      || (ls[i].DropFinalizer? && ss[i].obj.value.deleting && ss[i].pass == GuestGone(ss[i].obj.value))
  {
    PathKeepsSafe(site, ss, ls, i);
    OnlyDeletedRemoved(site, ss, ls, i);
    assert NextAt(site, ss, ls, i);
    LeaveStep(site, ss[i], ls[i], ss[i + 1]);
  }

  /** No orphan: in every orderly run, whatever VMIDs are given out and reused, with
      crashes anywhere, for cloned guests and for images, with any tags: once the
      object is gone without deletion protection, no guest made for it exists. */
  lemma NoOrphan(site: Site, ss: seq<State>, ls: seq<Label>, n: nat, id: int)
    requires IsPath(site, ss, ls) && Init(site, ss[0]) && IsOrderly(site, ss, ls) && n <= |ls|
    requires ss[n].obj.None? && !ss[n].leftProtected && id in ss[n].madeFor
    ensures (site.node, id) !in ss[n].base.cts
  {
    PathKeepsSafe(site, ss, ls, n);
    assert Made(site, ss[n], id) <==> (site.node, id) in ss[n].base.cts;
  }

  // ------------------------------------------------- why a creation must fit

  lemma Extended(site: Site, ss: seq<State>, ls: seq<Label>, l: Label, t: State)
    returns (ss': seq<State>, ls': seq<Label>)
    requires IsPath(site, ss, ls) && IsOrderly(site, ss, ls)
    requires Next(site, ss[|ls|], l, t) && Orderly(site, ss[|ls|], l, t)
    ensures IsPath(site, ss', ls') && IsOrderly(site, ss', ls') && ss'[0] == ss[0] && ss'[|ls'|] == t
  {
    ss', ls' := ss + [t], ls + [l];
    forall i | 0 <= i < |ls'| ensures NextAt(site, ss', ls', i) && OrderlyAt(site, ss', ls', i) {
      if i < |ls| { assert NextAt(site, ss, ls, i) && OrderlyAt(site, ss, ls, i); }
    }
  }

  /** The object can always be marked for deletion, unprotected. */
  lemma DeletionRequested(site: Site, s: State) returns (ss: seq<State>, ls: seq<Label>)
    requires UniqueName(s.base.cts, site.node, site.name) && s.obj.Some? && s.obj.value.finalizer
    ensures IsPath(site, ss, ls) && IsOrderly(site, ss, ls) && ss[0] == s
    ensures
      var t := ss[|ls|];
      && t.base == s.base && t.madeFor == s.madeFor && t.pass.Idle? && t.obj.Some?
      && t.obj.value.finalizer && t.obj.value.deleting && !t.obj.value.isProtected
  {
    ss, ls := [s], [];
    var t := s.(pass := Idle);
    ss, ls := Extended(site, ss, ls, Finish, t);
    t := t.(obj := Some(Edited(t.obj.value).(isProtected := false)));
    ss, ls := Extended(site, ss, ls, SetProtection(false), t);
    t := t.(obj := Some(Edited(t.obj.value).(deleting := true)));
    ss, ls := Extended(site, ss, ls, RequestDelete, t);
  }

  /** Two passes bring such an object to the removal of its guest. */
  lemma RemovalReached(site: Site, ss: seq<State>, ls: seq<Label>) returns (ss': seq<State>, ls': seq<Label>)
    requires IsPath(site, ss, ls) && IsOrderly(site, ss, ls) && ss[|ls|].pass.Idle? && ss[|ls|].obj.Some?
    requires ss[|ls|].obj.value.finalizer && ss[|ls|].obj.value.deleting && !ss[|ls|].obj.value.isProtected
    requires UniqueName(ss[|ls|].base.cts, site.node, site.name)
    ensures IsPath(site, ss', ls') && IsOrderly(site, ss', ls') && ss'[0] == ss[0]
    ensures
      var s, t := ss[|ls|], ss'[|ls'|];
      && t.base == s.base && t.madeFor == s.madeFor && t.obj.Some? && t.pass == Removing(t.obj.value)
      && !t.obj.value.isProtected
  {
    ss', ls' := ss, ls;
    var t := ss[|ls|];
    if !t.obj.value.marked {
      t := t.(pass := Started(t.obj.value));
      ss', ls' := Extended(site, ss', ls', Begin, t);
      t := t.(obj := Some(Edited(t.obj.value).(marked := true)), pass := Idle);
      ss', ls' := Extended(site, ss', ls', MarkDeleting, t);
    }
    t := t.(pass := Started(t.obj.value));
    ss', ls' := Extended(site, ss', ls', Begin, t);
    t := t.(pass := Removing(t.obj.value));
    ss', ls' := Extended(site, ss', ls', MarkDeleting, t);
  }

  /** What DeleteContainer answers when the name is cached under a VMID that is not the
      guest's: not found, and the guest stays. */
  lemma WrongVmid(site: Site, w: World, id: int, j: int) returns (op: Op, w': World)
    requires UniqueName(w.cts, site.node, site.name) && HasName(w.cts, site.node, id, site.name)
    requires CachedId(w.nodes, site.node, site.name) == Some(j) && j != id
    ensures op == Op.Delete(site.node, site.name, j, Err(NotFound), []) && Took(w, op, w') && w'.cts == w.cts
  {
    var cache := w.nodes[site.node];
    op := Op.Delete(site.node, site.name, j, Err(NotFound), []);
    w' := w.(nodes := w.nodes[site.node := NodeCache(cache.ids - {site.name}, cache.objs - {j})]);
  }

  lemma Orphan(site: Site, s: State, id: int) returns (ss: seq<State>, ls: seq<Label>)
    requires UniqueName(s.base.cts, site.node, site.name) && s.obj.Some? && s.obj.value.finalizer
    requires Made(site, s, id) && HasName(s.base.cts, site.node, id, site.name)
    requires CachedId(s.base.nodes, site.node, site.name).Some?
    requires CachedId(s.base.nodes, site.node, site.name).value != id
    ensures IsPath(site, ss, ls) && IsOrderly(site, ss, ls) && ss[0] == s && Orphaned(site, ss[|ls|])
  {
    ss, ls := DeletionRequested(site, s);
    ss, ls := RemovalReached(site, ss, ls);
    var t := ss[|ls|];
    var op, w := WrongVmid(site, t.base, id, CachedId(s.base.nodes, site.node, site.name).value);
    t := t.(base := w, pass := GuestGone(t.pass.snap));
    ss, ls := Extended(site, ss, ls, RemoveGuest(op.id, op.done, op.calls), t);
    t := t.(obj := None, leftProtected := false, pass := Idle);
    ss, ls := Extended(site, ss, ls, DropFinalizer, t);
    assert Made(site, t, id);
  }

  /** No orderly continuation ever orphans a guest. */
  ghost predicate NeverOrphans(site: Site, s: State) {
    forall ss, ls :: IsPath(site, ss, ls) && IsOrderly(site, ss, ls) && ss[0] == s ==> !Orphaned(site, ss[|ls|])
  }

  /** The exact condition on a creation: the guest can never be orphaned if and only if
      its name is not cached under another VMID at that moment. */
  lemma NeverOrphansExactly(site: Site, s: State, l: Label, s': State)
    requires Safe(site, s) && l.CreateGuest? && Next(site, s, l, s') && UniqueName(s'.base.cts, site.node, site.name)
    ensures NeverOrphans(site, s') <==> Fits(site, s, l)
  {
    if Fits(site, s, l) {
      StepKeepsSafe(site, s, l, s');
      forall ss, ls | IsPath(site, ss, ls) && IsOrderly(site, ss, ls) && ss[0] == s'
        ensures !Orphaned(site, ss[|ls|])
      {
        PathKeepsSafe(site, ss, ls, |ls|);
      }
    } else {
      var ss, ls := Orphan(site, s', l.id);
    }
  }
}
