/** What one pass of the Container reconciler starts from and brings about
    (internal/controller/proxmox/container_controller.go), as predicates on the states
    of the machine in Lifecycle. */
module ContainerPass {
  import opened Wrappers
  import opened ContainerHost
  import opened Containers
  import opened Coherence
  import opened Lifecycle
  import opened Replacement
  import opened RightGuest

  // ---------------------------------------------------------------- conditions

  /** The calls of a pass, before each of which others may act. */
  datatype Point =
    | AtFinalizer | AtExists | AtTags | AtDelete | AtClear | AtPatch | AtTemplate | AtCreate | AtFind | AtStart
    | AtState | AtUpdate | AtSave | AtAuto | AtAutoStart | AtRemove | AtDrop

  /** What goes wrong at each call of a pass, and whether others are at work before it. */
  datatype Weather = Weather(host: Point -> Faults, fails: Point -> bool, create: Task, busy: Point -> bool)

  ghost predicate Quiet(w: Weather) {
    forall p :: !w.busy(p)
  }

  ghost predicate Calm(w: Weather) {
    Quiet(w) && w.create.Completed? && forall p :: w.host(p) == NO_FAULTS && !w.fails(p)
  }

  // -------------------------------------------------------------------- the aim

  ghost predicate Present(site: Site, cts: Cts) {
    exists id :: HasName(cts, site.node, id, site.name)
  }

  /** The guest is there, and made of the wanted image if it is made of one. */
  ghost predicate SpecApplied(site: Site, s: State) {
    && Present(site, s.base.cts) && s.obj.Some?
    && (site.cloned || s.obj.value.applied == s.obj.value.image)
  }

  /** The container cached for the guest runs. */
  ghost predicate Runs(site: Site, w: World) {
    var cached := CachedId(w.nodes, site.node, site.name);
    cached.Some? && (site.node, cached.value) in w.cts && w.cts[(site.node, cached.value)].running
  }

  /** And it has so many cores and so much memory. */
  ghost predicate Sized(site: Site, cores: int, memory: int, w: World) {
    var cached := CachedId(w.nodes, site.node, site.name);
    && cached.Some? && (site.node, cached.value) in w.cts
    && w.cts[(site.node, cached.value)].cores == cores && w.cts[(site.node, cached.value)].memory == memory
  }

  /** A pass that writes to the object leaves what is wanted of it alone. */
  predicate SameWish(o: Obj, p: Obj) {
    o.image == p.image && o.deleting == p.deleting && o.isProtected == p.isProtected
  }

  /** Nobody created, destroyed, renamed or tagged a container. */
  ghost predicate SameGuests(cts: Cts, cts': Cts) {
    && cts'.Keys == cts.Keys
    && forall at :: at in cts ==> cts'[at].name == cts[at].name && cts'[at].tags == cts[at].tags
  }

  /** One container more, under a VMID that was free. */
  ghost predicate Added(cts: Cts, cts': Cts, node: string, ct: CT) {
    exists id :: (node, id) !in cts && cts' == cts[(node, id) := ct]
  }

  /** The guest as its image is made into it; cores and memory have defaults. */
  function OciGuest(site: Site, ref: string, cores: int, memory: int): CT {
    CT(site.name, false, if cores < 1 then 1 else cores, if memory < 16 then 512 else memory, Tag(site, ref))
  }

  /** It has the wanted name, the tag of its image, and the wanted cores and memory unless
      they are too few to be meant; it is made stopped. */
  lemma OciGuestIs(site: Site, ref: string, cores: int, memory: int)
    ensures var g := OciGuest(site, ref, cores, memory);
      && g.name == site.name && g.tags == site.naming.tag(ref) && !g.running
      && g.cores >= 1 && (cores >= 1 ==> g.cores == cores) && (cores < 1 ==> g.cores == 1)
      && g.memory >= 16 && (memory >= 16 ==> g.memory == memory) && (memory < 16 ==> g.memory == 512)
      && OciGuest(site, ref, g.cores, g.memory) == g
  {
  }

  /** The guest as a copy of the container that the template's name resolves to. */
  ghost predicate Cloned(site: Site, template: string, w: World, cts': Cts) {
    exists id ::
      && Resolves(w.nodes, w.cts, site.node, template, id) && (site.node, id) in w.cts
      && Added(w.cts, cts', site.node, w.cts[(site.node, id)].(name := site.name, running := false))
  }

  /** Between two states of the host's log a guest of the name was deleted in turn, as
      far as that got. */
  ghost predicate DeletedInTurn(site: Site, cts: Cts, before: seq<Call>, after: seq<Call>) {
    || after == before
    || exists id ::
         && HasName(cts, site.node, id, site.name) && |before| < |after| && after[..|before|] == before
         && InTurn(cts, site.node, id, after[|before|..])
  }

  /** The guests that ran are still there. */
  ghost predicate RunningRemain(site: Site, cts: Cts, cts': Cts) {
    forall id :: HasName(cts, site.node, id, site.name) && cts[(site.node, id)].running ==>
      HasName(cts', site.node, id, site.name)
  }

  // -------------------------------------------------------- what it depends on

  /** The tags that a look at a VMID shows: those of its cached object, or else those of
      the container. */
  function TagsAt(site: Site, w: World, id: int): Option<string> {
    if CachedObj(w.nodes, site.node, id).Some? then Some(CachedObj(w.nodes, site.node, id).value.info.tags)
    else if (site.node, id) in w.cts then Some(w.cts[(site.node, id)].tags)
    else None
  }

  /** And at the VMID cached for the guest. */
  function TagsSeen(site: Site, w: World): Option<string> {
    var cached := CachedId(w.nodes, site.node, site.name);
    if cached.None? then None else TagsAt(site, w, cached.value)
  }

  /** The guest is there, and what its name resolves to shows no tags foreign to the image. */
  ghost predicate RightlyThere(site: Site, w: World, ref: string) {
    && Present(site, w.cts)
    && forall id :: PointsAt(site, w, id) ==>
         (site.node, id) in w.cts && !Foreign(site, TagsAt(site, w, id).value, ref)
  }

  /** What the template's name resolves to is there. */
  ghost predicate TemplateOk(site: Site, template: string, w: World) {
    match CachedId(w.nodes, site.node, template)
    case Some(id) => (site.node, id) in w.cts
    case None => exists id :: HasName(w.cts, site.node, id, template)
  }

  /** From here an undisturbed pass without faults reaches the wanted state: the guest
      is there and is or will be found as wanted, or it is replaced, or its name is not
      cached and it can be made. */
  ghost predicate Promising(site: Site, template: string, o: Obj, w: World) {
    var present := Present(site, w.cts);
    if CachedId(w.nodes, site.node, site.name).None? then
      present || (site.cloned ==> TemplateOk(site, template, w))
    else if site.cloned || o.applied == o.image then present
    else if o.applied != NO_IMAGE then true
    else
      var seen := TagsSeen(site, w);
      seen.Some? && (MatchesTags(site, seen.value, o.image.ref) ==> present)
  }

  /** The VMID cached for the name now belongs to a container of another name. */
  ghost predicate Taken(site: Site, w: World) {
    && CachedId(w.nodes, site.node, site.name).Some?
    && (site.node, CachedId(w.nodes, site.node, site.name).value) in w.cts
    && !Present(site, w.cts)
  }

  /** And the object would rather keep that container than replace it. */
  ghost predicate Mistaken(site: Site, s: State)
    requires s.obj.Some?
  {
    var o := s.obj.value;
    && Taken(site, s.base)
    && (site.cloned || o.applied == o.image ||
        (o.applied == NO_IMAGE &&
         MatchesTags(site,
                     s.base.cts[(site.node, CachedId(s.base.nodes, site.node, site.name).value)].tags, o.image.ref)))
  }

  /** The guest is to be cloned from a template that is not found. */
  ghost predicate NoTemplate(site: Site, template: string, w: World) {
    site.cloned && !Present(site, w.cts) && !TemplateOk(site, template, w)
  }

  /** At most one guest has the name, and none is hidden behind another cached VMID. */
  ghost predicate Clear(site: Site, w: World) {
    && UniqueName(w.cts, site.node, site.name)
    && forall id :: HasName(w.cts, site.node, id, site.name) && CachedId(w.nodes, site.node, site.name).Some? ==>
         CachedId(w.nodes, site.node, site.name).value == id
  }

  /** The only object cached on the node without a container is, perhaps, the guest's. */
  ghost predicate Clean(site: Site, w: World) {
    forall id :: CachedObj(w.nodes, site.node, id).Some? && (site.node, id) !in w.cts ==>
      CachedId(w.nodes, site.node, site.name) == Some(id)
  }

  /** No guest has the name, and the name is not cached. */
  ghost predicate Absent(site: Site, w: World) {
    NoneNamed(w.cts, site.node, site.name) && CachedId(w.nodes, site.node, site.name).None?
  }

  /** The name is cached under the VMID of a guest of the name. */
  ghost predicate Found(site: Site, w: World) {
    var cached := CachedId(w.nodes, site.node, site.name);
    cached.Some? && HasName(w.cts, site.node, cached.value, site.name)
  }

  /** The VMID cached for the name is that of a container, if not of the guest. */
  ghost predicate Stands(site: Site, w: World) {
    var cached := CachedId(w.nodes, site.node, site.name);
    cached.Some? && (site.node, cached.value) in w.cts
  }

  /** The cached object shows the guest to run in its wanted size, although it is stopped. */
  ghost predicate Deceived(site: Site, cores: int, memory: int, w: World) {
    && Stands(site, w) && !Runs(site, w)
    && var shown := CachedObj(w.nodes, site.node, CachedId(w.nodes, site.node, site.name).value);
       shown.Some? && shown.value.info.running && shown.value.info.cores == cores && shown.value.info.memory == memory
  }

  ghost predicate Unseen(site: Site, w: World) {
    Stands(site, w) && CachedObj(w.nodes, site.node, CachedId(w.nodes, site.node, site.name).value).None?
  }

  ghost predicate ShowsOther(site: Site, cores: int, memory: int, w: World) {
    && Stands(site, w)
    && var shown := CachedObj(w.nodes, site.node, CachedId(w.nodes, site.node, site.name).value);
       shown.Some? && (shown.value.info.cores != cores || shown.value.info.memory != memory)
  }

  /** The guest and what is cached of it are as before. */
  ghost predicate SameSight(site: Site, w: World, w': World) {
    Stands(site, w) ==>
      var cached := CachedId(w.nodes, site.node, site.name);
      && w'.cts == w.cts && CachedId(w'.nodes, site.node, site.name) == cached
      && CachedObj(w'.nodes, site.node, cached.value) == CachedObj(w.nodes, site.node, cached.value)
  }

  /** What the name resolves to is there, and its cached object, if any, shows it as it is. */
  ghost predicate UpToDate(site: Site, w: World) {
    forall id :: PointsAt(site, w, id) ==>
      && (site.node, id) in w.cts
      && (CachedObj(w.nodes, site.node, id).Some? ==>
            CachedObj(w.nodes, site.node, id).value.info == w.cts[(site.node, id)])
  }

  ghost predicate PointsAt(site: Site, w: World, id: int) {
    match CachedId(w.nodes, site.node, site.name)
    case Some(c) => id == c
    case None => HasName(w.cts, site.node, id, site.name)
  }

  // ----------------------------------------------------------- histories in order

  /** A history in which the guest is never orphaned, its image recorded truly, and no
      right guest made again. */
  ghost predicate Good(site: Site, ss: seq<State>, ls: seq<Label>) {
    IsOrderly(site, ss, ls) && IsHonest(site, ss, ls) && IsSparing(site, ss, ls)
  }

  /** The step keeps it so. */
  ghost predicate InOrder(site: Site, s: State, l: Label, s': State) {
    Orderly(site, s, l, s') && Honest(site, s, l) && !Spoils(site, s, l)
  }

  lemma ExtendGood(site: Site, ss: seq<State>, ls: seq<Label>, l: Label, s: State)
    requires Good(site, ss, ls) && InOrder(site, ss[|ls|], l, s)
    ensures Good(site, ss + [s], ls + [l])
  {
    var ss', ls' := ss + [s], ls + [l];
    forall i | 0 <= i < |ls'|
      ensures OrderlyAt(site, ss', ls', i) && HonestAt(site, ss', ls', i) && SparesAt(site, ss', ls', i)
    {
      if i < |ls| {
        assert OrderlyAt(site, ss, ls, i) && HonestAt(site, ss, ls, i) && SparesAt(site, ss, ls, i);
      }
    }
  }

  lemma ExtendPath(site: Site, ss: seq<State>, ls: seq<Label>, l: Label, s: State)
    requires IsPath(site, ss, ls) && Next(site, ss[|ls|], l, s)
    ensures IsPath(site, ss + [s], ls + [l])
  {
    var ss', ls' := ss + [s], ls + [l];
    forall i | 0 <= i < |ls'| ensures NextAt(site, ss', ls', i) {
      if i < |ls| { assert NextAt(site, ss, ls, i); }
    }
  }

  ghost predicate Valid(w: World) {
    ValidCts(w.cts) && ValidNodes(w.nodes)
  }

  lemma KeepKeepsValid(site: Site, s: State, l: Label, s': State)
    requires KeepNext(site, s, l, s') && Valid(s.base)
    ensures Valid(s'.base)
  {
    if l.CheckExists? {
      StepKeepsValid(s.base, Lookup(site.node, site.name, l.found), s'.base);
    } else if l.ReadTags? {
      StepKeepsValid(s.base, Get(site.node, site.name, l.id, l.read), s'.base);
    } else if l.CreateGuest? {
      StepKeepsValid(s.base, Creation(site, l), s'.base);
    }
  }

  lemma NextKeepsValid(site: Site, s: State, l: Label, s': State)
    requires Next(site, s, l, s') && Valid(s.base)
    ensures Valid(s'.base)
  {
    if KeepNext(site, s, l, s') {
      KeepKeepsValid(site, s, l, s');
    } else if l.DeleteForReplace? || l.RemoveGuest? {
      StepKeepsValid(s.base, Op.Delete(site.node, site.name, l.id, l.done, l.calls), s'.base);
    } else if l.Outside? {
      StepKeepsValid(s.base, l.op, s'.base);
    }
  }

  // ------------------------------------------------- what the client's calls keep

  /** A call that creates nothing and destroys no guest but the object's own. */
  ghost predicate OwnOp(site: Site, op: Op) {
    op.Lookup? || op.Poll? || op.Get? || op.Adjust? || OwnDelete(site, op)
  }

  lemma OwnOpKeepsClear(site: Site, w: World, op: Op, w': World)
    requires ValidCts(w.cts) && ValidNodes(w.nodes) && Clear(site, w) && Took(w, op, w') && OwnOp(site, op)
    ensures Clear(site, w')
  {
    NameEffect(w, op, w', site.node, site.name);
    forall id | HasName(w'.cts, site.node, id, site.name) ensures HasName(w.cts, site.node, id, site.name) {
      PlaceEffect(w, op, w', site.node, id);
    }
  }

  lemma OwnOpKeepsClean(site: Site, w: World, op: Op, w': World)
    requires Clean(site, w) && Took(w, op, w') && OwnOp(site, op)
    ensures Clean(site, w')
  {
  }

  lemma OwnOpKeepsTidy(site: Site, w: World, op: Op, w': World)
    requires ValidCts(w.cts) && ValidNodes(w.nodes) && Took(w, op, w') && OwnOp(site, op)
    ensures Clear(site, w) && Clean(site, w) ==> Clear(site, w') && Clean(site, w')
  {
    if Clear(site, w) && Clean(site, w) {
      OwnOpKeepsClear(site, w, op, w');
      OwnOpKeepsClean(site, w, op, w');
    }
  }

  /** A creation where the guest is absent is in order and harmless: no object can be
      left over under a free VMID. */
  lemma CreationKeepsTidy(site: Site, s: State, l: Label, s': State)
    requires Clear(site, s.base) && Clean(site, s.base) && Absent(site, s.base)
    requires l.CreateGuest? && KeepNext(site, s, l, s')
    ensures InOrder(site, s, l, s') && Clear(site, s'.base) && Clean(site, s'.base)
  {
    forall id | HasName(s'.base.cts, site.node, id, site.name) ensures id == l.id {
      assert !HasName(s.base.cts, site.node, id, site.name);
    }
  }

  lemma LookKeepsUpToDate(site: Site, w: World, op: Op, w': World)
    requires ValidCts(w.cts) && ValidNodes(w.nodes) && UpToDate(site, w) && Took(w, op, w')
    requires (op.Lookup? || op.Get?) && op.node == site.node && op.name == site.name
    ensures UpToDate(site, w')
  {
    forall id | PointsAt(site, w', id)
      ensures (site.node, id) in w'.cts
      ensures CachedObj(w'.nodes, site.node, id).Some? ==>
        CachedObj(w'.nodes, site.node, id).value.info == w'.cts[(site.node, id)]
    {
      NameEffect(w, op, w', site.node, site.name);
      ObjectEffect(w, op, w', site.node, id);
      assert PointsAt(site, w, id);
    }
  }

  lemma UpToDateStands(site: Site, w: World)
    requires UpToDate(site, w) && CachedId(w.nodes, site.node, site.name).Some?
    ensures Stands(site, w)
  {
    assert PointsAt(site, w, CachedId(w.nodes, site.node, site.name).value);
  }

  /** What UpdateContainer says of the container that an up-to-date cache points at. */
  lemma UpdateSizes(site: Site, cores: int, memory: int, w: World, id: int, w': World)
    requires UpToDate(site, w) && Stands(site, w) && Resolves(w.nodes, w.cts, site.node, site.name, id)
    requires (site.node, id) in w.cts ==>
      var ct := w.cts[(site.node, id)].(cores := cores, memory := memory);
      && (site.node, id) in w'.cts
      && (w'.cts[(site.node, id)] == ct <==>
            w.cts[(site.node, id)] == ct || !Shows(w.nodes, w.cts, site.node, id, cores, memory))
    requires (site.node, id) in w.cts ==> CachedId(w'.nodes, site.node, site.name) == Some(id)
    ensures Sized(site, cores, memory, w')
  {
    assert PointsAt(site, w, id);
  }

  /** What a look at the guest tells about its power. */
  lemma LookKeepsSize(site: Site, cores: int, memory: int, w: World, op: Op, w': World)
    requires ValidCts(w.cts) && ValidNodes(w.nodes) && Took(w, op, w') && (op.Lookup? || op.Get?)
    requires op.node == site.node && op.name == site.name
    ensures Sized(site, cores, memory, w) ==> Sized(site, cores, memory, w')
    ensures Runs(site, w) ==> Runs(site, w')
  {
  }

  lemma LookTellsPower(site: Site, w: World, id: int, read: Result<CtObj, ClientError>, w': World)
    requires ValidCts(w.cts) && ValidNodes(w.nodes) && Took(w, Get(site.node, site.name, id, read), w')
    ensures Runs(site, w) ==> Runs(site, w')
    ensures Stands(site, w) && read != Err(OtherError) && read != Err(TaskError) ==> Stands(site, w')
    ensures read.Ok? && UpToDate(site, w) ==> (read.value.info.running <==> Runs(site, w')) && Stands(site, w')
  {
    if read.Ok? && UpToDate(site, w) {
      assert PointsAt(site, w, id);
    }
  }

  lemma LookupKeepsSight(site: Site, w: World, found: Result<int, ClientError>, w': World)
    requires ValidCts(w.cts) && ValidNodes(w.nodes) && Took(w, Lookup(site.node, site.name, found), w')
    ensures SameSight(site, w, w')
  {
  }

  /** A guest that a look shows running does run, or has another size cached, unless the
      look deceives. */
  lemma LookDeceives(site: Site, cores: int, memory: int, w: World, id: int, read: Result<CtObj, ClientError>,
                     w': World)
    requires ValidCts(w.cts) && ValidNodes(w.nodes) && Took(w, Get(site.node, site.name, id, read), w')
    requires Stands(site, w) && read.Ok?
    ensures Stands(site, w')
    ensures Deceived(site, cores, memory, w) ==> Deceived(site, cores, memory, w') && read.value.info.running
    ensures !Deceived(site, cores, memory, w) && read.value.info.running ==>
      Runs(site, w') || ShowsOther(site, cores, memory, w')
    ensures Unseen(site, w) ==> (read.value.info.running <==> Runs(site, w'))
  {
  }

  /** Whose tags a look at the guest shows when its name is cached. */
  lemma SeenByGet(site: Site, w: World, id: int, read: Result<CtObj, ClientError>, nodes: Nodes)
    requires ValidCts(w.cts) && ValidNodes(w.nodes) && CachedId(w.nodes, site.node, site.name).Some?
    requires GetPost(w.nodes, w.cts, site.node, site.name, id, read, nodes)
    ensures read.Ok? ==> TagsSeen(site, w) == Some(read.value.info.tags)
    ensures read == Err(NotFound) && CachedObj(w.nodes, site.node, id).None? ==> TagsSeen(site, w) == None
  {
  }

  /** Reading the tags is a step of the machine. */
  lemma ReadTagsIsNext(site: Site, s: State, id: int, read: Result<CtObj, ClientError>, s': State)
    requires !site.cloned && s.pass.Checked? && s.pass.found
    requires s.pass.snap.applied == NO_IMAGE != s.pass.snap.image
    requires Took(s.base, Get(site.node, site.name, id, read), s'.base)
    requires s' == s.(base := s'.base, pass := s'.pass)
    requires
      if read.Err? then s'.pass == Idle
      else if Foreign(site, read.value.info.tags, s.pass.snap.image.ref) then s'.pass == Replacing(s.pass.snap)
      else s'.pass == Bootstrapping(s.pass.snap)
    ensures KeepNext(site, s, ReadTags(id, read), s')
  {
  }

  /** A look-up that finds something leaves the guest rightly there. */
  lemma LookupKeepsRight(site: Site, w: World, found: Result<int, ClientError>, w': World, ref: string)
    requires Took(w, Lookup(site.node, site.name, found), w') && RightlyThere(site, w, ref)
    requires ValidCts(w.cts) && ValidNodes(w.nodes)
    ensures RightlyThere(site, w', ref)
    ensures found != Ok(0)
  {
    forall id | PointsAt(site, w', id) ensures PointsAt(site, w, id) && TagsAt(site, w', id) == TagsAt(site, w, id) {
      NameEffect(w, Lookup(site.node, site.name, found), w', site.node, site.name);
    }
  }

  /** In a good and sparing history the guest made of the wanted image is rightly there
      until an image is recorded for it. */
  lemma RightGuestIsThere(site: Site, s: State, id: int)
    requires TagLaws(site.naming) && Safe(site, s) && Truthful(site, s) && Sparing(site, s)
    requires s.obj.Some? && s.obj.value.applied == NO_IMAGE && !s.obj.value.deleting
    requires Made(site, s, id) && s.madeFor[id] == s.obj.value.image.ref
    ensures RightlyThere(site, s.base, s.obj.value.image.ref)
  {
    assert MadeOk(site, s, id) && GuestTrue(site, s, id) && GuestShown(site, s, id);
    assert HasName(s.base.cts, site.node, id, site.name);
    OwnTagIsNotForeign(site, s.madeFor[id]);
  }

  /** A look-up changes no promise. */
  lemma LookupKeepsPromise(site: Site, template: string, o: Obj, w: World, found: Result<int, ClientError>, w': World)
    requires ValidCts(w.cts) && ValidNodes(w.nodes) && found.Ok? && Took(w, Lookup(site.node, site.name, found), w')
    ensures Promising(site, template, o, w) <==> Promising(site, template, o, w')
  {
    if CachedId(w.nodes, site.node, site.name).None? && found.value != 0 {
      assert HasName(w.cts, site.node, found.value, site.name);
    }
  }

  /** After a poll the state is promising unless another container is taken for the
      guest, or there is no template to clone a new one from. */
  lemma PollPromises(site: Site, template: string, s: State, id: int, read: Result<CtObj, ClientError>, w: World)
    requires ValidCts(s.base.cts) && ValidNodes(s.base.nodes) && s.obj.Some?
    requires RefreshPost(s.base.nodes, s.base.cts, site.node, site.name, id, read, w.nodes)
    requires w.cts == s.base.cts && (read.Ok? || read == Err(NotFound))
    ensures Promising(site, template, s.obj.value, w) <==> !Mistaken(site, s) && !NoTemplate(site, template, s.base)
  {
    if CachedId(s.base.nodes, site.node, site.name).None? && read.Ok? {
      assert HasName(s.base.cts, site.node, id, site.name);
    }
  }

  /** And where things are clear, what the caches show is up to date. */
  lemma PollIsUpToDate(site: Site, w: World, id: int, read: Result<CtObj, ClientError>, w': World)
    requires ValidCts(w.cts) && ValidNodes(w.nodes) && Clear(site, w) && w'.cts == w.cts
    requires RefreshPost(w.nodes, w.cts, site.node, site.name, id, read, w'.nodes)
    requires read.Ok? || read == Err(NotFound)
    ensures UpToDate(site, w')
  {
  }

  /** A deletion that succeeds or finds nothing leaves no guest of the name exactly
      when things were clear before. */
  lemma AbsentExactly(site: Site, w: World, op: Op, w': World)
    requires Took(w, op, w') && OwnDelete(site, op) && (op.done.Ok? || op.done == Err(NotFound))
    ensures !Present(site, w'.cts) <==> Clear(site, w)
    ensures NoneNamed(w'.cts, site.node, site.name) <==> Clear(site, w)
  {
    if op.done.Ok? {
      DeletedExactly(w, op, w');
      assert HasName(w.cts, site.node, op.id, site.name);
    } else {
      NotFoundExactly(w, op, w');
    }
    PresentExactly(site, w'.cts);
  }

  lemma PresentExactly(site: Site, cts: Cts)
    ensures Present(site, cts) <==> !NoneNamed(cts, site.node, site.name)
  {
    assert forall id :: HasName(cts, site.node, id, site.name) ==> (site.node, id) in cts;
    if !NoneNamed(cts, site.node, site.name) {
      var id :| (site.node, id) in cts && cts[(site.node, id)].name == site.name;
      assert HasName(cts, site.node, id, site.name);
    }
  }

  lemma SameGuestsPresent(site: Site, cts: Cts, cts': Cts)
    requires SameGuests(cts, cts')
    ensures Present(site, cts) <==> Present(site, cts')
  {
    assert forall id :: HasName(cts, site.node, id, site.name) <==> HasName(cts', site.node, id, site.name);
  }
}
