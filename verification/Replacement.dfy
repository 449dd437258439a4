/** Crash-safe replacement of a guest whose OCI image changes: what the applied image
    in the status is worth
    (internal/controller/proxmox/container_controller.go:287-304, 342-451). */
module Replacement {
  import opened Wrappers
  import opened ContainerHost
  import opened Containers
  import opened Coherence
  import opened Lifecycle

  /** Some reference matches these tags although its tag is not that of the guest. */
  ghost predicate Misleads(site: Site, tags: string, tag: string) {
    exists ref :: !site.naming.blank(ref) && MatchesTags(site, tags, ref) && Tag(site, ref) != tag
  }

  /** The guest is created under a VMID whose cached object, left over from another
      container, misleads; and the object is open to adopting what it reads. */
  ghost predicate Harmful(site: Site, s: State, l: Label) {
    && l.CreateGuest? && s.obj.Some? && s.obj.value.applied == NO_IMAGE && !s.obj.value.deleting
    && CachedObj(s.base.nodes, site.node, l.id).Some?
    && Misleads(site, CachedObj(s.base.nodes, site.node, l.id).value.info.tags, l.ct.tags)
  }

  /** Images keep a non-blank reference, nobody rewrites the tags of a guest that was
      made for the object, and no creation is harmful. */
  ghost predicate Honest(site: Site, s: State, l: Label) {
    match l
    case EditImage(image) => !site.naming.blank(image.ref)
    case Outside(Change(n, id, ct)) =>
      n == site.node && Made(site, s, id) ==> ct.tags == s.base.cts[(site.node, id)].tags
    case CreateGuest(_, _, _) => !Harmful(site, s, l)
    case _ => true
  }

  ghost predicate HonestAt(site: Site, ss: seq<State>, ls: seq<Label>, i: nat)
    requires |ss| == |ls| + 1 && i < |ls|
  {
    Honest(site, ss[i], ls[i])
  }

  ghost predicate IsHonest(site: Site, ss: seq<State>, ls: seq<Label>) {
    |ss| == |ls| + 1 && forall i :: 0 <= i < |ls| ==> HonestAt(site, ss, ls, i)
  }

  // ---------------------------------------------------------------- invariant

  ghost predicate AllTagged(site: Site, s: State, ref: string) {
    forall id :: Made(site, s, id) ==> Tag(site, s.madeFor[id]) == Tag(site, ref)
  }

  /** An applied image and the guest the controller made carry the same tag. */
  ghost predicate TagAgrees(site: Site, s: State) {
    s.obj.Some? && s.obj.value.applied != NO_IMAGE ==> AllTagged(site, s, s.obj.value.applied.ref)
  }

  /** A pass that may still adopt the guest it finds. */
  predicate MayAdopt(p: Pass) {
    (p.Started? || p.Ensured? || p.Checked?) && !p.snap.deleting
  }

  ghost predicate Adoptable(s: State) {
    && s.obj.Some? && s.obj.value.applied == NO_IMAGE
    && (s.obj.value.deleting ==> MayAdopt(s.pass))
  }

  /** A made guest has the tag of its reference, and what is cached under its VMID does
      not mislead while it may still be adopted. */
  ghost predicate GuestTrue(site: Site, s: State, id: int) {
    Made(site, s, id) ==>
      && !site.naming.blank(s.madeFor[id])
      && s.base.cts[(site.node, id)].tags == Tag(site, s.madeFor[id])
      && (Adoptable(s) && CachedObj(s.base.nodes, site.node, id).Some? ==>
            !Misleads(site, CachedObj(s.base.nodes, site.node, id).value.info.tags, Tag(site, s.madeFor[id])))
  }

  ghost predicate NotBlank(site: Site, o: Obj) {
    !site.naming.blank(o.image.ref) && (o.applied != NO_IMAGE ==> !site.naming.blank(o.applied.ref))
  }

  ghost predicate MadeAsWanted(site: Site, s: State, ref: string) {
    forall id :: Made(site, s, id) ==> s.madeFor[id] == ref
  }

  ghost predicate PassTrue(site: Site, s: State) {
    if s.pass.Idle? then true
    else
      && NotBlank(site, s.pass.snap)
      && (s.obj.Some? ==> s.pass.snap.applied == s.obj.value.applied)
      && (s.pass.Bootstrapping? ==> AllTagged(site, s, s.pass.snap.image.ref))
      && (s.pass.MustCreate? || s.pass.Created? ==>
            s.pass.snap.applied == NO_IMAGE || s.pass.snap.applied == s.pass.snap.image)
      && (s.pass.Created? ==> MadeAsWanted(site, s, s.pass.snap.image.ref))
  }

  ghost predicate Truthful(site: Site, s: State) {
    && !site.cloned
    && (s.obj.Some? ==> NotBlank(site, s.obj.value))
    && (forall id :: GuestTrue(site, s, id))
    && TagAgrees(site, s) && PassTrue(site, s)
  }

  // --------------------------------------------------------------------- steps

  lemma OwnTagIsTrue(site: Site, ref: string)
    requires TagLaws(site.naming) && !site.naming.blank(ref)
    ensures !Misleads(site, Tag(site, ref), Tag(site, ref))
  {
  }

  /** The guests there are after the step were there before, as they are. */
  ghost predicate MadeRemain(site: Site, s: State, s': State) {
    forall id :: Made(site, s', id) ==>
      && Made(site, s, id) && s'.madeFor[id] == s.madeFor[id]
      && s'.base.cts[(site.node, id)].tags == s.base.cts[(site.node, id)].tags
  }

  /** An operation on the host, other than an own creation. */
  lemma HostStep(site: Site, s: State, op: Op, s': State)
    requires TagLaws(site.naming) && Safe(site, s) && Truthful(site, s) && Took(s.base, op, s'.base)
    requires s'.obj == s.obj && s'.madeFor == Forget(site, s.madeFor, op)
    requires op.Change? && op.node == site.node && Made(site, s, op.id) ==>
      op.ct.tags == s.base.cts[(site.node, op.id)].tags
    requires Adoptable(s') ==> Adoptable(s)
    ensures MadeRemain(site, s, s') && TagAgrees(site, s') && forall id :: GuestTrue(site, s', id)
  {
    forall id | Made(site, s', id)
      ensures GuestTrue(site, s', id) && Made(site, s, id)
      ensures s'.madeFor[id] == s.madeFor[id]
      ensures s'.base.cts[(site.node, id)].tags == s.base.cts[(site.node, id)].tags
    {
      PlaceEffect(s.base, op, s'.base, site.node, id);
      assert GuestTrue(site, s, id);
      ObjectEffect(s.base, op, s'.base, site.node, id);
      OwnTagIsTrue(site, s.madeFor[id]);
    }
  }

  lemma RemainKeepsPass(site: Site, s: State, s': State)
    requires PassTrue(site, s) && MadeRemain(site, s, s') && s'.obj == s.obj && s'.pass == s.pass
    ensures PassTrue(site, s')
  {
  }

  /** A step that leaves the host alone. */
  lemma ObjectTruth(site: Site, s: State, s': State)
    requires Truthful(site, s) && s'.base == s.base && s'.madeFor == s.madeFor
    requires s'.obj.Some? ==>
      && NotBlank(site, s'.obj.value) && s.obj.Some?
      && (s'.obj.value.applied == s.obj.value.applied || s'.obj.value.applied == NO_IMAGE ||
          AllTagged(site, s, s'.obj.value.applied.ref))
    requires Adoptable(s') ==> Adoptable(s) || NoneMade(site, s)
    requires PassTrue(site, s')
    ensures Truthful(site, s')
  {
    forall id ensures (Made(site, s', id) <==> Made(site, s, id)) && GuestTrue(site, s', id) {
      assert GuestTrue(site, s, id);
    }
  }

  lemma SamePass(site: Site, s: State, s': State)
    requires s'.base == s.base && s'.madeFor == s.madeFor
    ensures forall ref :: AllTagged(site, s, ref) <==> AllTagged(site, s', ref)
    ensures forall ref :: MadeAsWanted(site, s, ref) <==> MadeAsWanted(site, s', ref)
  {
    assert forall id :: Made(site, s, id) <==> Made(site, s', id);
  }

  lemma OthersKeepTruth(site: Site, s: State, l: Label, s': State)
    requires TagLaws(site.naming) && Safe(site, s) && Truthful(site, s)
    requires OthersNext(site, s, l, s') && Honest(site, s, l)
    ensures Truthful(site, s')
  {
    if l.Outside? {
      HostStep(site, s, l.op, s');
      RemainKeepsPass(site, s, s');
    } else if l.Crash? {
      HostStep(site, s, Restart, s');
    } else {
      SamePass(site, s, s');
      ObjectTruth(site, s, s');
    }
  }

  /** The tags read decide rightly. */
  lemma TagsReadAreTrue(site: Site, s: State, l: Label, nodes: Nodes)
    requires TagLaws(site.naming) && Safe(site, s) && Truthful(site, s) && l.ReadTags? && l.read.Ok? && Adoptable(s)
    requires GetPost(s.base.nodes, s.base.cts, site.node, site.name, l.id, l.read, nodes)
    requires s.pass.Checked? && MatchesTags(site, l.read.value.info.tags, s.pass.snap.image.ref)
    ensures AllTagged(site, s, s.pass.snap.image.ref)
  {
    forall id | Made(site, s, id) ensures Tag(site, s.madeFor[id]) == Tag(site, s.pass.snap.image.ref) {
      assert MadeOk(site, s, id) && GuestTrue(site, s, id);
      assert HasName(s.base.cts, site.node, id, site.name);
      assert l.id == id;
      OwnTagIsTrue(site, s.madeFor[id]);
    }
  }

  lemma ReadKeepsTruth(site: Site, s: State, l: Label, s': State)
    requires TagLaws(site.naming) && Safe(site, s) && Truthful(site, s)
    requires KeepNext(site, s, l, s') && (l.CheckExists? || l.ReadTags?)
    ensures Truthful(site, s')
  {
    if l.ReadTags? && s'.pass.Bootstrapping? {
      TagsReadAreTrue(site, s, l, s'.base.nodes);
    }
    var op := if l.CheckExists? then Lookup(site.node, site.name, l.found) else Get(site.node, site.name, l.id, l.read);
    HostStep(site, s, op, s');
  }

  lemma CreateKeepsTruth(site: Site, s: State, l: Label, s': State)
    requires Safe(site, s) && Truthful(site, s) && Safe(site, s') && KeepNext(site, s, l, s') && l.CreateGuest?
    requires forall id :: Made(site, s', id) <==> id == l.id
    requires !Harmful(site, s, l)
    ensures Truthful(site, s')
  {
    assert CachedObj(s'.base.nodes, site.node, l.id) == CachedObj(s.base.nodes, site.node, l.id);
    assert GuestTrue(site, s', l.id);
  }

  lemma KeepKeepsTruth(site: Site, s: State, l: Label, s': State)
    requires TagLaws(site.naming) && Safe(site, s) && Truthful(site, s)
    requires KeepNext(site, s, l, s') && Orderly(site, s, l, s') && Honest(site, s, l)
    ensures Truthful(site, s')
  {
    if l.CheckExists? || l.ReadTags? {
      ReadKeepsTruth(site, s, l, s');
    } else if l.CreateGuest? {
      CreateKeepsSafe(site, s, l, s');
      CreateKeepsTruth(site, s, l, s');
    } else {
      SamePass(site, s, s');
      ObjectTruth(site, s, s');
    }
  }

  lemma DeleteKeepsTruth(site: Site, s: State, l: Label, s': State)
    requires TagLaws(site.naming) && Safe(site, s) && Truthful(site, s) && DeleteNext(site, s, l, s')
    ensures Truthful(site, s')
  {
    if l.DeleteForReplace? || l.RemoveGuest? {
      HostStep(site, s, Op.Delete(site.node, site.name, l.id, l.done, l.calls), s');
    } else {
      SamePass(site, s, s');
      ObjectTruth(site, s, s');
    }
  }

  lemma StepKeepsTruth(site: Site, s: State, l: Label, s': State)
    requires TagLaws(site.naming) && Safe(site, s) && Truthful(site, s)
    requires Next(site, s, l, s') && Orderly(site, s, l, s') && Honest(site, s, l)
    ensures Truthful(site, s')
  {
    if OthersNext(site, s, l, s') {
      OthersKeepTruth(site, s, l, s');
    } else if KeepNext(site, s, l, s') {
      KeepKeepsTruth(site, s, l, s');
    } else {
      DeleteKeepsTruth(site, s, l, s');
    }
  }

  // --------------------------------------------------------------------- runs

  lemma {:induction false} PathKeepsTruth(site: Site, ss: seq<State>, ls: seq<Label>, n: nat)
    requires TagLaws(site.naming) && IsPath(site, ss, ls) && Safe(site, ss[0]) && Truthful(site, ss[0])
    requires IsOrderly(site, ss, ls) && IsHonest(site, ss, ls) && n <= |ls|
    ensures Safe(site, ss[n]) && Truthful(site, ss[n])
  {
    if n > 0 {
      PathKeepsTruth(site, ss, ls, n - 1);
      assert NextAt(site, ss, ls, n - 1) && OrderlyAt(site, ss, ls, n - 1) && HonestAt(site, ss, ls, n - 1);
      StepKeepsSafe(site, ss[n - 1], ls[n - 1], ss[n]);
      StepKeepsTruth(site, ss[n - 1], ls[n - 1], ss[n]);
    }
  }

  /** Crash-safe replacement: in every orderly and honest run an applied image and the
      existing guest the controller made carry the same tag, whatever was edited,
      destroyed or crashed and whatever VMIDs were reused; and that guest is the only
      one of its name. */
  lemma AppliedImageIsTrue(site: Site, ss: seq<State>, ls: seq<Label>, n: nat, id: int)
    requires TagLaws(site.naming) && !site.cloned && IsPath(site, ss, ls) && Init(site, ss[0])
    requires !site.naming.blank(ss[0].obj.value.image.ref)
    requires IsOrderly(site, ss, ls) && IsHonest(site, ss, ls) && n <= |ls|
    requires ss[n].obj.Some? && ss[n].obj.value.applied != NO_IMAGE && Made(site, ss[n], id)
    ensures ss[n].base.cts[(site.node, id)].tags == Tag(site, ss[n].obj.value.applied.ref)
    ensures ss[n].base.cts[(site.node, id)].name == site.name && ss[n].obj.value.finalizer
    ensures forall j :: HasName(ss[n].base.cts, site.node, j, site.name) ==> j == id
  {
    PathKeepsTruth(site, ss, ls, n);
    assert MadeOk(site, ss[n], id) && GuestTrue(site, ss[n], id);
    assert HasName(ss[n].base.cts, site.node, id, site.name);
  }

  /** A replacement that gets the VMID of the guest it deleted is neither harmful nor
      out of order. */
  lemma OwnVmidBack(site: Site, s: State, l: Label, s': State, t: State, create: Label)
    requires l.DeleteForReplace? && Next(site, s, l, s') && (l.done.Ok? || l.done == Err(NotFound))
    requires t.base.nodes == s'.base.nodes && create.CreateGuest? && create.id == l.id
    ensures !Harmful(site, t, create) && Fits(site, t, create)
  {
  }

  // --------------------------------------------- why a creation must not mislead

  lemma ExtendedHonestly(site: Site, ss: seq<State>, ls: seq<Label>, l: Label, t: State)
    returns (ss': seq<State>, ls': seq<Label>)
    requires IsPath(site, ss, ls) && IsOrderly(site, ss, ls) && IsHonest(site, ss, ls)
    requires Next(site, ss[|ls|], l, t) && Orderly(site, ss[|ls|], l, t) && Honest(site, ss[|ls|], l)
    ensures IsPath(site, ss', ls') && IsOrderly(site, ss', ls') && IsHonest(site, ss', ls')
    ensures ss'[0] == ss[0] && ss'[|ls'|] == t
  {
    ss', ls' := ss + [t], ls + [l];
    forall i | 0 <= i < |ls'|
      ensures NextAt(site, ss', ls', i) && OrderlyAt(site, ss', ls', i) && HonestAt(site, ss', ls', i)
    {
      if i < |ls| {
        assert NextAt(site, ss, ls, i) && OrderlyAt(site, ss, ls, i) && HonestAt(site, ss, ls, i);
      }
    }
  }

  /** The pass ends before it records the image, and the next one is to make sure of
      the misleading reference. */
  lemma EditedBehindTheGuest(site: Site, s: State, ref: string) returns (ss: seq<State>, ls: seq<Label>)
    requires UniqueName(s.base.cts, site.node, site.name) && s.obj.Some? && s.obj.value.finalizer
    requires !s.obj.value.deleting && !site.naming.blank(ref)
    ensures IsPath(site, ss, ls) && IsOrderly(site, ss, ls) && IsHonest(site, ss, ls) && ss[0] == s
    ensures
      var t := ss[|ls|];
      && t.base == s.base && t.madeFor == s.madeFor && t.obj.Some? && t.pass == Ensured(t.obj.value)
      && t.obj.value.image.ref == ref && t.obj.value.applied == s.obj.value.applied
  {
    ss, ls := [s], [];
    var t := s.(pass := Idle);
    ss, ls := ExtendedHonestly(site, ss, ls, Finish, t);
    t := t.(obj := Some(Edited(t.obj.value).(image := Image(ref, ""))));
    ss, ls := ExtendedHonestly(site, ss, ls, EditImage(Image(ref, "")), t);
    t := t.(pass := Started(t.obj.value));
    ss, ls := ExtendedHonestly(site, ss, ls, Begin, t);
    t := t.(pass := Ensured(t.obj.value));
    ss, ls := ExtendedHonestly(site, ss, ls, Ensure, t);
  }

  /** Asking for the guest finds it and leaves its VMID cached. */
  lemma FoundByName(site: Site, w: World, id: int) returns (nodes: Nodes)
    requires id != 0 && HasName(w.cts, site.node, id, site.name)
    requires CachedId(w.nodes, site.node, site.name).Some? ==> CachedId(w.nodes, site.node, site.name).value == id
    ensures IdPost(w.nodes, w.cts, site.node, site.name, Ok(id), nodes)
    ensures CachedId(nodes, site.node, site.name) == Some(id)
    ensures forall i :: CachedObj(nodes, site.node, i) == CachedObj(w.nodes, site.node, i)
  {
    var cache := if site.node in w.nodes then w.nodes[site.node] else NodeCache(map[], map[]);
    nodes := w.nodes[site.node := cache.(ids := cache.ids[site.name := id])];
  }

  /** The run that ends in a wrong applied image. */
  lemma WrongAdoption(site: Site, s: State, id: int, ref: string) returns (ss: seq<State>, ls: seq<Label>)
    requires TagLaws(site.naming) && !site.cloned && Safe(site, s) && Made(site, s, id)
    requires s.obj.Some? && s.obj.value.finalizer && !s.obj.value.deleting && s.obj.value.applied == NO_IMAGE
    requires CachedObj(s.base.nodes, site.node, id).Some? && !site.naming.blank(ref)
    requires MatchesTags(site, CachedObj(s.base.nodes, site.node, id).value.info.tags, ref)
    requires Tag(site, ref) != Tag(site, s.madeFor[id])
    ensures IsPath(site, ss, ls) && IsOrderly(site, ss, ls) && IsHonest(site, ss, ls) && ss[0] == s
    ensures !TagAgrees(site, ss[|ls|])
  {
    assert MadeOk(site, s, id);
    assert HasName(s.base.cts, site.node, id, site.name);
    ss, ls := EditedBehindTheGuest(site, s, ref);
    var t := ss[|ls|];
    var o := t.obj.value;
    var nodes := FoundByName(site, t.base, id);
    t := t.(base := t.base.(nodes := nodes), pass := Checked(o, true));
    ss, ls := ExtendedHonestly(site, ss, ls, CheckExists(Ok(id)), t);
    var read := CachedObj(nodes, site.node, id).value;
    var r := ReadTags(id, Ok(read));
    var u := t.(pass := Bootstrapping(o));
    ss, ls := ExtendedHonestly(site, ss, ls, r, u);
    u := u.(obj := Some(Patched(o, o.image)), pass := Settled(Patched(o, o.image)));
    ss, ls := ExtendedHonestly(site, ss, ls, Bootstrap, u);
    assert Made(site, u, id);
  }

  /** No orderly and honest continuation ever records an image the guest does not have. */
  ghost predicate NeverLies(site: Site, s: State) {
    forall ss, ls :: IsPath(site, ss, ls) && IsOrderly(site, ss, ls) && IsHonest(site, ss, ls) && ss[0] == s ==>
      TagAgrees(site, ss[|ls|])
  }

  /** The exact condition on a creation: the applied image is true ever after if and
      only if no misleading object is cached under the VMID the guest gets, while the
      object may still adopt it. */
  lemma NeverLiesExactly(site: Site, s: State, l: Label, s': State)
    requires TagLaws(site.naming) && Safe(site, s) && Truthful(site, s)
    requires l.CreateGuest? && Next(site, s, l, s') && Orderly(site, s, l, s')
    ensures NeverLies(site, s') <==> !Harmful(site, s, l)
  {
    StepKeepsSafe(site, s, l, s');
    if Harmful(site, s, l) {
      var tags := CachedObj(s.base.nodes, site.node, l.id).value.info.tags;
      var ref :| !site.naming.blank(ref) && MatchesTags(site, tags, ref) && Tag(site, ref) != l.ct.tags;
      assert CachedObj(s'.base.nodes, site.node, l.id) == CachedObj(s.base.nodes, site.node, l.id);
      var ss, ls := WrongAdoption(site, s', l.id, ref);
    } else {
      StepKeepsTruth(site, s, l, s');
      forall ss, ls |
        IsPath(site, ss, ls) && IsOrderly(site, ss, ls) && IsHonest(site, ss, ls) && ss[0] == s'
        ensures TagAgrees(site, ss[|ls|])
      {
        PathKeepsTruth(site, ss, ls, |ls|);
      }
    }
  }
}
