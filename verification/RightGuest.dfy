/** A guest made of the wanted image is not made again: when a crash between creating it
    and recording its image leads to a needless replacement
    (internal/controller/proxmox/container_controller.go:350-424). */
module RightGuest {
  import opened Wrappers
  import opened ContainerHost
  import opened Containers
  import opened Coherence
  import opened Lifecycle
  import opened Replacement

  /** There are tags, and they do not name the image. */
  ghost predicate Foreign(site: Site, tags: string, ref: string) {
    !site.naming.blank(tags) && !site.naming.hasTag(tags, ref)
  }

  /** The guest is created under a VMID whose cached object, left over from another
      container, has foreign tags; and the object is open to reading them. */
  ghost predicate Spoils(site: Site, s: State, l: Label) {
    && l.CreateGuest? && s.pass.MustCreate?
    && s.obj.Some? && s.obj.value.applied == NO_IMAGE && !s.obj.value.deleting
    && CachedObj(s.base.nodes, site.node, l.id).Some?
    && Foreign(site, CachedObj(s.base.nodes, site.node, l.id).value.info.tags, s.pass.snap.image.ref)
  }

  ghost predicate SparesAt(site: Site, ss: seq<State>, ls: seq<Label>, i: nat)
    requires |ss| == |ls| + 1 && i < |ls|
  {
    !Spoils(site, ss[i], ls[i])
  }

  ghost predicate IsSparing(site: Site, ss: seq<State>, ls: seq<Label>) {
    |ss| == |ls| + 1 && forall i :: 0 <= i < |ls| ==> SparesAt(site, ss, ls, i)
  }

  /** A guest made of the very image that is wanted is deleted to be made again, although
      no other image was ever recorded for it. */
  ghost predicate WasteAt(site: Site, ss: seq<State>, ls: seq<Label>, i: nat)
    requires |ss| == |ls| + 1 && i < |ls|
  {
    && ls[i].DeleteForReplace? && ls[i].done.Ok? && ss[i].pass.Replacing?
    && ss[i].pass.snap.applied == NO_IMAGE && Made(site, ss[i], ls[i].id)
    && ss[i].madeFor[ls[i].id] == ss[i].pass.snap.image.ref
  }

  // ---------------------------------------------------------------- invariant

  /** What is cached under the VMID of a made guest is not foreign to it while it may still
      be read. */
  ghost predicate GuestShown(site: Site, s: State, id: int) {
    Made(site, s, id) && Adoptable(s) && CachedObj(s.base.nodes, site.node, id).Some? ==>
      !Foreign(site, CachedObj(s.base.nodes, site.node, id).value.info.tags, s.madeFor[id])
  }

  /** A pass that replaces for the sake of tags has no made guest of the wanted image. */
  ghost predicate PassSpares(site: Site, s: State) {
    s.pass.Replacing? && s.pass.snap.applied == NO_IMAGE ==>
      forall id :: Made(site, s, id) ==> s.madeFor[id] != s.pass.snap.image.ref
  }

  ghost predicate Sparing(site: Site, s: State) {
    (forall id :: GuestShown(site, s, id)) && PassSpares(site, s)
  }

  lemma OwnTagIsNotForeign(site: Site, ref: string)
    requires TagLaws(site.naming) && !site.naming.blank(ref)
    ensures !Foreign(site, Tag(site, ref), ref)
  {
  }

  /** An operation on the host, other than an own creation. */
  lemma HostSpares(site: Site, s: State, op: Op, s': State)
    requires TagLaws(site.naming) && Safe(site, s) && Truthful(site, s) && Sparing(site, s) && Took(s.base, op, s'.base)
    requires s'.obj == s.obj && s'.madeFor == Forget(site, s.madeFor, op) && MadeRemain(site, s, s')
    requires Adoptable(s') ==> Adoptable(s)
    ensures forall id :: GuestShown(site, s', id)
  {
    forall id ensures GuestShown(site, s', id) {
      assert GuestShown(site, s, id) && GuestTrue(site, s, id);
      if Made(site, s', id) {
        ObjectEffect(s.base, op, s'.base, site.node, id);
        OwnTagIsNotForeign(site, s.madeFor[id]);
      }
    }
  }

  /** A step that leaves the host alone. */
  lemma ObjectSpares(site: Site, s: State, s': State)
    requires Sparing(site, s) && s'.base == s.base && s'.madeFor == s.madeFor
    requires Adoptable(s') ==> Adoptable(s) || NoneMade(site, s)
    ensures forall id :: GuestShown(site, s', id)
    ensures s'.pass == s.pass ==> PassSpares(site, s')
  {
    forall id ensures (Made(site, s', id) <==> Made(site, s, id)) && GuestShown(site, s', id) {
      assert GuestShown(site, s, id);
    }
  }

  lemma OthersSpare(site: Site, s: State, l: Label, s': State)
    requires TagLaws(site.naming) && Safe(site, s) && Truthful(site, s) && Sparing(site, s)
    requires OthersNext(site, s, l, s') && Honest(site, s, l)
    ensures Sparing(site, s')
  {
    if l.Outside? {
      HostStep(site, s, l.op, s');
      HostSpares(site, s, l.op, s');
    } else if l.Crash? {
      HostStep(site, s, Restart, s');
      HostSpares(site, s, Restart, s');
    } else {
      ObjectSpares(site, s, s');
    }
  }

  /** The tags that send a pass to replace are foreign to the wanted image. */
  lemma ForeignTagsRead(site: Site, s: State, l: Label, nodes: Nodes, id: int)
    requires TagLaws(site.naming) && Safe(site, s) && Truthful(site, s) && Sparing(site, s)
    requires l.ReadTags? && l.read.Ok? && Adoptable(s) && s.pass.Checked? && Made(site, s, id)
    requires GetPost(s.base.nodes, s.base.cts, site.node, site.name, l.id, l.read, nodes)
    requires Foreign(site, l.read.value.info.tags, s.pass.snap.image.ref)
    ensures s.madeFor[id] != s.pass.snap.image.ref
  {
    assert MadeOk(site, s, id) && GuestTrue(site, s, id) && GuestShown(site, s, id);
    assert HasName(s.base.cts, site.node, id, site.name);
    assert l.id == id;
    OwnTagIsNotForeign(site, s.madeFor[id]);
  }

  lemma ReadSpares(site: Site, s: State, l: Label, s': State)
    requires TagLaws(site.naming) && Safe(site, s) && Truthful(site, s) && Sparing(site, s)
    requires KeepNext(site, s, l, s') && (l.CheckExists? || l.ReadTags?)
    ensures Sparing(site, s')
  {
    var op := if l.CheckExists? then Lookup(site.node, site.name, l.found) else Get(site.node, site.name, l.id, l.read);
    HostStep(site, s, op, s');
    HostSpares(site, s, op, s');
    if l.ReadTags? && s'.pass.Replacing? {
      forall id | Made(site, s', id) ensures s'.madeFor[id] != s'.pass.snap.image.ref {
        ForeignTagsRead(site, s, l, s'.base.nodes, id);
      }
    }
  }

  lemma CreateSpares(site: Site, s: State, l: Label, s': State)
    requires Safe(site, s) && KeepNext(site, s, l, s') && l.CreateGuest? && Orderly(site, s, l, s')
    requires !Spoils(site, s, l)
    ensures Sparing(site, s')
  {
    CreateKeepsSafe(site, s, l, s');
    assert CachedObj(s'.base.nodes, site.node, l.id) == CachedObj(s.base.nodes, site.node, l.id);
  }

  lemma KeepSpares(site: Site, s: State, l: Label, s': State)
    requires TagLaws(site.naming) && Safe(site, s) && Truthful(site, s) && Sparing(site, s)
    requires KeepNext(site, s, l, s') && Orderly(site, s, l, s') && !Spoils(site, s, l)
    ensures Sparing(site, s')
  {
    if l.CheckExists? || l.ReadTags? {
      ReadSpares(site, s, l, s');
    } else if l.CreateGuest? {
      CreateSpares(site, s, l, s');
    } else {
      ObjectSpares(site, s, s');
    }
  }

  lemma DeleteSpares(site: Site, s: State, l: Label, s': State)
    requires TagLaws(site.naming) && Safe(site, s) && Truthful(site, s) && Sparing(site, s)
    requires DeleteNext(site, s, l, s')
    ensures Sparing(site, s')
  {
    if l.DeleteForReplace? || l.RemoveGuest? {
      var op := Op.Delete(site.node, site.name, l.id, l.done, l.calls);
      HostStep(site, s, op, s');
      HostSpares(site, s, op, s');
    } else {
      ObjectSpares(site, s, s');
    }
  }

  lemma StepSpares(site: Site, s: State, l: Label, s': State)
    requires TagLaws(site.naming) && Safe(site, s) && Truthful(site, s) && Sparing(site, s)
    requires Next(site, s, l, s') && Orderly(site, s, l, s') && Honest(site, s, l) && !Spoils(site, s, l)
    ensures Sparing(site, s')
  {
    if OthersNext(site, s, l, s') {
      OthersSpare(site, s, l, s');
    } else if KeepNext(site, s, l, s') {
      KeepSpares(site, s, l, s');
    } else {
      DeleteSpares(site, s, l, s');
    }
  }

  // --------------------------------------------------------------------- runs

  lemma StepAtSpares(site: Site, ss: seq<State>, ls: seq<Label>, i: nat)
    requires TagLaws(site.naming) && |ss| == |ls| + 1 && i < |ls| && NextAt(site, ss, ls, i)
    requires Safe(site, ss[i]) && Truthful(site, ss[i]) && Sparing(site, ss[i])
    requires OrderlyAt(site, ss, ls, i) && HonestAt(site, ss, ls, i) && SparesAt(site, ss, ls, i)
    ensures Sparing(site, ss[i + 1])
  {
    StepSpares(site, ss[i], ls[i], ss[i + 1]);
  }

  lemma {:induction false} PathSpares(site: Site, ss: seq<State>, ls: seq<Label>, n: nat)
    requires TagLaws(site.naming) && IsPath(site, ss, ls)
    requires Safe(site, ss[0]) && Truthful(site, ss[0]) && Sparing(site, ss[0])
    requires IsOrderly(site, ss, ls) && IsHonest(site, ss, ls) && IsSparing(site, ss, ls) && n <= |ls|
    ensures Sparing(site, ss[n])
  {
    if n > 0 {
      PathSpares(site, ss, ls, n - 1);
      PathKeepsTruth(site, ss, ls, n - 1);
      StepAtSpares(site, ss, ls, n - 1);
    }
  }

  /** In every orderly, honest and sparing run no guest made of the wanted image is deleted
      to be made again, wherever the operator crashed before it recorded that image. */
  lemma RightGuestIsKept(site: Site, ss: seq<State>, ls: seq<Label>, n: nat)
    requires TagLaws(site.naming) && !site.cloned && IsPath(site, ss, ls) && Init(site, ss[0])
    requires !site.naming.blank(ss[0].obj.value.image.ref) && n < |ls|
    requires IsOrderly(site, ss, ls) && IsHonest(site, ss, ls) && IsSparing(site, ss, ls)
    ensures !WasteAt(site, ss, ls, n)
  {
    PathKeepsTruth(site, ss, ls, n);
    PathSpares(site, ss, ls, n);
  }

  // -------------------------------------------- why a creation must not spoil

  lemma ExtendedSparingly(site: Site, ss: seq<State>, ls: seq<Label>, l: Label, t: State)
    returns (ss': seq<State>, ls': seq<Label>)
    requires IsPath(site, ss, ls) && IsOrderly(site, ss, ls) && IsHonest(site, ss, ls) && !l.CreateGuest?
    requires Next(site, ss[|ls|], l, t) && Orderly(site, ss[|ls|], l, t) && Honest(site, ss[|ls|], l)
    requires forall i :: 0 <= i < |ls| ==> !ls[i].CreateGuest?
    ensures IsPath(site, ss', ls') && IsOrderly(site, ss', ls') && IsHonest(site, ss', ls')
    ensures ss' == ss + [t] && ls' == ls + [l] && forall i :: 0 <= i < |ls'| ==> !ls'[i].CreateGuest?
  {
    ss', ls' := ss + [t], ls + [l];
    forall i | 0 <= i < |ls'|
      ensures NextAt(site, ss', ls', i) && OrderlyAt(site, ss', ls', i) && HonestAt(site, ss', ls', i)
    {
      if i < |ls| {
        assert NextAt(site, ss, ls, i) && OrderlyAt(site, ss, ls, i) && HonestAt(site, ss, ls, i);
      }
    }
  }

  /** The pass ends before it records the image, and the next one looks for the guest. */
  lemma LookedFor(site: Site, s: State, id: int, image: Image) returns (ss: seq<State>, ls: seq<Label>)
    requires UniqueName(s.base.cts, site.node, site.name) && s.obj.Some? && s.obj.value.finalizer
    requires !s.obj.value.deleting && !site.naming.blank(image.ref)
    requires id != 0 && HasName(s.base.cts, site.node, id, site.name)
    requires CachedId(s.base.nodes, site.node, site.name).Some? ==>
      CachedId(s.base.nodes, site.node, site.name).value == id
    ensures IsPath(site, ss, ls) && IsOrderly(site, ss, ls) && IsHonest(site, ss, ls) && ss[0] == s
    ensures forall i :: 0 <= i < |ls| ==> !ls[i].CreateGuest?
    ensures
      var t := ss[|ls|];
      && t.base.cts == s.base.cts && t.madeFor == s.madeFor && t.obj.Some? && t.pass == Checked(t.obj.value, true)
      && t.obj.value.image == image && t.obj.value.applied == s.obj.value.applied
      && CachedId(t.base.nodes, site.node, site.name) == Some(id)
      && forall i :: CachedObj(t.base.nodes, site.node, i) == CachedObj(s.base.nodes, site.node, i)
  {
    ss, ls := [s], [];
    var t := s.(pass := Idle);
    ss, ls := ExtendedSparingly(site, ss, ls, Finish, t);
    t := t.(obj := Some(Edited(t.obj.value).(image := image)));
    ss, ls := ExtendedSparingly(site, ss, ls, EditImage(image), t);
    t := t.(pass := Started(t.obj.value));
    ss, ls := ExtendedSparingly(site, ss, ls, Begin, t);
    t := t.(pass := Ensured(t.obj.value));
    ss, ls := ExtendedSparingly(site, ss, ls, Ensure, t);
    var nodes := FoundByName(site, t.base, id);
    t := t.(base := t.base.(nodes := nodes), pass := Checked(t.obj.value, true));
    ss, ls := ExtendedSparingly(site, ss, ls, CheckExists(Ok(id)), t);
  }

  /** Deleting what the name is cached for, without a fault. */
  lemma Deleted(site: Site, w: World, id: int) returns (calls: seq<Call>, w': World)
    requires HasName(w.cts, site.node, id, site.name) && CachedId(w.nodes, site.node, site.name) == Some(id)
    requires UniqueName(w.cts, site.node, site.name)
    ensures UniqueName(w'.cts, site.node, site.name)
    ensures Took(w, Op.Delete(site.node, site.name, id, Ok(()), calls), w') && w'.cts == w.cts - {(site.node, id)}
  {
    var cache := w.nodes[site.node];
    calls := if w.cts[(site.node, id)].running then [StopCall(site.node, id), DestroyCall(site.node, id)]
             else [DestroyCall(site.node, id)];
    w' := World(w.nodes[site.node := NodeCache(cache.ids - {site.name}, cache.objs - {id})],
                w.cts - {(site.node, id)});
    assert forall i :: HasName(w'.cts, site.node, i, site.name) ==> HasName(w.cts, site.node, i, site.name);
  }

  /** The run that replaces the right guest. */
  lemma Wasted(site: Site, s: State, id: int, image: Image) returns (ss: seq<State>, ls: seq<Label>)
    requires TagLaws(site.naming) && !site.cloned && Safe(site, s) && Made(site, s, id)
    requires s.obj.Some? && s.obj.value.finalizer && !s.obj.value.deleting && s.obj.value.applied == NO_IMAGE
    requires image.ref == s.madeFor[id] && !site.naming.blank(image.ref)
    requires CachedObj(s.base.nodes, site.node, id).Some?
    requires Foreign(site, CachedObj(s.base.nodes, site.node, id).value.info.tags, image.ref)
    ensures IsPath(site, ss, ls) && IsOrderly(site, ss, ls) && IsHonest(site, ss, ls) && ss[0] == s
    ensures IsSparing(site, ss, ls) && |ls| > 0 && WasteAt(site, ss, ls, |ls| - 1)
  {
    assert MadeOk(site, s, id);
    assert HasName(s.base.cts, site.node, id, site.name);
    ss, ls := LookedFor(site, s, id, image);
    var t := ss[|ls|];
    var read := CachedObj(t.base.nodes, site.node, id).value;
    var u := t.(pass := Replacing(t.obj.value));
    ss, ls := ExtendedSparingly(site, ss, ls, ReadTags(id, Ok(read)), u);
    var calls, w := Deleted(site, u.base, id);
    var v := u.(base := w, pass := Cleared(u.obj.value));
    ss, ls := ExtendedSparingly(site, ss, ls, DeleteForReplace(id, Ok(()), calls), v);
    forall i | 0 <= i < |ls| ensures SparesAt(site, ss, ls, i) {
      assert !ls[i].CreateGuest?;
    }
  }

  /** No orderly, honest and sparing continuation ever replaces a right guest. */
  ghost predicate NeverWastes(site: Site, s: State) {
    forall ss, ls ::
      IsPath(site, ss, ls) && IsOrderly(site, ss, ls) && IsHonest(site, ss, ls) && IsSparing(site, ss, ls) &&
      ss[0] == s ==>
        forall i :: 0 <= i < |ls| ==> !WasteAt(site, ss, ls, i)
  }

  /** The exact condition on a creation: the guest is never replaced for the sake of the
      image that it has if and only if no object with foreign tags is cached under the
      VMID it gets, while the object may still read them. */
  lemma NeverWastesExactly(site: Site, s: State, l: Label, s': State)
    requires TagLaws(site.naming) && Safe(site, s) && Truthful(site, s) && Sparing(site, s)
    requires l.CreateGuest? && Next(site, s, l, s') && Orderly(site, s, l, s') && Honest(site, s, l)
    ensures NeverWastes(site, s') <==> !Spoils(site, s, l)
  {
    StepKeepsSafe(site, s, l, s');
    if Spoils(site, s, l) {
      assert CachedObj(s'.base.nodes, site.node, l.id) == CachedObj(s.base.nodes, site.node, l.id);
      var ss, ls := Wasted(site, s', l.id, s.pass.snap.image);
    } else {
      StepKeepsTruth(site, s, l, s');
      StepSpares(site, s, l, s');
      forall ss, ls |
        IsPath(site, ss, ls) && IsOrderly(site, ss, ls) && IsHonest(site, ss, ls) && IsSparing(site, ss, ls) &&
        ss[0] == s'
        ensures forall i :: 0 <= i < |ls| ==> !WasteAt(site, ss, ls, i)
      {
        forall i: nat | i < |ls| ensures !WasteAt(site, ss, ls, i) {
          PathKeepsTruth(site, ss, ls, i);
          PathSpares(site, ss, ls, i);
        }
      }
    }
  }
}
