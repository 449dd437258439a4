/** The Container reconciler, call by call
    (internal/controller/proxmox/container_controller.go). Every effect, its own and
    that of others, is an entry in a ghost history, so what happens is a run of the
    machine in Lifecycle, however others interfere between two calls. */
module ContainerController {
  import opened Wrappers
  import opened ContainerHost
  import opened Containers
  import opened Coherence
  import opened Lifecycle
  import opened Replacement
  import opened RightGuest
  import opened ContainerPass

  class ContainerReconciler {
    const site: Site
    const client: ProxmoxClient
    /** The name of the template a cloned guest is made from. */
    const template: string
    const cores: int
    const memory: int
    const autoStart: bool
    /** The object as the API server holds it. */
    var store: Option<Obj>
    ghost var madeFor: map<int, string>
    ghost var leftProtected: bool
    ghost var pass: Pass
    ghost var states: seq<State>
    ghost var labels: seq<Label>

    ghost function Now(): State
      reads this, client, client.host
    {
      State(World(client.nodes, client.host.cts), store, madeFor, leftProtected, pass)
    }

    /** What happened so far is a run of the machine that ends here. */
    ghost predicate Ready()
      reads this, client, client.host
    {
      && site.node != "" && ValidCts(client.host.cts) && ValidNodes(client.nodes)
      && IsPath(site, states, labels) && Init(site, states[0]) && states[|labels|] == Now()
    }

    /** The run so far is good, and nothing is in the way of its staying so. */
    ghost predicate Tidy()
      reads this, client, client.host
    {
      Good(site, states, labels) && Clear(site, Now().base) && Clean(site, Now().base)
    }

    /** So in an orderly history, whoever took part in it, no guest is ever orphaned. */
    lemma NeverOrphaned()
      requires Ready() && IsOrderly(site, states, labels)
      ensures !Orphaned(site, Now())
    {
      PathKeepsSafe(site, states, labels, |labels|);
    }

    /** And in one that is honest too, the applied image is that of the guest. */
    lemma AppliedIsTrue()
      requires Ready() && IsOrderly(site, states, labels) && IsHonest(site, states, labels)
      requires TagLaws(site.naming) && !site.cloned && !site.naming.blank(states[0].obj.value.image.ref)
      ensures TagAgrees(site, Now())
    {
      PathKeepsTruth(site, states, labels, |labels|);
    }

    /** A guest made of the very image that is wanted, with no image recorded yet. */
    ghost predicate HasRightGuest()
      reads this, client, client.host
    {
      && store.Some? && !store.value.deleting && store.value.applied == NO_IMAGE
      && exists id :: Made(site, Now(), id) && madeFor[id] == store.value.image.ref
    }

    /** In a good history such a guest is found as it is. */
    lemma RightGuestIsFound()
      requires Ready() && Good(site, states, labels) && HasRightGuest()
      requires TagLaws(site.naming) && !site.cloned && !site.naming.blank(states[0].obj.value.image.ref)
      ensures RightlyThere(site, Now().base, store.value.image.ref)
    {
      PathKeepsTruth(site, states, labels, |labels|);
      PathSpares(site, states, labels, |labels|);
      var id :| Made(site, Now(), id) && madeFor[id] == store.value.image.ref;
      RightGuestIsThere(site, Now(), id);
    }

    /** And none was ever made again. */
    lemma NothingWasted()
      requires Ready() && Good(site, states, labels)
      requires TagLaws(site.naming) && !site.cloned && !site.naming.blank(states[0].obj.value.image.ref)
      ensures forall i :: 0 <= i < |labels| ==> !WasteAt(site, states, labels, i)
    {
      forall i: nat | i < |labels| ensures !WasteAt(site, states, labels, i) {
        RightGuestIsKept(site, states, labels, i);
      }
    }

    /** A fresh operator process and a new object. */
    constructor (site: Site, client: ProxmoxClient, template: string, cores: int, memory: int, autoStart: bool, o: Obj)
      requires site.node != "" && client.nodes == map[] && ValidCts(client.host.cts)
      requires UniqueName(client.host.cts, site.node, site.name)
      requires o.applied == NO_IMAGE && !o.finalizer && !o.deleting
      ensures this.client == client && this.site == site && this.template == template && store == Some(o)
      ensures Ready() && Tidy() && pass.Idle?
    {
      this.site, this.client, this.template, this.cores, this.memory := site, client, template, cores, memory;
      this.autoStart, store := autoStart, Some(o);
      madeFor, leftProtected, pass := map[], false, Idle;
      states, labels := [State(World(client.nodes, client.host.cts), Some(o), map[], false, Idle)], [];
    }

    ghost method Log(l: Label)
      requires site.node != "" && IsPath(site, states, labels) && Init(site, states[0])
      requires Valid(states[|labels|].base)
      requires Next(site, states[|labels|], l, Now())
      modifies this`states, this`labels
      ensures Ready() && states == old(states) + [Now()]
      ensures
        old(Good(site, states, labels) && InOrder(site, states[|labels|], l, Now())) ==> Good(site, states, labels)
    {
      ExtendPath(site, states, labels, l, Now());
      NextKeepsValid(site, states[|labels|], l, Now());
      if Good(site, states, labels) && InOrder(site, states[|labels|], l, Now()) {
        ExtendGood(site, states, labels, l, Now());
      }
      states, labels := states + [Now()], labels + [l];
    }

    /** The pass ends, with an error or with nothing left to do. */
    ghost method Stop()
      requires Ready()
      modifies this`pass, this`states, this`labels
      ensures Ready() && pass.Idle? && old(states) <= states
      ensures old(Tidy()) ==> Tidy()
    {
      pass := Idle;
      Log(Finish);
    }

    // -------------------------------------------------------------- other actors

    method CreateByHand(node: string, id: int, ct: CT)
      requires Ready()
      modifies this, client.host
      ensures Ready() && old(states) <= states && pass == old(pass) && client.host.calls == old(client.host.calls)
    {
      if id > 0 && node != "" && (node, id) !in client.host.cts {
        client.host.Create(node, id, ct);
        madeFor := Forget(site, madeFor, OutsideCreate(node, id, ct));
        Log(Outside(OutsideCreate(node, id, ct)));
      }
    }

    method DestroyByHand(node: string, id: int)
      requires Ready()
      modifies this, client.host
      ensures Ready() && old(states) <= states && pass == old(pass) && client.host.calls == old(client.host.calls)
    {
      client.host.cts := client.host.cts - {(node, id)};
      Log(Outside(OutsideDestroy(node, id)));
    }

    method ChangeByHand(node: string, id: int, ct: CT)
      requires Ready()
      modifies this, client.host
      ensures Ready() && old(states) <= states && pass == old(pass) && client.host.calls == old(client.host.calls)
    {
      if (node, id) in client.host.cts && client.host.cts[(node, id)].name == ct.name {
        client.host.cts := client.host.cts[(node, id) := ct];
        Log(Outside(Change(node, id, ct)));
      }
    }

    /** Somebody writes to the object. */
    method EditObject(image: Image, on: bool)
      requires Ready()
      modifies this
      ensures Ready() && old(states) <= states && pass == old(pass)
    {
      if store.None? {
        return;
      }
      var o := store.value;
      if
      case true =>
        store := Some(Edited(o).(image := image));
        Log(EditImage(image));
      case true =>
        store := Some(Edited(o).(isProtected := on));
        Log(SetProtection(on));
      case o.finalizer =>
        store := Some(Edited(o).(deleting := true));
        Log(RequestDelete);
      case !o.finalizer =>
        store, leftProtected := None, o.isProtected;
        Log(RequestDelete);
    }

    /** What the watcher does for some guest: it reads it past the cache. */
    method Watch(name: string, node: string, f: Faults)
      returns (ghost id: int, ghost answer: Result<CtObj, ClientError>)
      requires Ready()
      modifies this, client
      ensures Ready() && old(states) <= states && pass == old(pass) && store == old(store)
      ensures old(Tidy()) ==> Tidy()
      ensures RefreshPost(old(client.nodes), client.host.cts, node, name, id, answer, client.nodes)
      ensures f == NO_FAULTS ==> answer.Ok? || answer == Err(NotFound)
    {
      var read;
      read, id := client.FetchExternalResource(name, node, f);
      answer :=
        if read.Ok? then Ok(read.value) else if read.error.ReadFailed? then Err(read.error.e) else Err(NotFound);
      OwnOpKeepsTidy(site, old(Now().base), Op.Poll(node, name, id, answer), Now().base);
      Log(Outside(Op.Poll(node, name, id, answer)));
    }

    /** Before any call of a pass people may change the host and the object, and the
        watcher polls. */
    method Others(busy: bool)
      requires Ready()
      modifies this, client, client.host
      ensures Ready() && old(states) <= states && pass == old(pass) && client.host.calls == old(client.host.calls)
      ensures !busy ==> unchanged(this) && unchanged(client) && unchanged(client.host)
    {
      if !busy {
        return;
      }
      var todo: nat := *;
      while todo > 0
        invariant Ready() && old(states) <= states && pass == old(pass)
        invariant client.host.calls == old(client.host.calls)
      {
        OneOther();
        todo := todo - 1;
      }
    }

    method OneOther()
      requires Ready()
      modifies this, client, client.host
      ensures Ready() && old(states) <= states && pass == old(pass) && client.host.calls == old(client.host.calls)
    {
      var name: string, node: string, id: int, ct: CT, image: Image, on: bool, f: Faults := *, *, *, *, *, *, *;
      if
      case true => CreateByHand(node, id, ct);
      case true => DestroyByHand(node, id);
      case true => ChangeByHand(node, id, ct);
      case true => EditObject(image, on);
      case true =>
        ghost var at, answer;
        at, answer := Watch(name, node, f);
    }

    // ------------------------------------------------------------ the guest wanted

    method AddFinalizer(c: Obj) returns (r: Option<Obj>)
      requires Ready() && pass == Started(c) && !c.deleting && !c.finalizer
      modifies this
      ensures Ready() && old(states) <= states && leftProtected == old(leftProtected) && madeFor == old(madeFor)
      ensures old(Tidy()) ==> Tidy()
      ensures r.Some? <==> old(store).Some? && old(store).value.version == c.version
      ensures
        if r.Some? then store == r == Some(Edited(c).(finalizer := true)) && pass == Ensured(r.value)
        else store == old(store)
    {
      if store.None? || store.value.version != c.version {
        pass := Idle;
        Log(Ensure);
        return None;
      }
      var o := Edited(c).(finalizer := true);
      store, pass := Some(o), Ensured(o);
      Log(Ensure);
      r := Some(o);
    }

    /** The finalizer is stored before anything else; a conflict ends the pass. */
    method HandleFinalizer(c: Obj, w: Weather) returns (r: Option<Obj>)
      requires Ready() && pass == Started(c) && !c.deleting
      modifies this, client, client.host
      ensures Ready() && old(states) <= states && client.host.calls == old(client.host.calls)
      ensures Quiet(w) ==> Now().base == old(Now().base) && (old(Tidy()) ==> Tidy())
      ensures r.Some? ==> pass == Ensured(r.value) && r.value.finalizer
      ensures r.Some? ==> SameWish(c, r.value) && r.value.applied == c.applied
      ensures c.finalizer ==> r == Some(c) && store == old(store)
      ensures Quiet(w) && old(store) == Some(c) ==> store == if r.Some? then r else Some(c)
      ensures Calm(w) && old(store) == Some(c) ==> r.Some?
    {
      if c.finalizer {
        pass := Ensured(c);
        Log(Ensure);
        return Some(c);
      }
      Others(w.busy(AtFinalizer));
      if w.fails(AtFinalizer) {
        return None;
      }
      r := AddFinalizer(c);
    }

    method AskExists(f: Faults) returns (found: Option<bool>, ghost id: Result<int, ClientError>)
      requires Ready()
      modifies client
      ensures Took(old(Now().base), Lookup(site.node, site.name, id), Now().base) && ValidNodes(client.nodes)
      ensures found == if id.Ok? then Some(id.value != 0) else None
      ensures Clear(site, old(Now().base)) && Clean(site, old(Now().base)) ==>
        Clear(site, Now().base) && Clean(site, Now().base)
      ensures UpToDate(site, old(Now().base)) ==> UpToDate(site, Now().base)
      ensures old(Runs(site, Now().base)) ==> Runs(site, Now().base)
      ensures SameSight(site, old(Now().base), Now().base)
      ensures f == NO_FAULTS ==> found.Some?
      ensures found.Some? ==> (found.value <==> CachedId(client.nodes, site.node, site.name).Some?)
      ensures found == Some(false) ==> NoneNamed(client.host.cts, site.node, site.name)
    {
      ghost var before := Now().base;
      var answer;
      answer, id := client.ContainerExists(site.name, site.node, f);
      found := if answer.Ok? then Some(answer.value) else None;
      OwnOpKeepsTidy(site, before, Lookup(site.node, site.name, id), Now().base);
      LookKeepsSize(site, cores, memory, before, Lookup(site.node, site.name, id), Now().base);
      LookupKeepsSight(site, before, id, Now().base);
      if UpToDate(site, before) {
        LookKeepsUpToDate(site, before, Lookup(site.node, site.name, id), Now().base);
      }
    }

    method ExistsNow(c: Obj, f: Faults) returns (found: Option<bool>, ghost id: Result<int, ClientError>)
      requires Ready() && pass == Ensured(c)
      modifies this, client
      ensures Ready() && old(states) <= states && store == old(store)
      ensures old(Tidy()) ==> Tidy()
      ensures Took(old(Now().base), Lookup(site.node, site.name, id), Now().base)
      ensures found == if id.Ok? then Some(id.value != 0) else None
      ensures found.Some? ==> pass == Checked(c, found.value)
      ensures found.Some? ==> (found.value <==> CachedId(client.nodes, site.node, site.name).Some?)
      ensures found == Some(false) ==> NoneNamed(client.host.cts, site.node, site.name)
      ensures UpToDate(site, old(Now().base)) ==> UpToDate(site, Now().base)
      ensures old(Runs(site, Now().base)) ==> Runs(site, Now().base)
      ensures SameSight(site, old(Now().base), Now().base)
      ensures f == NO_FAULTS ==> found.Some?
    {
      found, id := AskExists(f);
      pass := if found.Some? then Checked(c, found.value) else Idle;
      Log(Label.CheckExists(id));
    }

    method CheckExists(c: Obj, w: Weather) returns (found: Option<bool>)
      requires Ready() && pass == Ensured(c)
      modifies this, client, client.host
      ensures Ready() && old(states) <= states && client.host.calls == old(client.host.calls)
      ensures Quiet(w) ==>
        store == old(store) && client.host.cts == old(client.host.cts) && (old(Tidy()) ==> Tidy())
      ensures found.Some? ==> pass == Checked(c, found.value)
      ensures found.Some? ==> (found.value <==> CachedId(client.nodes, site.node, site.name).Some?)
      ensures found == Some(false) ==> NoneNamed(client.host.cts, site.node, site.name)
      ensures Quiet(w) && UpToDate(site, old(Now().base)) ==> UpToDate(site, Now().base)
      ensures Quiet(w) && old(Runs(site, Now().base)) ==> Runs(site, Now().base)
      ensures Quiet(w) ==> SameSight(site, old(Now().base), Now().base)
      ensures Calm(w) ==> found.Some?
      ensures Calm(w) ==> (Promising(site, template, c, old(Now().base)) <==> Promising(site, template, c, Now().base))
      ensures Quiet(w) && RightlyThere(site, old(Now().base), c.image.ref) ==>
        RightlyThere(site, Now().base, c.image.ref) && found != Some(false)
    {
      Others(w.busy(AtExists));
      ghost var before, id := Now().base, Err(OtherError);
      found, id := ExistsNow(c, w.host(AtExists));
      if RightlyThere(site, before, c.image.ref) {
        LookupKeepsRight(site, before, id, Now().base, c.image.ref);
      }
      if id.Ok? {
        LookupKeepsPromise(site, template, c, before, id, Now().base);
      }
    }

    /** Asks for the guest to be deleted; one already gone is as good. */
    method DeleteGuest(f: Faults) returns (ok: bool, ghost op: Op)
      requires Ready()
      modifies client, client.host
      ensures OwnDelete(site, op) && Took(old(Now().base), op, Now().base)
      ensures ok <==> op.done.Ok? || op.done == Err(NotFound)
      ensures ok ==>
        && CachedId(client.nodes, site.node, site.name).None?
        && (!Present(site, client.host.cts) <==> Clear(site, old(Now().base)))
        && (Absent(site, Now().base) <==> Clear(site, old(Now().base)))
      ensures Clear(site, old(Now().base)) && Clean(site, old(Now().base)) ==>
        Clear(site, Now().base) && Clean(site, Now().base)
      ensures f == NO_FAULTS ==> ok
      ensures DeletedInTurn(site, old(client.host.cts), old(client.host.calls), client.host.calls)
      ensures !f.stop.Completed? ==> RunningRemain(site, old(client.host.cts), client.host.cts)
    {
      var done;
      ghost var id, sent;
      ghost var before := Now().base;
      done, id, sent := client.DeleteContainer(site.name, site.node, f);
      ok := done.Ok? || done == Err(NotFound);
      op := Op.Delete(site.node, site.name, id, done, sent);
      OwnOpKeepsTidy(site, before, op, Now().base);
      if ok {
        AbsentExactly(site, before, op, Now().base);
      }
    }

    method DeleteNow(c: Obj, f: Faults) returns (ok: bool)
      requires Ready() && pass == Replacing(c)
      modifies this, client, client.host
      ensures Ready() && old(states) <= states && store == old(store)
      ensures pass == if ok then Cleared(c) else Idle
      ensures ok ==> CachedId(client.nodes, site.node, site.name).None?
      ensures ok ==> (!Present(site, client.host.cts) <==> Clear(site, old(Now().base)))
      ensures old(Tidy()) ==> Tidy() && (ok ==> Absent(site, Now().base))
      ensures f == NO_FAULTS ==> ok
      ensures DeletedInTurn(site, old(client.host.cts), old(client.host.calls), client.host.calls)
      ensures !f.stop.Completed? ==> RunningRemain(site, old(client.host.cts), client.host.cts)
    {
      ghost var before, op := Now(), Op.Restart;
      ok, op := DeleteGuest(f);
      pass := if ok then Cleared(c) else Idle;
      assert DeleteNext(site, before, DeleteForReplace(op.id, op.done, op.calls), Now());
      Log(DeleteForReplace(op.id, op.done, op.calls));
    }

    /** Deletes the guest to create it again. */
    method DeleteContainerForReplace(c: Obj, w: Weather) returns (ok: bool)
      requires Ready() && pass == Replacing(c)
      modifies this, client, client.host
      ensures Ready() && old(states) <= states
      ensures ok ==> pass == Cleared(c) && CachedId(client.nodes, site.node, site.name).None?
      ensures Quiet(w) ==> store == old(store)
      ensures Quiet(w) && ok ==> (!Present(site, client.host.cts) <==> Clear(site, old(Now().base)))
      ensures Quiet(w) && old(Tidy()) ==> Tidy() && (ok ==> Absent(site, Now().base))
      ensures Calm(w) ==> ok
      ensures Quiet(w) ==> DeletedInTurn(site, old(client.host.cts), old(client.host.calls), client.host.calls)
      ensures Quiet(w) && !w.host(AtDelete).stop.Completed? ==>
        RunningRemain(site, old(client.host.cts), client.host.cts)
    {
      Others(w.busy(AtDelete));
      ok := DeleteNow(c, w.host(AtDelete));
    }

    method ForgetNow(c: Obj) returns (r: Option<Obj>)
      requires Ready() && pass == Cleared(c)
      modifies this
      ensures Ready() && old(states) <= states
      ensures old(Tidy()) ==> Tidy()
      ensures r == if old(store).Some? then Some(Patched(old(store).value, NO_IMAGE)) else None
      ensures store == r && (r.Some? ==> pass == MustCreate(r.value))
    {
      r := if store.Some? then Some(Patched(store.value, NO_IMAGE)) else None;
      store, pass := r, if r.Some? then MustCreate(r.value) else Idle;
      Log(ClearApplied);
    }

    /** Patches the applied image out of the status. */
    method ForgetImage(c: Obj, w: Weather) returns (r: Option<Obj>)
      requires Ready() && pass == Cleared(c)
      modifies this, client, client.host
      ensures Ready() && old(states) <= states && client.host.calls == old(client.host.calls)
      ensures r.Some? ==> pass == MustCreate(r.value) && store == r && r.value.applied == NO_IMAGE
      ensures Quiet(w) ==> Now().base == old(Now().base) && (old(Tidy()) ==> Tidy())
      ensures Quiet(w) && old(store) == Some(c) && r.Some? ==> SameWish(c, r.value)
      ensures Calm(w) && old(store) == Some(c) ==> r.Some?
    {
      Others(w.busy(AtClear));
      r := None;
      if !w.fails(AtClear) {
        r := ForgetNow(c);
      }
    }

    /** Deletes the guest and forgets its image. */
    method Replace(c: Obj, w: Weather) returns (r: Option<Obj>)
      requires Ready() && pass == Replacing(c)
      modifies this, client, client.host
      ensures Ready() && old(states) <= states
      ensures r.Some? ==> pass == MustCreate(r.value) && store == r
      ensures Quiet(w) && r.Some? ==> CachedId(client.nodes, site.node, site.name).None?
      ensures Quiet(w) && old(Tidy()) ==> Tidy() && (r.Some? ==> Absent(site, Now().base))
      ensures Quiet(w) && old(store) == Some(c) && r.Some? ==> SameWish(c, r.value)
      ensures Calm(w) && old(store) == Some(c) ==> r.Some?
    {
      var ok := DeleteContainerForReplace(c, w);
      if !ok {
        return None;
      }
      r := ForgetImage(c, w);
    }

    /** A look at the guest, perhaps only at its cached object. */
    method LookAtGuest(f: Faults) returns (read: Result<CtObj, ClientError>, ghost id: int)
      requires Ready()
      modifies client
      ensures GetPost(old(client.nodes), client.host.cts, site.node, site.name, id, read, client.nodes)
      ensures ValidNodes(client.nodes)
      ensures Clear(site, old(Now().base)) && Clean(site, old(Now().base)) ==>
        Clear(site, Now().base) && Clean(site, Now().base)
      ensures UpToDate(site, old(Now().base)) ==> UpToDate(site, Now().base)
      ensures f == NO_FAULTS && CachedId(old(client.nodes), site.node, site.name).Some? ==>
        TagsSeen(site, old(Now().base)) == if read.Ok? then Some(read.value.info.tags) else None
      ensures read.Ok? && CachedId(old(client.nodes), site.node, site.name).Some? ==>
        TagsSeen(site, old(Now().base)) == Some(read.value.info.tags)
      ensures f == NO_FAULTS && (site.node, id) in client.host.cts ==> read.Ok?
      ensures read.Ok? ==> CachedId(client.nodes, site.node, site.name).Some?
    {
      ghost var before := Now().base;
      read, id := client.GetContainer(site.name, site.node, f);
      OwnOpKeepsTidy(site, before, Get(site.node, site.name, id, read), Now().base);
      if UpToDate(site, before) {
        LookKeepsUpToDate(site, before, Get(site.node, site.name, id, read), Now().base);
      }
      if CachedId(before.nodes, site.node, site.name).Some? {
        SeenByGet(site, before, id, read, client.nodes);
      }
    }

    method AskTags(c: Obj, f: Faults) returns (adopt: Option<bool>, ghost l: Label)
      requires Ready() && pass == Checked(c, true) && !site.cloned && c.applied == NO_IMAGE != c.image
      modifies this`pass, client
      ensures l.ReadTags? && KeepNext(site, old(Now()), l, Now())
      ensures Took(old(Now().base), Get(site.node, site.name, l.id, l.read), Now().base)
      ensures adopt.Some? ==> pass == if adopt.value then Bootstrapping(c) else Replacing(c)
      ensures adopt.Some? ==> CachedId(client.nodes, site.node, site.name).Some?
      ensures adopt.Some? && CachedId(old(client.nodes), site.node, site.name).Some? ==>
        var seen := TagsSeen(site, old(Now().base));
        seen.Some? && (adopt.value <==> !Foreign(site, seen.value, c.image.ref))
      ensures f == NO_FAULTS && CachedId(old(client.nodes), site.node, site.name).Some? ==>
        (adopt.Some? <==> TagsSeen(site, old(Now().base)).Some?)
    {
      ghost var before, id := Now(), 0;
      var read;
      read, id := LookAtGuest(f);
      if read.Err? {
        adopt, pass := None, Idle;
      } else if MatchesTags(site, read.value.info.tags, c.image.ref) {
        adopt, pass := Some(true), Bootstrapping(c);
      } else {
        adopt, pass := Some(false), Replacing(c);
      }
      l := Label.ReadTags(id, read);
      ReadTagsIsNext(site, before, id, read, Now());
    }

    method TagsNow(c: Obj, f: Faults) returns (adopt: Option<bool>)
      requires Ready() && pass == Checked(c, true) && !site.cloned && c.applied == NO_IMAGE != c.image
      modifies this, client
      ensures Ready() && old(states) <= states && store == old(store)
      ensures old(Tidy()) ==> Tidy()
      ensures adopt.Some? ==> pass == if adopt.value then Bootstrapping(c) else Replacing(c)
      ensures adopt.Some? ==> CachedId(client.nodes, site.node, site.name).Some?
      ensures UpToDate(site, old(Now().base)) ==> UpToDate(site, Now().base)
      ensures adopt.Some? && CachedId(old(client.nodes), site.node, site.name).Some? ==>
        var seen := TagsSeen(site, old(Now().base));
        seen.Some? && (adopt.value <==> !Foreign(site, seen.value, c.image.ref))
      ensures f == NO_FAULTS && CachedId(old(client.nodes), site.node, site.name).Some? ==>
        (adopt.Some? <==> TagsSeen(site, old(Now().base)).Some?)
    {
      ghost var before, l := Now().base, Label.Begin;
      adopt, l := AskTags(c, f);
      OwnOpKeepsTidy(site, before, Get(site.node, site.name, l.id, l.read), Now().base);
      if UpToDate(site, before) {
        LookKeepsUpToDate(site, before, Get(site.node, site.name, l.id, l.read), Now().base);
      }
      Log(l);
    }

    /** Reads the tags of the guest: do they allow to adopt it? */
    method ReadTags(c: Obj, w: Weather) returns (adopt: Option<bool>)
      requires Ready() && pass == Checked(c, true) && !site.cloned && c.applied == NO_IMAGE != c.image
      modifies this, client, client.host
      ensures Ready() && old(states) <= states && client.host.calls == old(client.host.calls)
      ensures adopt.Some? ==> pass == if adopt.value then Bootstrapping(c) else Replacing(c)
      ensures adopt.Some? ==> CachedId(client.nodes, site.node, site.name).Some?
      ensures Quiet(w) ==>
        store == old(store) && client.host.cts == old(client.host.cts) && (old(Tidy()) ==> Tidy())
      ensures Quiet(w) && UpToDate(site, old(Now().base)) ==> UpToDate(site, Now().base)
      ensures Quiet(w) && adopt.Some? && CachedId(old(client.nodes), site.node, site.name).Some? ==>
        var seen := TagsSeen(site, old(Now().base));
        seen.Some? && (adopt.value <==> !Foreign(site, seen.value, c.image.ref))
      ensures Calm(w) && CachedId(old(client.nodes), site.node, site.name).Some? ==>
        (adopt.Some? <==> TagsSeen(site, old(Now().base)).Some?)
    {
      Others(w.busy(AtTags));
      adopt := TagsNow(c, w.host(AtTags));
    }

    method AdoptNow(c: Obj) returns (r: Option<Obj>)
      requires Ready() && pass == Bootstrapping(c)
      modifies this
      ensures Ready() && old(states) <= states
      ensures old(Tidy()) ==> Tidy()
      ensures r == if old(store).Some? then Some(Patched(old(store).value, c.image)) else None
      ensures store == r && (r.Some? ==> pass == Settled(r.value))
    {
      r := if store.Some? then Some(Patched(store.value, c.image)) else None;
      store, pass := r, if r.Some? then Settled(r.value) else Idle;
      Log(Bootstrap);
    }

    /** Records the wanted image as that of the guest found. */
    method Adopt(c: Obj, w: Weather) returns (r: Option<Obj>)
      requires Ready() && pass == Bootstrapping(c)
      modifies this, client, client.host
      ensures Ready() && old(states) <= states && client.host.calls == old(client.host.calls)
      ensures r.Some? ==> pass == Settled(r.value) && store == r && r.value.applied == c.image
      ensures Quiet(w) ==> Now().base == old(Now().base) && (old(Tidy()) ==> Tidy())
      ensures Quiet(w) && old(store) == Some(c) ==> if r.Some? then SameWish(c, r.value) else store == Some(c)
      ensures Calm(w) && old(store) == Some(c) ==> r.Some?
    {
      Others(w.busy(AtPatch));
      r := None;
      if !w.fails(AtPatch) {
        r := AdoptNow(c);
      }
    }

    /** The cases that need no look at the guest. */
    method Decide(c: Obj, found: bool)
      requires Ready() && pass == Checked(c, found)
      requires site.cloned || c.applied == c.image || c.applied != NO_IMAGE || !found
      modifies this
      ensures Ready() && old(states) <= states && store == old(store)
      ensures old(Tidy()) ==> Tidy()
      ensures pass == if !site.cloned && c.applied != c.image && c.applied != NO_IMAGE then Replacing(c)
                      else if found then Settled(c) else MustCreate(c)
    {
      if !site.cloned && c.applied != c.image && c.applied != NO_IMAGE {
        pass := Replacing(c);
      } else if found {
        pass := Settled(c);
      } else {
        pass := MustCreate(c);
      }
      Log(Label.Decide);
    }

    /** Whether the guest is to be kept, with the object as the pass then holds it. */
    method ReconcileOCIImageDrift(c: Obj, found: bool, w: Weather) returns (keep: bool, r: Option<Obj>)
      requires Ready() && pass == Checked(c, found)
      requires found <==> CachedId(client.nodes, site.node, site.name).Some?
      requires found || NoneNamed(client.host.cts, site.node, site.name)
      modifies this, client, client.host
      ensures Ready() && old(states) <= states
      ensures r.Some? ==> pass == if keep then Settled(r.value) else MustCreate(r.value)
      ensures r.Some? && keep ==> found && (site.cloned || r.value.applied == c.image)
      ensures site.cloned || c.applied == c.image ==>
        r == Some(c) && keep == found && client.host.calls == old(client.host.calls) && Now().base == old(Now().base)
      ensures Quiet(w) && old(store) == Some(c) && r.Some? ==> store == r && SameWish(c, r.value)
      ensures Quiet(w) && keep ==>
        client.host.cts == old(client.host.cts) && CachedId(client.nodes, site.node, site.name).Some?
      ensures Quiet(w) && keep && UpToDate(site, old(Now().base)) ==> UpToDate(site, Now().base)
      ensures Quiet(w) && r.Some? && !keep ==> CachedId(client.nodes, site.node, site.name).None?
      ensures Quiet(w) && old(Tidy()) ==> Tidy() && (r.Some? && !keep ==> Absent(site, Now().base))
      ensures Calm(w) && old(store) == Some(c) ==>
        (r.Some? && (keep ==> Present(site, client.host.cts)) &&
         (!keep && site.cloned ==> TemplateOk(site, template, Now().base)) <==>
           Promising(site, template, c, old(Now().base)))
      ensures Calm(w) && old(store) == Some(c) && r.None? ==> store == Some(c) && !site.cloned && c.applied != c.image
      // with no image recorded the tags decide: those of the wanted image, or none, keep the guest
      ensures Quiet(w) && r.Some? && !site.cloned && c.applied == NO_IMAGE != c.image && found ==>
        var seen := TagsSeen(site, old(Now().base));
        && seen.Some?
        && (keep <==> site.naming.blank(seen.value) || site.naming.hasTag(seen.value, c.image.ref))
        && (keep ==> r.value.applied == c.image && client.host.calls == old(client.host.calls))
      ensures
        TagLaws(site.naming) && Calm(w) && old(store) == Some(c) && !site.cloned && c.applied == NO_IMAGE && found &&
        !site.naming.blank(c.image.ref) && TagsSeen(site, old(Now().base)) == Some(Tag(site, c.image.ref)) ==>
          keep && store.Some? && store.value.applied == c.image && client.host.calls == old(client.host.calls)
      ensures
        TagLaws(site.naming) && Quiet(w) && !site.cloned && c.applied == NO_IMAGE && found &&
        !site.naming.blank(c.image.ref) ==>
          forall other ::
            !site.naming.blank(other) && TagsSeen(site, old(Now().base)) == Some(Tag(site, other)) &&
            Tag(site, other) != Tag(site, c.image.ref) ==>
              !keep
      ensures Quiet(w) && !site.cloned && c.applied == NO_IMAGE && RightlyThere(site, old(Now().base), c.image.ref) ==>
        && client.host.calls == old(client.host.calls) && client.host.cts == old(client.host.cts)
        && (r.Some? ==> keep)
    {
      keep := false;
      PresentExactly(site, client.host.cts);
      if site.cloned || c.applied == c.image {
        Decide(c, found);
        return found, Some(c);
      }
      if c.applied != NO_IMAGE || !found {
        Decide(c, found);
        if c.applied != NO_IMAGE {
          r := Replace(c, w);
          return;
        }
        return false, Some(c);
      }
      var adopt := ReadTags(c, w);
      if adopt.None? {
        return false, None;
      }
      if adopt.value {
        r := Adopt(c, w);
        keep := r.Some?;
      } else {
        r := Replace(c, w);
      }
    }

    /** The new guest gets the VMID that Proxmox gives out next. */
    method AddGuest(ct: CT, cached: bool) returns (next: int)
      modifies client, client.host
      ensures next > 0 && (site.node, next) !in old(client.host.cts)
      ensures client.host.cts == old(client.host.cts)[(site.node, next) := ct]
      ensures client.host.calls == old(client.host.calls)
      ensures cached ==>
        && CachedId(client.nodes, site.node, ct.name) == Some(next)
        && SameBut(old(client.nodes), client.nodes, site.node, ct.name, 0)
        && CachedObj(client.nodes, site.node, 0) == CachedObj(old(client.nodes), site.node, 0)
      ensures !cached ==> client.nodes == old(client.nodes)
    {
      next := client.host.NextID(site.node);
      client.host.Create(site.node, next, ct);
      if cached {
        client.SetCachedContainerID(site.node, ct.name, next);
      }
    }

    method PlaceGuest(c: Obj, ct: CT, cached: bool) returns (next: int)
      requires Ready() && pass == MustCreate(c) && ct.name == site.name
      requires !site.cloned ==> ct.tags == Tag(site, c.image.ref)
      modifies this`madeFor, this`pass, client, client.host
      ensures KeepNext(site, old(Now()), Label.CreateGuest(next, ct, cached), Now())
      ensures pass == Created(c) && client.host.calls == old(client.host.calls)
      ensures client.host.cts == old(client.host.cts)[(site.node, next) := ct]
      ensures (site.node, next) !in old(client.host.cts)
      ensures
        if cached then CachedId(client.nodes, site.node, site.name) == Some(next)
        else client.nodes == old(client.nodes)
    {
      next := AddGuest(ct, cached);
      madeFor, pass := madeFor[next := c.image.ref], Created(c);
    }

    method MakeGuest(c: Obj, ct: CT, cached: bool) returns (next: int)
      requires Ready() && pass == MustCreate(c) && ct.name == site.name
      requires !site.cloned ==> ct.tags == Tag(site, c.image.ref)
      modifies this, client, client.host
      ensures Ready() && old(states) <= states && pass == Created(c)
      ensures store == old(store) && client.host.calls == old(client.host.calls)
      ensures old(Tidy() && Absent(site, Now().base)) ==> Tidy()
      ensures client.host.cts == old(client.host.cts)[(site.node, next) := ct]
      ensures (site.node, next) !in old(client.host.cts)
      ensures HasName(client.host.cts, site.node, next, site.name)
      ensures
        if cached then CachedId(client.nodes, site.node, site.name) == Some(next)
        else client.nodes == old(client.nodes)
    {
      ghost var before := Now();
      next := PlaceGuest(c, ct, cached);
      if Clear(site, before.base) && Clean(site, before.base) && Absent(site, before.base) {
        CreationKeepsTidy(site, before, Label.CreateGuest(next, ct, cached), Now());
      }
      Log(Label.CreateGuest(next, ct, cached));
    }

    /** Creates from the image and waits for the task. One that fails may leave a guest
        behind. */
    method SubmitCreate(c: Obj, w: Weather) returns (ok: bool)
      requires Ready() && pass == MustCreate(c) && !site.cloned
      modifies this, client, client.host
      ensures Ready() && old(states) <= states && client.host.calls == old(client.host.calls)
      ensures ok ==> pass == Created(c) && Present(site, client.host.cts)
      ensures Quiet(w) ==> store == old(store) && client.nodes == old(client.nodes)
      ensures Quiet(w) && old(Tidy() && Absent(site, Now().base)) ==> Tidy()
      ensures Quiet(w) && ok ==>
        Added(old(client.host.cts), client.host.cts, site.node, OciGuest(site, c.image.ref, cores, memory))
      ensures Calm(w) ==> ok
    {
      Others(w.busy(AtCreate));
      if w.fails(AtCreate) {
        return false;
      }
      ok := w.create.Completed?;
      if Applied(w.create) {
        var next := MakeGuest(c, OciGuest(site, c.image.ref, cores, memory), false);
      }
    }

    method FindNow(name: string, node: string, f: Faults) returns (found: Result<int, ClientError>)
      requires Ready()
      modifies this, client
      ensures Ready() && old(states) <= states && pass == old(pass) && store == old(store)
      ensures Took(old(Now().base), Lookup(node, name, found), Now().base)
      ensures old(Tidy()) ==> Tidy()
      ensures f == NO_FAULTS ==> found.Ok?
    {
      ghost var before := Now().base;
      found := client.GetContainerID(name, node, f);
      OwnOpKeepsTidy(site, before, Lookup(node, name, found), Now().base);
      Log(Outside(Lookup(node, name, found)));
    }

    /** Looks up the VMID of the guest created, which caches it. */
    method FindCreated(w: Weather) returns (ok: bool)
      requires Ready()
      modifies this, client, client.host
      ensures Ready() && old(states) <= states && pass == old(pass) && client.host.calls == old(client.host.calls)
      ensures Quiet(w) ==>
        store == old(store) && client.host.cts == old(client.host.cts) && (old(Tidy()) ==> Tidy())
      ensures Calm(w) && old(Present(site, client.host.cts) && CachedId(client.nodes, site.node, site.name).None?) ==>
        ok && Found(site, Now().base)
    {
      Others(w.busy(AtFind));
      PresentExactly(site, client.host.cts);
      var found := FindNow(site.name, site.node, w.host(AtFind));
      ok := found.Ok? && found.value != 0;
    }

    method CreateContainerFromOCIImage(c: Obj, w: Weather) returns (ok: bool)
      requires Ready() && pass == MustCreate(c) && !site.cloned
      modifies this, client, client.host
      ensures Ready() && old(states) <= states && client.host.calls == old(client.host.calls)
      ensures ok ==> pass == Created(c)
      ensures Quiet(w) ==> store == old(store) && (ok ==> Present(site, client.host.cts))
      ensures Quiet(w) && old(Tidy() && Absent(site, Now().base)) ==> Tidy()
      ensures Quiet(w) && ok ==>
        Added(old(client.host.cts), client.host.cts, site.node, OciGuest(site, c.image.ref, cores, memory))
      ensures Calm(w) && CachedId(old(client.nodes), site.node, site.name).None? ==> ok && Found(site, Now().base)
    {
      ok := SubmitCreate(c, w);
      if ok {
        ok := FindCreated(w);
      }
    }

    method ReadNow(name: string, node: string, f: Faults) returns (read: Result<CtObj, ClientError>, ghost id: int)
      requires Ready()
      modifies this, client
      ensures Ready() && old(states) <= states && pass == old(pass) && store == old(store)
      ensures Took(old(Now().base), Get(node, name, id, read), Now().base)
      ensures old(Tidy()) ==> Tidy()
      ensures f == NO_FAULTS ==> read.Ok? || read == Err(NotFound)
    {
      ghost var before := Now().base;
      read, id := client.GetContainer(name, node, f);
      OwnOpKeepsTidy(site, before, Get(node, name, id, read), Now().base);
      Log(Outside(Get(node, name, id, read)));
    }

    method TemplateNow(f: Faults) returns (id: Option<int>)
      requires Ready()
      modifies this, client
      ensures Ready() && old(states) <= states && pass == old(pass) && store == old(store)
      ensures old(Tidy()) ==> Tidy()
      ensures old(Absent(site, Now().base)) ==> Absent(site, Now().base)
      ensures id.Some? ==> Resolves(old(client.nodes), client.host.cts, site.node, template, id.value)
      ensures template != site.name ==>
        CachedId(client.nodes, site.node, site.name) == CachedId(old(client.nodes), site.node, site.name)
      ensures f == NO_FAULTS ==>
        (id.Some? && (site.node, id.value) in client.host.cts <==> TemplateOk(site, template, old(Now().base)))
    {
      var found := FindNow(template, site.node, f);
      if found.Err? || found.value == 0 {
        return None;
      }
      var read;
      ghost var at;
      read, at := ReadNow(template, site.node, f);
      id := if read.Ok? then Some(read.value.id) else None;
    }

    /** The template as a look-up and a read of it give it, both perhaps out of date. */
    method FindTemplate(w: Weather) returns (id: Option<int>)
      requires Ready()
      modifies this, client, client.host
      ensures Ready() && old(states) <= states && pass == old(pass) && client.host.calls == old(client.host.calls)
      ensures Quiet(w) ==>
        store == old(store) && client.host.cts == old(client.host.cts) && (old(Tidy()) ==> Tidy())
      ensures Quiet(w) && old(Absent(site, Now().base)) ==> Absent(site, Now().base)
      ensures Quiet(w) && id.Some? ==>
        Resolves(old(client.nodes), client.host.cts, site.node, template, id.value)
      ensures Quiet(w) && template != site.name ==>
        CachedId(client.nodes, site.node, site.name) == CachedId(old(client.nodes), site.node, site.name)
      ensures Calm(w) ==>
        (id.Some? && (site.node, id.value) in client.host.cts <==> TemplateOk(site, template, old(Now().base)))
    {
      Others(w.busy(AtTemplate));
      id := TemplateNow(w.host(AtTemplate));
    }

    /** Clones whatever now has the template's VMID; the new VMID is cached once the
        task has completed. */
    method CloneContainer(c: Obj, w: Weather) returns (ok: bool)
      requires Ready() && pass == MustCreate(c) && site.cloned
      modifies this, client, client.host
      ensures Ready() && old(states) <= states && client.host.calls == old(client.host.calls)
      ensures ok ==> pass == Created(c) && Found(site, Now().base)
      ensures Quiet(w) ==> store == old(store) && (ok ==> Present(site, client.host.cts))
      ensures Quiet(w) && old(Tidy() && Absent(site, Now().base)) ==> Tidy()
      ensures Quiet(w) && ok ==> Cloned(site, template, old(Now().base), client.host.cts)
      ensures Calm(w) ==> (ok <==> TemplateOk(site, template, old(Now().base)))
      ensures Calm(w) && !ok ==> client.host.cts == old(client.host.cts)
      ensures Quiet(w) && !ok && template != site.name ==>
        CachedId(client.nodes, site.node, site.name) == CachedId(old(client.nodes), site.node, site.name)
    {
      var id := FindTemplate(w);
      if id.None? {
        return false;
      }
      Others(w.busy(AtCreate));
      if w.fails(AtCreate) || (site.node, id.value) !in client.host.cts {
        return false;
      }
      var ct := client.host.cts[(site.node, id.value)].(name := site.name, running := false);
      ok := w.create.Completed?;
      if Applied(w.create) {
        var next := MakeGuest(c, ct, ok);
      }
    }

    // ------------------------------------------------------- its power and its size

    method StartNow(f: Faults) returns (ok: bool)
      requires Ready()
      modifies this, client, client.host
      ensures Ready() && old(states) <= states && pass == old(pass) && store == old(store)
      ensures client.host.calls == old(client.host.calls) && SameGuests(old(client.host.cts), client.host.cts)
      ensures old(Tidy()) ==> Tidy()
      ensures ok ==> Runs(site, Now().base)
      ensures old(Runs(site, Now().base)) ==> Runs(site, Now().base)
      ensures old(Sized(site, cores, memory, Now().base)) ==> Sized(site, cores, memory, Now().base)
      ensures f == NO_FAULTS && old(Stands(site, Now().base)) ==> ok
    {
      ghost var before := Now().base;
      var r;
      ghost var id, ct;
      r, id, ct := client.StartContainer(site.name, site.node, f);
      OwnOpKeepsTidy(site, before, Adjust(site.node, site.name, id, r, ct), Now().base);
      Log(Outside(Adjust(site.node, site.name, id, r, ct)));
      ok := r.Ok?;
    }

    /** Starts the container the name resolves to. */
    method StartContainer(p: Point, w: Weather) returns (ok: bool)
      requires Ready()
      modifies this, client, client.host
      ensures Ready() && old(states) <= states && pass == old(pass) && client.host.calls == old(client.host.calls)
      ensures ok ==> Runs(site, Now().base)
      ensures Quiet(w) ==> store == old(store) && SameGuests(old(client.host.cts), client.host.cts)
      ensures Quiet(w) && old(Tidy()) ==> Tidy()
      ensures Quiet(w) && old(Runs(site, Now().base)) ==> Runs(site, Now().base)
      ensures Quiet(w) && old(Sized(site, cores, memory, Now().base)) ==> Sized(site, cores, memory, Now().base)
      ensures Calm(w) && old(Stands(site, Now().base)) ==> ok
    {
      Others(w.busy(p));
      ok := StartNow(w.host(p));
    }

    /** What a look at a guest that is there means. */
    ghost predicate Seen(before: World, after: World, running: bool) {
      && Stands(site, after)
      && (Deceived(site, cores, memory, before) ==> Deceived(site, cores, memory, after) && running)
      && (!Deceived(site, cores, memory, before) && running ==>
            Runs(site, after) || ShowsOther(site, cores, memory, after))
      && (Unseen(site, before) ==> (running <==> Runs(site, after)))
    }

    method AskState(f: Faults) returns (read: Result<CtObj, ClientError>, ghost id: int)
      requires Ready()
      modifies client
      ensures Took(old(Now().base), Get(site.node, site.name, id, read), Now().base) && ValidNodes(client.nodes)
      ensures Clear(site, old(Now().base)) && Clean(site, old(Now().base)) ==>
        Clear(site, Now().base) && Clean(site, Now().base)
      ensures old(Runs(site, Now().base)) ==> Runs(site, Now().base)
      ensures old(Sized(site, cores, memory, Now().base)) ==> Sized(site, cores, memory, Now().base)
      ensures old(UpToDate(site, Now().base)) ==> UpToDate(site, Now().base)
      ensures f == NO_FAULTS && old(Stands(site, Now().base)) ==> read.Ok? && Stands(site, Now().base)
      ensures read.Ok? && old(UpToDate(site, Now().base)) ==>
        (read.value.info.running <==> Runs(site, Now().base)) && Stands(site, Now().base)
      ensures read.Ok? && old(Stands(site, Now().base)) ==> Seen(old(Now().base), Now().base, read.value.info.running)
    {
      ghost var before := Now().base;
      read, id := LookAtGuest(f);
      if read.Ok? && Stands(site, before) {
        LookDeceives(site, cores, memory, before, id, read, Now().base);
      }
      LookKeepsSize(site, cores, memory, before, Get(site.node, site.name, id, read), Now().base);
      LookTellsPower(site, before, id, read, Now().base);
    }

    method StateNow(f: Faults) returns (running: Option<bool>)
      requires Ready()
      modifies this, client
      ensures Ready() && old(states) <= states && pass == old(pass) && store == old(store)
      ensures old(Tidy()) ==> Tidy()
      ensures old(Runs(site, Now().base)) ==> Runs(site, Now().base)
      ensures old(Sized(site, cores, memory, Now().base)) ==> Sized(site, cores, memory, Now().base)
      ensures old(UpToDate(site, Now().base)) ==> UpToDate(site, Now().base)
      ensures f == NO_FAULTS && old(Stands(site, Now().base)) ==> running.Some? && Stands(site, Now().base)
      ensures running.Some? && old(UpToDate(site, Now().base)) ==>
        (running.value <==> Runs(site, Now().base)) && Stands(site, Now().base)
      ensures running.Some? && old(Stands(site, Now().base)) ==> Seen(old(Now().base), Now().base, running.value)
    {
      var read;
      ghost var id;
      read, id := AskState(f);
      Log(Outside(Get(site.node, site.name, id, read)));
      running := if read.Ok? then Some(read.value.info.running) else None;
    }

    method GetContainerState(p: Point, w: Weather) returns (running: Option<bool>)
      requires Ready()
      modifies this, client, client.host
      ensures Ready() && old(states) <= states && pass == old(pass) && client.host.calls == old(client.host.calls)
      ensures Quiet(w) ==>
        store == old(store) && client.host.cts == old(client.host.cts) && (old(Tidy()) ==> Tidy())
      ensures Quiet(w) && old(Runs(site, Now().base)) ==> Runs(site, Now().base)
      ensures Quiet(w) && old(Sized(site, cores, memory, Now().base)) ==> Sized(site, cores, memory, Now().base)
      ensures Quiet(w) && old(UpToDate(site, Now().base)) ==> UpToDate(site, Now().base)
      ensures Calm(w) && old(Stands(site, Now().base)) ==> running.Some? && Stands(site, Now().base)
      ensures Quiet(w) && running.Some? && old(UpToDate(site, Now().base)) ==>
        (running.value <==> Runs(site, Now().base)) && Stands(site, Now().base)
      ensures Quiet(w) && running.Some? && old(Stands(site, Now().base)) ==>
        Seen(old(Now().base), Now().base, running.value)
    {
      Others(w.busy(p));
      running := StateNow(w.host(p));
    }

    /** What an update makes of a guest that is there. */
    ghost predicate Updated(before: World, after: World) {
      && (Runs(site, before) ==> Runs(site, after))
      && (Deceived(site, cores, memory, before) ==> Deceived(site, cores, memory, after))
      && (ShowsOther(site, cores, memory, before) ==> Unseen(site, after))
    }

    method AskUpdate(f: Faults) returns (done: Result<(), ClientError>, ghost op: Op)
      requires Ready()
      modifies client, client.host
      ensures op.Adjust? && op.node == site.node && op.name == site.name && op.done == done
      ensures Took(old(Now().base), op, Now().base) && ValidCts(client.host.cts) && ValidNodes(client.nodes)
      ensures client.host.calls == old(client.host.calls) && SameGuests(old(client.host.cts), client.host.cts)
      ensures old(Runs(site, Now().base)) ==> Runs(site, Now().base)
      ensures f == NO_FAULTS && old(UpToDate(site, Now().base) && Stands(site, Now().base)) ==>
        done.Ok? && Sized(site, cores, memory, Now().base)
      ensures f == NO_FAULTS && old(Stands(site, Now().base)) ==> done.Ok? && Updated(old(Now().base), Now().base)
    {
      ghost var before := Now().base;
      ghost var id, ct;
      done, id, ct := client.UpdateContainer(site.name, site.node, cores, memory, f);
      if f == NO_FAULTS && UpToDate(site, before) && Stands(site, before) {
        UpdateSizes(site, cores, memory, before, id, Now().base);
      }
      op := Adjust(site.node, site.name, id, done, ct);
    }

    method UpdateNow(f: Faults) returns (ok: bool)
      requires Ready()
      modifies this, client, client.host
      ensures Ready() && old(states) <= states && pass == old(pass) && store == old(store)
      ensures client.host.calls == old(client.host.calls) && SameGuests(old(client.host.cts), client.host.cts)
      ensures old(Tidy()) ==> Tidy()
      ensures old(Runs(site, Now().base)) ==> Runs(site, Now().base)
      ensures f == NO_FAULTS && old(UpToDate(site, Now().base) && Stands(site, Now().base)) ==>
        ok && Sized(site, cores, memory, Now().base)
      ensures f == NO_FAULTS && old(Stands(site, Now().base)) ==> ok && Updated(old(Now().base), Now().base)
    {
      ghost var before := Now().base;
      var done;
      ghost var op;
      done, op := AskUpdate(f);
      OwnOpKeepsTidy(site, before, op, Now().base);
      Log(Outside(op));
      ok := done.Ok?;
    }

    /** Sets cores and memory, then writes the object back as it is, which fails if
        somebody else has written it meanwhile. */
    method UpdateContainer(c: Obj, w: Weather) returns (ok: bool)
      requires Ready()
      modifies this, client, client.host
      ensures Ready() && old(states) <= states && pass == old(pass) && client.host.calls == old(client.host.calls)
      ensures Quiet(w) ==> store == old(store) && SameGuests(old(client.host.cts), client.host.cts)
      ensures Quiet(w) && old(Tidy()) ==> Tidy()
      ensures Quiet(w) && old(Runs(site, Now().base)) ==> Runs(site, Now().base)
      ensures Calm(w) && old(UpToDate(site, Now().base) && Stands(site, Now().base)) ==>
        Sized(site, cores, memory, Now().base) && (ok <==> store.Some? && store.value.version == c.version)
      ensures Calm(w) && old(Stands(site, Now().base)) ==>
        Updated(old(Now().base), Now().base) && (ok <==> store.Some? && store.value.version == c.version)
    {
      Others(w.busy(AtUpdate));
      ok := UpdateNow(w.host(AtUpdate));
      if ok {
        Others(w.busy(AtSave));
        ok := !w.fails(AtSave) && store.Some? && store.value.version == c.version;
      }
    }

    /** Unless looks deceive, the guest runs or the next look shows whether it does. */
    ghost predicate Roused(before: World, after: World) {
      if Deceived(site, cores, memory, before) then Deceived(site, cores, memory, after)
      else Runs(site, after) || Unseen(site, after)
    }

    /** Starts a guest that is seen stopped and updates one that is seen running. */
    method StartOrUpdateContainer(c: Obj, w: Weather) returns (ok: bool)
      requires Ready()
      modifies this, client, client.host
      ensures Ready() && old(states) <= states && pass == old(pass) && client.host.calls == old(client.host.calls)
      ensures Quiet(w) ==> store == old(store) && SameGuests(old(client.host.cts), client.host.cts)
      ensures Quiet(w) && old(Tidy()) ==> Tidy()
      ensures Calm(w) && old(UpToDate(site, Now().base) && Stands(site, Now().base)) ==>
        Runs(site, Now().base) && (old(store) == Some(c) ==> ok)
      ensures Calm(w) && old(UpToDate(site, Now().base) && Runs(site, Now().base)) ==>
        Sized(site, cores, memory, Now().base)
      ensures Calm(w) && old(store) == Some(c) && old(Stands(site, Now().base)) ==>
        ok && Roused(old(Now().base), Now().base)
    {
      var running := GetContainerState(AtState, w);
      if running.None? {
        return false;
      }
      if running.value {
        ok := UpdateContainer(c, w);
      } else {
        ok := StartContainer(AtStart, w);
      }
    }

    /** At the end of a pass a guest that is seen stopped is started, if that is wanted. */
    method HandleAutoStart(w: Weather) returns (ok: bool)
      requires Ready()
      modifies this, client, client.host
      ensures Ready() && old(states) <= states && pass == old(pass) && client.host.calls == old(client.host.calls)
      ensures Quiet(w) ==> store == old(store) && SameGuests(old(client.host.cts), client.host.cts)
      ensures Quiet(w) && old(Tidy()) ==> Tidy()
      ensures Quiet(w) && old(Runs(site, Now().base)) ==> Runs(site, Now().base)
      ensures Quiet(w) && old(Sized(site, cores, memory, Now().base)) ==> Sized(site, cores, memory, Now().base)
      ensures Calm(w) && autoStart && old(UpToDate(site, Now().base) && Stands(site, Now().base)) ==>
        ok && Runs(site, Now().base)
      ensures !autoStart ==> ok && Now() == old(Now())
      ensures Calm(w) && old(Deceived(site, cores, memory, Now().base)) ==>
        Deceived(site, cores, memory, Now().base)
      ensures Calm(w) && autoStart && old(Unseen(site, Now().base)) ==> ok && Runs(site, Now().base)
    {
      if !autoStart {
        return true;
      }
      var running := GetContainerState(AtAuto, w);
      ok := running.Some?;
      if running == Some(false) {
        ok := StartContainer(AtAutoStart, w);
      }
    }

    // ----------------------------------------------------------- the guest and its image

    method RecordNow(c: Obj) returns (ok: bool)
      requires Ready() && pass == Created(c)
      modifies this
      ensures Ready() && old(states) <= states && (ok <==> old(store).Some?)
      ensures old(Tidy()) ==> Tidy()
      ensures store == if ok && !site.cloned then Some(Patched(old(store).value, c.image)) else old(store)
    {
      ok := store.Some?;
      if !ok {
        pass := Idle;
      } else if site.cloned {
        pass := Settled(c);
      } else {
        var o := Patched(store.value, c.image);
        store, pass := Some(o), Settled(o);
      }
      Log(Label.RecordApplied);
    }

    /** The image is recorded as applied; a clone has none. */
    method RecordApplied(c: Obj, w: Weather) returns (ok: bool)
      requires Ready() && pass == Created(c)
      modifies this, client, client.host
      ensures Ready() && old(states) <= states && client.host.calls == old(client.host.calls)
      ensures ok && !site.cloned ==> store.Some? && store.value.applied == c.image
      ensures Quiet(w) ==> Now().base == old(Now().base) && (old(Tidy()) ==> Tidy())
      ensures Quiet(w) && old(store) == Some(c) ==>
        store == if ok && !site.cloned then Some(Patched(c, c.image)) else Some(c)
      ensures Calm(w) && old(store) == Some(c) ==> ok
    {
      if !site.cloned {
        Others(w.busy(AtPatch));
        if w.fails(AtPatch) {
          return false;
        }
      }
      ok := RecordNow(c);
    }

    method CreateGuest(c: Obj, w: Weather) returns (ok: bool)
      requires Ready() && pass == MustCreate(c)
      modifies this, client, client.host
      ensures Ready() && old(states) <= states && client.host.calls == old(client.host.calls)
      ensures ok ==> pass == Created(c)
      ensures Quiet(w) ==> store == old(store) && (ok ==> Present(site, client.host.cts))
      ensures Quiet(w) && old(Tidy() && Absent(site, Now().base)) ==> Tidy()
      ensures Calm(w) && CachedId(old(client.nodes), site.node, site.name).None? ==>
        && (ok <==> (site.cloned ==> TemplateOk(site, template, old(Now().base))))
        && (if ok then Found(site, Now().base) else client.host.cts == old(client.host.cts))
    {
      if site.cloned {
        ok := CloneContainer(c, w);
      } else {
        ok := CreateContainerFromOCIImage(c, w);
      }
    }

    /** The guest made and started. */
    method CreateAndStart(c: Obj, w: Weather) returns (ok: bool)
      requires Ready() && pass == MustCreate(c)
      modifies this, client, client.host
      ensures Ready() && old(states) <= states && client.host.calls == old(client.host.calls)
      ensures ok ==> pass == Created(c) && Runs(site, Now().base)
      ensures Quiet(w) ==> store == old(store) && (ok ==> Present(site, client.host.cts))
      ensures Quiet(w) && old(Tidy() && Absent(site, Now().base)) ==> Tidy()
      ensures Calm(w) && CachedId(old(client.nodes), site.node, site.name).None? ==>
        && (ok <==> (site.cloned ==> TemplateOk(site, template, old(Now().base))))
        && (!ok ==> client.host.cts == old(client.host.cts))
    {
      ok := CreateGuest(c, w);
      if ok {
        ghost var cts := client.host.cts;
        ok := StartContainer(AtStart, w);
        if Quiet(w) {
          SameGuestsPresent(site, cts, client.host.cts);
        }
      }
    }

    method HandleCloneContainer(c: Obj, w: Weather) returns (ok: bool)
      requires Ready() && pass == MustCreate(c)
      modifies this, client, client.host
      ensures Ready() && old(states) <= states && client.host.calls == old(client.host.calls)
      ensures ok && !site.cloned ==> store.Some? && store.value.applied == c.image
      ensures Quiet(w) && old(Tidy() && Absent(site, Now().base)) ==> Tidy()
      ensures Quiet(w) && old(store) == Some(c) && ok ==>
        SpecApplied(site, Now()) && SameWish(c, store.value) && Runs(site, Now().base)
      ensures Quiet(w) && old(store) == Some(c) && !ok ==> store == Some(c)
      ensures Calm(w) && old(store) == Some(c) && CachedId(old(client.nodes), site.node, site.name).None? ==>
        && (ok <==> (site.cloned ==> TemplateOk(site, template, old(Now().base))))
        && (!ok ==> client.host.cts == old(client.host.cts))
    {
      ok := CreateAndStart(c, w);
      if ok {
        ok := RecordApplied(c, w);
      }
    }

    /** The second half of handleContainerOperations: a guest that is kept is started or
        updated, any other is made. */
    method KeepOrMake(c: Obj, keep: bool, w: Weather) returns (ok: bool)
      requires Ready() && pass == if keep then Settled(c) else MustCreate(c)
      modifies this, client, client.host
      ensures Ready() && old(states) <= states && client.host.calls == old(client.host.calls)
      ensures Quiet(w) && keep ==> store == old(store) && SameGuests(old(client.host.cts), client.host.cts)
      ensures Quiet(w) && old(Tidy()) && (keep || old(Absent(site, Now().base))) ==> Tidy()
      ensures
        Calm(w) && old(store) == Some(c) &&
        (if keep then site.cloned || c.applied == c.image
         else CachedId(old(client.nodes), site.node, site.name).None?) ==>
          && store.Some? && SameWish(c, store.value)
          && (SpecApplied(site, Now()) <==>
                Present(site, old(client.host.cts)) ||
                (!keep && (site.cloned ==> TemplateOk(site, template, old(Now().base)))))
      ensures
        Calm(w) && old(store) == Some(c) && SpecApplied(site, Now()) &&
        (if keep then old(UpToDate(site, Now().base) && Stands(site, Now().base))
         else CachedId(old(client.nodes), site.node, site.name).None? &&
              (site.cloned ==> !Present(site, old(client.host.cts)))) ==>
          Runs(site, Now().base)
      ensures Calm(w) && keep && old(UpToDate(site, Now().base) && Runs(site, Now().base)) ==>
        Sized(site, cores, memory, Now().base)
      ensures Calm(w) && keep && old(store) == Some(c) && old(Stands(site, Now().base)) ==>
        ok && Roused(old(Now().base), Now().base)
    {
      if keep {
        ok := StartOrUpdateContainer(c, w);
        if Quiet(w) {
          SameGuestsPresent(site, old(client.host.cts), client.host.cts);
        }
      } else {
        ok := HandleCloneContainer(c, w);
      }
    }

    /** The first half: is the guest kept? If it is neither kept nor to be made, a call
        failed. */
    method KeepOrNot(c: Obj, w: Weather) returns (keep: bool, r: Option<Obj>)
      requires Ready() && pass == Ensured(c)
      modifies this, client, client.host
      ensures Ready() && old(states) <= states
      ensures r.Some? ==> pass == if keep then Settled(r.value) else MustCreate(r.value)
      ensures r.Some? && keep ==> site.cloned || r.value.applied == c.image
      ensures site.cloned || c.applied == c.image ==> client.host.calls == old(client.host.calls)
      ensures Quiet(w) && (site.cloned || c.applied == c.image) ==>
        && client.host.cts == old(client.host.cts)
        && (r.Some? && Present(site, client.host.cts) ==> keep)
        && (old(store) == Some(c) ==> store == Some(c))
        && SameSight(site, old(Now().base), Now().base)
        && (old(Runs(site, Now().base)) ==> Runs(site, Now().base))
      ensures Quiet(w) && r.Some? ==>
        if keep then client.host.cts == old(client.host.cts) && CachedId(client.nodes, site.node, site.name).Some?
        else CachedId(client.nodes, site.node, site.name).None?
      ensures Quiet(w) && keep && old(UpToDate(site, Now().base)) ==> UpToDate(site, Now().base)
      ensures Quiet(w) && old(Tidy()) ==> Tidy() && (r.Some? && !keep ==> Absent(site, Now().base))
      ensures Quiet(w) && old(store) == Some(c) && r.Some? ==> store == r && SameWish(c, r.value)
      ensures Calm(w) && (site.cloned || c.applied == c.image) && old(Stands(site, Now().base)) ==>
        r == Some(c) && keep
      ensures Calm(w) && old(store) == Some(c) ==>
        if r.Some? then
          (if keep then Present(site, client.host.cts)
           else site.cloned ==> TemplateOk(site, template, Now().base)) <==>
          Promising(site, template, c, old(Now().base))
        else
          && !Promising(site, template, c, old(Now().base))
          && store == Some(c) && !site.cloned && c.applied != c.image
      ensures Quiet(w) && !site.cloned && c.applied == NO_IMAGE && RightlyThere(site, old(Now().base), c.image.ref) ==>
        && client.host.calls == old(client.host.calls) && client.host.cts == old(client.host.cts)
        && (r.Some? ==> keep)
    {
      keep, r := false, None;
      var found := CheckExists(c, w);
      if found.Some? {
        PresentExactly(site, client.host.cts);
        keep, r := ReconcileOCIImageDrift(c, found.value, w);
      }
    }

    method HandleContainerOperations(c: Obj, w: Weather) returns (ok: bool)
      requires Ready() && pass == Ensured(c)
      modifies this, client, client.host
      ensures Ready() && old(states) <= states
      ensures site.cloned || c.applied == c.image ==> client.host.calls == old(client.host.calls)
      ensures Quiet(w) && (site.cloned || c.applied == c.image) && Present(site, old(client.host.cts)) ==>
        SameGuests(old(client.host.cts), client.host.cts)
      ensures Quiet(w) && (site.cloned || c.applied == c.image) && Present(site, old(client.host.cts)) ==>
        old(store) == Some(c) ==> store == Some(c)
      ensures Quiet(w) && old(Tidy()) ==> Tidy()
      ensures Calm(w) && old(store) == Some(c) ==>
        && store.Some? && SameWish(c, store.value)
        && (SpecApplied(site, Now()) <==> Promising(site, template, c, old(Now().base)))
      ensures Calm(w) && old(store) == Some(c) && old(UpToDate(site, Now().base)) && SpecApplied(site, Now()) ==>
        Runs(site, Now().base)
      ensures
        Calm(w) && old(store) == Some(c) && (site.cloned || c.applied == c.image) &&
        old(Present(site, client.host.cts) && UpToDate(site, Now().base) && Runs(site, Now().base)) ==>
          Sized(site, cores, memory, Now().base)
      ensures
        Calm(w) && old(store) == Some(c) && (site.cloned || c.applied == c.image) && old(Stands(site, Now().base)) ==>
          ok && Roused(old(Now().base), Now().base)
      ensures Quiet(w) && !site.cloned && c.applied == NO_IMAGE && RightlyThere(site, old(Now().base), c.image.ref) ==>
        client.host.calls == old(client.host.calls) && SameGuests(old(client.host.cts), client.host.cts)
    {
      var keep, o := KeepOrNot(c, w);
      if o.None? {
        return false;
      }
      if UpToDate(site, Now().base) && keep && CachedId(client.nodes, site.node, site.name).Some? {
        UpToDateStands(site, Now().base);
      }
      ok := KeepOrMake(o.value, keep, w);
    }

    // ----------------------------------------------------------------- deletion

    method MarkNow(c: Obj) returns (marked: bool)
      requires Ready() && pass == Started(c) && c.deleting
      modifies this
      ensures Ready() && old(states) <= states
      ensures old(Tidy()) ==> Tidy()
      ensures marked <==> c.finalizer && c.marked && old(store).Some?
      ensures marked ==> pass == Removing(c)
      ensures
        store == if c.finalizer && !c.marked && old(store).Some? then Some(Edited(old(store).value).(marked := true))
                 else old(store)
    {
      marked := c.finalizer && c.marked && store.Some?;
      if c.finalizer && !c.marked && store.Some? {
        store := Some(Edited(store.value).(marked := true));
      }
      pass := if marked then Removing(c) else Idle;
      Log(Label.MarkDeleting);
    }

    /** The first pass over a deleted object only says so in the status. */
    method MarkDeleting(c: Obj, w: Weather) returns (marked: bool)
      requires Ready() && pass == Started(c) && c.deleting
      modifies this, client, client.host
      ensures Ready() && old(states) <= states && client.host.calls == old(client.host.calls)
      ensures marked ==> pass == Removing(c) && c.finalizer && c.marked
      ensures Quiet(w) ==> Now().base == old(Now().base) && (old(Tidy()) ==> Tidy())
      ensures Quiet(w) && old(store) == Some(c) ==> (marked <==> c.finalizer && c.marked)
      ensures Quiet(w) && old(store) == Some(c) && (marked || !c.finalizer) ==> store == Some(c)
      ensures Calm(w) && old(store) == Some(c) && c.finalizer && !c.marked ==>
        store == Some(Edited(c).(marked := true))
    {
      if c.finalizer && !c.marked {
        Others(w.busy(AtPatch));
        if w.fails(AtPatch) {
          return false;
        }
      }
      marked := MarkNow(c);
    }

    method RemoveNow(c: Obj, f: Faults) returns (ok: bool)
      requires Ready() && pass == Removing(c) && !c.isProtected
      modifies this, client, client.host
      ensures Ready() && old(states) <= states && store == old(store)
      ensures old(Tidy()) ==> Tidy()
      ensures pass == if ok then GuestGone(c) else Idle
      ensures ok ==> (!Present(site, client.host.cts) <==> Clear(site, old(Now().base)))
      ensures f == NO_FAULTS ==> ok
      ensures DeletedInTurn(site, old(client.host.cts), old(client.host.calls), client.host.calls)
      ensures !f.stop.Completed? ==> RunningRemain(site, old(client.host.cts), client.host.cts)
    {
      ghost var before, op := Now(), Op.Restart;
      ok, op := DeleteGuest(f);
      pass := if ok then GuestGone(c) else Idle;
      assert DeleteNext(site, before, Label.RemoveGuest(op.id, op.done, op.calls), Now());
      Log(Label.RemoveGuest(op.id, op.done, op.calls));
    }

    method HandleContainerDeletion(c: Obj, w: Weather) returns (ok: bool)
      requires Ready() && pass == Removing(c)
      modifies this, client, client.host
      ensures Ready() && old(states) <= states
      ensures ok ==> pass == GuestGone(c)
      ensures c.isProtected ==> ok && client.host.calls == old(client.host.calls) && Now().base == old(Now().base)
      ensures Quiet(w) ==> store == old(store) && (old(Tidy()) ==> Tidy())
      ensures Quiet(w) && ok && !c.isProtected ==>
        (!Present(site, client.host.cts) <==> Clear(site, old(Now().base)))
      ensures Calm(w) ==> ok
      ensures Quiet(w) ==> DeletedInTurn(site, old(client.host.cts), old(client.host.calls), client.host.calls)
      ensures Quiet(w) && !w.host(AtRemove).stop.Completed? ==>
        RunningRemain(site, old(client.host.cts), client.host.cts)
    {
      if c.isProtected {
        pass := GuestGone(c);
        Log(SkipProtected);
        return true;
      }
      Others(w.busy(AtRemove));
      ok := RemoveNow(c, w.host(AtRemove));
    }

    method DropFinalizer(c: Obj)
      requires Ready() && pass == GuestGone(c)
      modifies this
      ensures Ready() && old(states) <= states
      ensures old(Tidy()) ==> Tidy()
      ensures if old(store).Some? && old(store).value.version == c.version then store.None? else store == old(store)
    {
      if store.Some? && store.value.version == c.version {
        store, leftProtected := None, c.isProtected;
      }
      pass := Idle;
      Log(Label.DropFinalizer);
    }

    /** With its finalizer the object goes, unless it was written to meanwhile. */
    method RemoveFinalizer(c: Obj, w: Weather)
      requires Ready() && pass == GuestGone(c)
      modifies this, client, client.host
      ensures Ready() && old(states) <= states && client.host.calls == old(client.host.calls)
      ensures Quiet(w) ==> Now().base == old(Now().base) && (old(Tidy()) ==> Tidy())
      ensures Calm(w) && old(store) == Some(c) ==> store.None?
    {
      Others(w.busy(AtDrop));
      if !w.fails(AtDrop) {
        DropFinalizer(c);
      }
    }

    method HandleDelete(c: Obj, w: Weather)
      requires Ready() && pass == Started(c) && c.deleting
      modifies this, client, client.host
      ensures Ready() && old(states) <= states
      ensures c.isProtected || !c.marked || !c.finalizer ==> client.host.calls == old(client.host.calls)
      ensures Quiet(w) && (c.isProtected || !c.marked || !c.finalizer) ==> Now().base == old(Now().base)
      ensures Quiet(w) && old(Tidy()) ==> Tidy()
      ensures Calm(w) && old(store) == Some(c) && c.finalizer ==>
        if !c.marked then store == Some(Edited(c).(marked := true))
        else
          && store.None?
          && (c.isProtected || (!Present(site, client.host.cts) <==> Clear(site, old(Now().base))))
      ensures Quiet(w) ==> DeletedInTurn(site, old(client.host.cts), old(client.host.calls), client.host.calls)
      ensures Quiet(w) && !w.host(AtRemove).stop.Completed? ==>
        RunningRemain(site, old(client.host.cts), client.host.cts)
    {
      var marked := MarkDeleting(c, w);
      if !marked {
        return;
      }
      var ok := HandleContainerDeletion(c, w);
      if ok {
        RemoveFinalizer(c, w);
      }
    }

    // ----------------------------------------------------------------- the pass

    method Begin() returns (c: Obj)
      requires Ready() && pass.Idle? && store.Some?
      modifies this
      ensures Ready() && old(states) <= states && store == old(store) == Some(c)
      ensures old(Tidy()) ==> Tidy()
      ensures pass == Started(c)
    {
      c := store.value;
      pass := Started(c);
      Log(Label.Begin);
    }

    /** A pass over an object that is wanted. */
    method Keep(c: Obj, w: Weather)
      requires Ready() && pass == Started(c) && !c.deleting
      modifies this, client, client.host
      ensures Ready() && old(states) <= states
      ensures site.cloned || c.applied == c.image ==> client.host.calls == old(client.host.calls)
      ensures Quiet(w) && (site.cloned || c.applied == c.image) && Present(site, old(client.host.cts)) ==>
        SameGuests(old(client.host.cts), client.host.cts)
      ensures
        Quiet(w) && (site.cloned || c.applied == c.image) && Present(site, old(client.host.cts)) &&
        old(store) == Some(c) && c.finalizer ==>
          store == Some(c)
      ensures Quiet(w) && old(Tidy()) ==> Tidy()
      ensures Calm(w) && old(store) == Some(c) ==>
        && store.Some? && SameWish(c, store.value)
        && (SpecApplied(site, Now()) <==> Promising(site, template, c, old(Now().base)))
      ensures Calm(w) && old(store) == Some(c) && old(UpToDate(site, Now().base)) && SpecApplied(site, Now()) ==>
        Runs(site, Now().base)
      ensures
        Calm(w) && old(store) == Some(c) && (site.cloned || c.applied == c.image) &&
        old(Present(site, client.host.cts) && UpToDate(site, Now().base) && Runs(site, Now().base)) ==>
          Sized(site, cores, memory, Now().base)
      ensures
        Calm(w) && old(store) == Some(c) && (site.cloned || c.applied == c.image) && old(Stands(site, Now().base)) &&
        autoStart ==>
          (Runs(site, Now().base) <==> !old(Deceived(site, cores, memory, Now().base)))
      ensures Quiet(w) && !site.cloned && c.applied == NO_IMAGE && RightlyThere(site, old(Now().base), c.image.ref) ==>
        client.host.calls == old(client.host.calls) && SameGuests(old(client.host.cts), client.host.cts)
    {
      var o := HandleFinalizer(c, w);
      if o.None? {
        return;
      }
      var ok := HandleContainerOperations(o.value, w);
      if ok {
        ghost var cts := client.host.cts;
        ok := HandleAutoStart(w);
        if Quiet(w) {
          SameGuestsPresent(site, cts, client.host.cts);
        }
      }
    }

    /** One reconcile of an owned object in normal mode. */
    method Reconcile(w: Weather)
      requires Ready() && pass.Idle?
      modifies this, client, client.host
      ensures Ready() && pass.Idle? && old(states) <= states
      ensures Quiet(w) && old(Tidy()) ==> Tidy()
      ensures old(store).Some? && !old(store).value.deleting && old(SpecApplied(site, Now())) ==>
        && client.host.calls == old(client.host.calls)
        && (Quiet(w) ==> SameGuests(old(client.host.cts), client.host.cts))
        && (Quiet(w) && old(store).value.finalizer ==> store == old(store))
      ensures old(store).Some? && !old(store).value.deleting && Calm(w) ==>
        && store.Some? && SameWish(old(store).value, store.value)
        && (SpecApplied(site, Now()) <==> Promising(site, template, old(store).value, old(Now().base)))
        && (SpecApplied(site, Now()) && old(UpToDate(site, Now().base)) ==> Runs(site, Now().base))
        && (old(SpecApplied(site, Now()) && UpToDate(site, Now().base) && Runs(site, Now().base)) ==>
              Sized(site, cores, memory, Now().base))
      // with automatic start a kept guest runs afterwards unless the cache hides that it is stopped
      ensures
        Calm(w) && autoStart && old(store).Some? && !old(store).value.deleting &&
        (site.cloned || old(store).value.applied == old(store).value.image) && old(Stands(site, Now().base)) ==>
          (Runs(site, Now().base) <==> !old(Deceived(site, cores, memory, Now().base)))
      ensures old(store).Some? && old(store).value.deleting && old(store).value.finalizer && Calm(w) ==>
        if !old(store).value.marked then store == Some(Edited(old(store).value).(marked := true))
        else
          && store.None?
          && (old(store).value.isProtected || (!Present(site, client.host.cts) <==> Clear(site, old(Now().base))))
      ensures
        old(store).Some? && old(store).value.deleting &&
        (old(store).value.isProtected || !old(store).value.marked || !old(store).value.finalizer) ==>
          client.host.calls == old(client.host.calls)
      // a guest that carries the wanted image is left alone although no image is recorded
      ensures
        Quiet(w) && !site.cloned && old(store).Some? && !old(store).value.deleting &&
        old(store).value.applied == NO_IMAGE &&
        RightlyThere(site, old(Now().base), old(store).value.image.ref) ==>
          client.host.calls == old(client.host.calls) && SameGuests(old(client.host.cts), client.host.cts)
      ensures
        Quiet(w) && TagLaws(site.naming) && !site.cloned && old(Good(site, states, labels) && HasRightGuest()) &&
        !site.naming.blank(old(states)[0].obj.value.image.ref) ==>
          client.host.calls == old(client.host.calls) && SameGuests(old(client.host.cts), client.host.cts)
    {
      if store.None? {
        return;
      }
      if
        && TagLaws(site.naming) && !site.cloned && Good(site, states, labels) && HasRightGuest()
        && !site.naming.blank(states[0].obj.value.image.ref)
      {
        RightGuestIsFound();
      }
      var c := Begin();
      if c.deleting {
        HandleDelete(c, w);
      } else {
        Keep(c, w);
      }
      Stop();
    }

    /** What the watcher does for this guest. */
    method Poll(f: Faults)
      requires Ready() && pass.Idle?
      modifies this, client
      ensures Ready() && pass.Idle? && old(states) <= states && store == old(store)
      ensures old(Tidy()) ==> Tidy()
      ensures f == NO_FAULTS && store.Some? ==>
        (Promising(site, template, store.value, Now().base) <==>
          !Mistaken(site, old(Now())) && !NoTemplate(site, template, old(Now().base)))
      ensures f == NO_FAULTS ==>
        && client.host.cts == old(client.host.cts)
        && (old(Runs(site, Now().base)) ==> Runs(site, Now().base))
      ensures f == NO_FAULTS && Clear(site, old(Now().base)) ==> UpToDate(site, Now().base)
    {
      ghost var before := Now();
      ghost var id, answer;
      id, answer := Watch(site.name, site.node, f);
      if f == NO_FAULTS {
        if store.Some? {
          PollPromises(site, template, before, id, answer, Now().base);
        }
        if Clear(site, before.base) {
          PollIsUpToDate(site, before.base, id, answer, Now().base);
        }
      }
    }

    /** However stale the caches: a poll and a pass without faults reach the wanted
        state, unless the VMID cached for the name was given to another container that
        passes for the guest, or the guest is to be cloned and its template is not
        found. In a tidy history the guest then runs, and one that ran before, as
        wanted, has the wanted cores and memory. */
    method PollAndReconcile(w: Weather)
      requires Ready() && pass.Idle? && store.Some? && !store.value.deleting && Calm(w)
      modifies this, client, client.host
      ensures Ready() && pass.Idle? && old(states) <= states
      ensures old(Tidy()) ==> Tidy()
      ensures store.Some? && SameWish(old(store).value, store.value)
      ensures SpecApplied(site, Now()) <==>
        !Mistaken(site, old(Now())) && !NoTemplate(site, template, old(Now().base))
      ensures old(Tidy()) && SpecApplied(site, Now()) ==> Runs(site, Now().base)
      ensures old(Tidy() && SpecApplied(site, Now()) && Runs(site, Now().base)) ==>
        Sized(site, cores, memory, Now().base)
    {
      Poll(NO_FAULTS);
      Reconcile(w);
    }

    /** Two rounds of that in a tidy history: the guest, and nothing else under its name,
        is there with its image, runs, and has the wanted cores and memory. */
    method Settle(first: Weather, second: Weather)
      requires Ready() && pass.Idle? && store.Some? && !store.value.deleting && Calm(first) && Calm(second) && Tidy()
      requires !Mistaken(site, Now()) && !NoTemplate(site, template, Now().base)
      modifies this, client, client.host
      ensures Ready() && pass.Idle? && old(states) <= states && Tidy()
      ensures store.Some? && SameWish(old(store).value, store.value) && SpecApplied(site, Now())
      ensures forall id :: HasName(client.host.cts, site.node, id, site.name) ==>
        var ct := client.host.cts[(site.node, id)];
        && ct.running && ct.cores == cores && ct.memory == memory
        && CachedId(client.nodes, site.node, site.name) == Some(id)
    {
      PollAndReconcile(first);
      PollAndReconcile(second);
    }

    // --------------------------------------------------------------------- a life

    method DeleteOther(name: string, node: string, f: Faults)
      requires Ready()
      modifies this, client, client.host
      ensures Ready() && old(states) <= states && pass == old(pass)
    {
      var done;
      ghost var id, calls;
      done, id, calls := client.DeleteContainer(name, node, f);
      Log(Outside(Op.Delete(node, name, id, done, calls)));
    }

    method AdjustOther(name: string, node: string, p: int, q: int, f: Faults)
      requires Ready()
      modifies this, client, client.host
      ensures Ready() && old(states) <= states && pass == old(pass)
    {
      var done;
      ghost var id, ct;
      if * {
        done, id, ct := client.StartContainer(name, node, f);
      } else {
        done, id, ct := client.UpdateContainer(name, node, p, q, f);
      }
      Log(Outside(Adjust(node, name, id, done, ct)));
    }

    method CloneOther(ct: CT)
      requires Ready()
      modifies this, client, client.host
      ensures Ready() && old(states) <= states && pass == old(pass)
    {
      var next := AddGuest(ct, true);
      madeFor := Forget(site, madeFor, Op.Clone(site.node, next, ct));
      Log(Outside(Op.Clone(site.node, next, ct)));
    }

    /** The operator is restarted: the caches are empty. */
    method Restart()
      requires Ready() && pass.Idle?
      modifies this, client
      ensures Ready() && old(states) <= states && pass.Idle?
    {
      client.nodes := map[];
      Log(Crash);
    }

    /** Passes over other objects, which never run beside one over this object, and
        restarts of the operator. */
    method Elsewhere()
      requires Ready() && pass.Idle?
      modifies this, client, client.host
      ensures Ready() && pass.Idle? && old(states) <= states
    {
      var name: string, node: string, f: Faults, p: int, q: int, ct: CT := *, *, *, *, *, *;
      if
      case true => var found := FindNow(name, node, f);
      case true => ghost var id; var read; read, id := ReadNow(name, node, f);
      case true => DeleteOther(name, node, f);
      case true => AdjustOther(name, node, p, q, f);
      case true => CloneOther(ct);
      case true => Restart();
    }

    /** Any life of the object: passes in any weather, and between them whatever people,
        the watcher and passes over other objects do. If all of it was orderly, no guest
        is ever orphaned; if it was honest too, the applied image is true; and if no
        creation spoiled it, no right guest was made again. */
    method Operate(rounds: nat, weather: nat -> Weather)
      requires Ready() && pass.Idle?
      modifies this, client, client.host
      ensures Ready() && pass.Idle? && old(states) <= states
      ensures IsOrderly(site, states, labels) ==> !Orphaned(site, Now())
      ensures
        IsOrderly(site, states, labels) && IsHonest(site, states, labels) && TagLaws(site.naming) && !site.cloned &&
        !site.naming.blank(states[0].obj.value.image.ref) ==>
          TagAgrees(site, Now())
      ensures
        Good(site, states, labels) && TagLaws(site.naming) && !site.cloned &&
        !site.naming.blank(states[0].obj.value.image.ref) ==>
          forall i :: 0 <= i < |labels| ==> !WasteAt(site, states, labels, i)
    {
      for i := 0 to rounds
        invariant Ready() && pass.Idle? && old(states) <= states
      {
        var busy: bool := *;
        Others(busy);
        if * {
          Elsewhere();
        }
        Reconcile(weather(i));
      }
      if IsOrderly(site, states, labels) {
        NeverOrphaned();
      }
      if TagLaws(site.naming) && !site.cloned && !site.naming.blank(states[0].obj.value.image.ref) {
        if IsOrderly(site, states, labels) && IsHonest(site, states, labels) {
          AppliedIsTrue();
        }
        if Good(site, states, labels) {
          NothingWasted();
        }
      }
    }
  }
}
