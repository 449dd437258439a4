/** The Proxmox client's container operations and its two caches: name to VMID and
    VMID to object (pkg/proxmox/containers.go, pkg/proxmox/container_cache_methods.go,
    pkg/proxmox/fetcher.go). */
module Containers {
  import opened Wrappers
  import opened ContainerHost

  /** A container object as the client holds it. Its info may be out of date. */
  datatype CtObj = CtObj(node: string, id: int, info: CT)

  datatype NodeCache = NodeCache(ids: map<string, int>, objs: map<int, CtObj>)

  type Nodes = map<string, NodeCache>

  datatype ClientError = NotFound | TaskError | OtherError

  /** What goes wrong during one operation, if anything. */
  datatype Faults = Faults(
    node: bool, list: bool, status: ReadFault, config: bool, start: Task, stop: Task, destroy: Task,
    configure: Reply, cluster: bool)

  const NO_FAULTS: Faults := Faults(false, false, Fine, false, Completed, Completed, Completed, Answered, false)

  /** Whatever goes wrong, it is not a read. */
  predicate ReadsFine(f: Faults) {
    !f.node && !f.list && !f.status.Fails? && !f.config
  }

  // -------------------------------------------------------------- cache values

  function CachedId(nodes: Nodes, node: string, name: string): Option<int> {
    if node in nodes && name in nodes[node].ids then Some(nodes[node].ids[name]) else None
  }

  function CachedObj(nodes: Nodes, node: string, id: int): Option<CtObj> {
    if node in nodes && id in nodes[node].objs then Some(nodes[node].objs[id]) else None
  }

  /** 0 is never a cached VMID, and an object is cached under its own node and VMID. */
  ghost predicate ValidNodes(nodes: Nodes) {
    && (forall n, m :: CachedId(nodes, n, m).Some? ==> CachedId(nodes, n, m).value > 0)
    && (forall n, id :: CachedObj(nodes, n, id).Some? ==>
         id > 0 && CachedObj(nodes, n, id).value.node == n && CachedObj(nodes, n, id).value.id == id)
  }

  /** The caches agree except, possibly, on one name and one VMID of `node`. */
  ghost predicate SameBut(nodes: Nodes, nodes': Nodes, node: string, name: string, id: int) {
    && (forall n, m :: (n, m) != (node, name) ==> CachedId(nodes', n, m) == CachedId(nodes, n, m))
    && (forall n, i :: (n, i) != (node, id) ==> CachedObj(nodes', n, i) == CachedObj(nodes, n, i))
  }

  /** `id` is what the name resolves to: the cached VMID, else a listed one, else 0. */
  ghost predicate Resolves(nodes: Nodes, cts: Cts, node: string, name: string, id: int) {
    match CachedId(nodes, node, name)
    case Some(c) => id == c
    case None => if id == 0 then NoneNamed(cts, node, name) else HasName(cts, node, id, name)
  }

  // ------------------------------------------------- contracts of the operations

  ghost predicate IdPost(nodes: Nodes, cts: Cts, node: string, name: string,
                         r: Result<int, ClientError>, nodes': Nodes)
  {
    && SameBut(nodes, nodes', node, name, 0) && CachedObj(nodes', node, 0) == CachedObj(nodes, node, 0)
    && (r.Ok? ==> Resolves(nodes, cts, node, name, r.value))
    && CachedId(nodes', node, name) ==
       if CachedId(nodes, node, name).None? && r.Ok? && r.value != 0 then Some(r.value) else CachedId(nodes, node, name)
  }

  /** The name is cached as it was, or has been looked up. */
  ghost predicate IdKept(nodes: Nodes, cts: Cts, node: string, name: string, id: int, nodes': Nodes) {
    || CachedId(nodes', node, name) == CachedId(nodes, node, name)
    || (CachedId(nodes, node, name).None? && CachedId(nodes', node, name) == Some(id) && HasName(cts, node, id, name))
  }

  /** The cached object is as it was, or shows the container as it is. */
  ghost predicate ObjKept(nodes: Nodes, cts: Cts, node: string, id: int, nodes': Nodes) {
    || CachedObj(nodes', node, id) == CachedObj(nodes, node, id)
    || ((node, id) in cts && CachedObj(nodes', node, id) == Some(CtObj(node, id, cts[(node, id)])))
  }

  /** `id` is the VMID the operation worked on. */
  ghost predicate RefreshPost(nodes: Nodes, cts: Cts, node: string, name: string, id: int,
                              r: Result<CtObj, ClientError>, nodes': Nodes) {
    && SameBut(nodes, nodes', node, name, id)
    && match r
       case Ok(o) =>
         && Resolves(nodes, cts, node, name, id)
         && (node, id) in cts && o == CtObj(node, id, cts[(node, id)])
         && CachedId(nodes', node, name) == Some(id) && CachedObj(nodes', node, id) == Some(o)
       case Err(NotFound) =>
         && Resolves(nodes, cts, node, name, id) && (node, id) !in cts
         && CachedId(nodes', node, name).None? && CachedObj(nodes', node, id).None?
       case Err(_) =>
         CachedObj(nodes', node, id) == CachedObj(nodes, node, id) && IdKept(nodes, cts, node, name, id, nodes')
  }

  /** Like a refresh, except that a cached object is returned as it is. */
  ghost predicate GetPost(nodes: Nodes, cts: Cts, node: string, name: string, id: int,
                          r: Result<CtObj, ClientError>, nodes': Nodes) {
    if CachedObj(nodes, node, id).Some? && r.Ok? then
      && Resolves(nodes, cts, node, name, id) && r.value == CachedObj(nodes, node, id).value
      && SameBut(nodes, nodes', node, name, 0) && CachedObj(nodes', node, 0) == CachedObj(nodes, node, 0)
      && CachedId(nodes', node, name) == Some(id)
    else RefreshPost(nodes, cts, node, name, id, r, nodes')
  }

  /** A container that runs is stopped before it is destroyed, one that does not is not
      stopped; the calls may end early. */
  ghost predicate InTurn(cts: Cts, node: string, id: int, calls: seq<Call>)
    requires (node, id) in cts
  {
    if cts[(node, id)].running then calls <= [StopCall(node, id), DestroyCall(node, id)]
    else calls <= [DestroyCall(node, id)]
  }

  /** One DeleteContainer call. Whatever the cache says, only a container that has
      the requested name right now is stopped or destroyed. */
  ghost predicate DeletePost(nodes: Nodes, cts: Cts, node: string, name: string, id: int,
                             r: Result<(), ClientError>, nodes': Nodes, cts': Cts, calls: seq<Call>) {
    && SameBut(nodes, nodes', node, name, id)
    && (calls != [] ==> HasName(cts, node, id, name) && InTurn(cts, node, id, calls))
    && (cts' == cts || (HasName(cts, node, id, name) &&
         (cts' == cts - {(node, id)} || cts' == cts[(node, id) := cts[(node, id)].(running := false)])))
    && ((node, id) in cts && (node, id) !in cts' ==> DestroyCall(node, id) in calls)
    && (r == Err(NotFound) ==>
         && calls == [] && cts' == cts && CachedId(nodes', node, name).None? && CachedObj(nodes', node, id).None?
         && Resolves(nodes, cts, node, name, id) && !HasName(cts, node, id, name))
    && (r.Ok? ==>
         && Resolves(nodes, cts, node, name, id) && HasName(cts, node, id, name)
         && cts' == cts - {(node, id)} && DestroyCall(node, id) in calls
         && CachedId(nodes', node, name).None? && CachedObj(nodes', node, id).None?)
    && (r.Err? && r != Err(NotFound) ==>
         && IdKept(nodes, cts, node, name, id, nodes') && ObjKept(nodes, cts, node, id, nodes')
         && (cts' != cts ==> CachedId(nodes', node, name) == Some(id)))
  }

  /** One StartContainer or UpdateContainer call: the container that the name resolves
      to becomes `ct`, which differs neither in name nor in tags, or stays. */
  ghost predicate AdjustPost(nodes: Nodes, cts: Cts, node: string, name: string, id: int,
                             r: Result<(), ClientError>, ct: CT, nodes': Nodes, cts': Cts) {
    && SameBut(nodes, nodes', node, name, id)
    && (cts' == cts ||
        ((node, id) in cts && ct.name == cts[(node, id)].name && ct.tags == cts[(node, id)].tags &&
         cts' == cts[(node, id) := ct]))
    && (r == Err(NotFound) ==> RefreshPost(nodes, cts, node, name, id, Err(NotFound), nodes') && cts' == cts)
    && (r.Ok? ==> Resolves(nodes, cts, node, name, id) && CachedId(nodes', node, name) == Some(id))
    && (r != Err(NotFound) ==>
         && IdKept(nodes, cts, node, name, id, nodes')
         && (CachedObj(nodes', node, id).None? || ObjKept(nodes, cts, node, id, nodes')))
  }

  /** A look at the VMID shows these cores and this much memory. */
  ghost predicate Shows(nodes: Nodes, cts: Cts, node: string, id: int, cores: int, memory: int)
    requires (node, id) in cts
  {
    var seen := if CachedObj(nodes, node, id).Some? then CachedObj(nodes, node, id).value.info else cts[(node, id)];
    seen.cores == cores && seen.memory == memory
  }

  datatype PollError = Removed | OnNode(node: string) | ClusterFailed | ReadFailed(e: ClientError)

  class ProxmoxClient {
    var nodes: Nodes
    const host: Host

    constructor (host: Host)
      ensures nodes == map[] && this.host == host
    {
      this.host := host;
      nodes := map[];
    }

    // ------------------------------------------------------------ cache methods

    method SetCachedContainerID(node: string, name: string, id: int)
      modifies this
      ensures CachedId(nodes, node, name) == Some(id)
      ensures forall n, m :: (n, m) != (node, name) ==> CachedId(nodes, n, m) == CachedId(old(nodes), n, m)
      ensures forall n, i :: CachedObj(nodes, n, i) == CachedObj(old(nodes), n, i)
    {
      if node !in nodes {
        nodes := nodes[node := NodeCache(map[], map[])];
      }
      nodes := nodes[node := nodes[node].(ids := nodes[node].ids[name := id])];
    }

    method SetCachedContainer(node: string, id: int, o: CtObj)
      modifies this
      ensures CachedObj(nodes, node, id) == Some(o)
      ensures forall n, i :: (n, i) != (node, id) ==> CachedObj(nodes, n, i) == CachedObj(old(nodes), n, i)
      ensures forall n, m :: CachedId(nodes, n, m) == CachedId(old(nodes), n, m)
    {
      if node !in nodes {
        nodes := nodes[node := NodeCache(map[], map[])];
      }
      nodes := nodes[node := nodes[node].(objs := nodes[node].objs[id := o])];
    }

    method DeleteCachedContainer(node: string, name: string)
      modifies this
      ensures CachedId(nodes, node, name).None?
      ensures forall n, m :: (n, m) != (node, name) ==> CachedId(nodes, n, m) == CachedId(old(nodes), n, m)
      ensures forall n, i :: CachedObj(nodes, n, i) == CachedObj(old(nodes), n, i)
    {
      if node in nodes {
        nodes := nodes[node := nodes[node].(ids := nodes[node].ids - {name})];
      }
    }

    method DeleteCachedContainerObject(node: string, id: int)
      modifies this
      ensures CachedObj(nodes, node, id).None?
      ensures forall n, i :: (n, i) != (node, id) ==> CachedObj(nodes, n, i) == CachedObj(old(nodes), n, i)
      ensures forall n, m :: CachedId(nodes, n, m) == CachedId(old(nodes), n, m)
    {
      if node in nodes {
        nodes := nodes[node := nodes[node].(objs := nodes[node].objs - {id})];
      }
    }

    /** Loads a node on first use; a known node costs no API call. */
    method GetNode(node: string, f: Faults) returns (ok: bool)
      modifies this
      ensures forall n, m :: CachedId(nodes, n, m) == CachedId(old(nodes), n, m)
      ensures forall n, i :: CachedObj(nodes, n, i) == CachedObj(old(nodes), n, i)
      ensures ok ==> node in nodes
      ensures node in old(nodes) || !f.node ==> ok
    {
      if node in nodes {
        return true;
      }
      if f.node {
        return false;
      }
      nodes := nodes[node := NodeCache(map[], map[])];
      ok := true;
    }

    // ----------------------------------------------------------------- look-ups

    /** The first listed container of that name, remembered in the cache. */
    method ListForName(name: string, node: string, f: Faults) returns (r: Result<int, ClientError>)
      requires ValidCts(host.cts)
      modifies this
      ensures r.Ok? ==> if r.value == 0 then NoneNamed(host.cts, node, name) else HasName(host.cts, node, r.value, name)
      ensures forall n, i :: CachedObj(nodes, n, i) == CachedObj(old(nodes), n, i)
      ensures forall n, m :: (n, m) != (node, name) ==> CachedId(nodes, n, m) == CachedId(old(nodes), n, m)
      ensures CachedId(nodes, node, name) ==
        if r.Ok? && r.value != 0 then Some(r.value) else CachedId(old(nodes), node, name)
      ensures r.Err? ==> r.error.OtherError?
      ensures !f.list ==> r.Ok?
    {
      if f.list {
        return Err(OtherError);
      }
      var list := host.Containers(node);
      for i := 0 to |list|
        invariant nodes == old(nodes) && forall id :: id in list ==> (node, id) in host.cts
        invariant forall k :: 0 <= k < i ==> (node, list[k]) in host.cts && host.cts[(node, list[k])].name != name
      {
        assert list[i] in list;
        if host.cts[(node, list[i])].name == name {
          SetCachedContainerID(node, name, list[i]);
          return Ok(list[i]);
        }
      }
      r := Ok(0);
    }

    method GetContainerID(name: string, node: string, f: Faults) returns (r: Result<int, ClientError>)
      requires ValidCts(host.cts)
      modifies this
      ensures IdPost(old(nodes), host.cts, node, name, r, nodes)
      ensures ValidNodes(old(nodes)) ==> ValidNodes(nodes)
      ensures r.Err? ==> r.error.OtherError?
      ensures !f.node && !f.list ==> r.Ok?
    {
      var ok := GetNode(node, f);
      if !ok {
        return Err(OtherError);
      }
      var cached := CachedId(nodes, node, name);
      if cached.Some? {
        return Ok(cached.value);
      }
      r := ListForName(name, node, f);
    }

    /** Answers from the cache without asking Proxmox when the name is cached.
        `found` is the VMID behind the answer. */
    method ContainerExists(name: string, node: string, f: Faults)
      returns (r: Result<bool, ClientError>, ghost found: Result<int, ClientError>)
      requires ValidCts(host.cts) && ValidNodes(nodes)
      modifies this
      ensures IdPost(old(nodes), host.cts, node, name, found, nodes)
      ensures r == if found.Err? then Err(found.error) else Ok(found.value != 0)
      ensures r == Ok(true) ==> CachedId(nodes, node, name) == Some(found.value)
      ensures ValidNodes(nodes)
      ensures !f.node && !f.list ==> r.Ok?
      ensures r.Err? ==> r.error.OtherError?
      ensures CachedId(old(nodes), node, name).Some? ==> r == Ok(true)
    {
      var cached := CachedId(nodes, node, name);
      if cached.Some? {
        found := Ok(cached.value);
        return Ok(true), found;
      }
      var ok := GetNode(node, f);
      if !ok {
        return Err(OtherError), Err(OtherError);
      }
      var id := ListForName(name, node, f);
      found := id;
      if id.Err? {
        return Err(id.error), found;
      }
      r := Ok(id.value != 0);
    }

    /** Reads the container past the cached object and caches what it read. */
    method RefreshContainer(name: string, node: string, f: Faults)
      returns (r: Result<CtObj, ClientError>, ghost id: int)
      requires ValidCts(host.cts) && ValidNodes(nodes)
      modifies this
      ensures RefreshPost(old(nodes), host.cts, node, name, id, r, nodes)
      ensures ValidNodes(nodes) && r != Err(TaskError)
      ensures CachedId(old(nodes), node, name).Some? ==> id == CachedId(old(nodes), node, name).value
      ensures ReadsFine(f) ==> (r.Ok? <==> (node, id) in host.cts) && (r.Err? ==> r == Err(NotFound))
    {
      id := if CachedId(nodes, node, name).Some? then CachedId(nodes, node, name).value else 0;
      var ok := GetNode(node, f);
      if !ok {
        return Err(OtherError), id;
      }
      var vmid := GetContainerID(name, node, f);
      if vmid.Err? {
        return Err(vmid.error), id;
      }
      id := vmid.value;
      if vmid.value == 0 {
        return Err(NotFound), id;
      }
      var answer := host.Status(node, vmid.value, f.status);
      if answer.NotRunning? {
        answer := host.Config(node, vmid.value, f.config);
      }
      if answer.Gone? {
        DeleteCachedContainer(node, name);
        DeleteCachedContainerObject(node, vmid.value);
        return Err(NotFound), id;
      }
      if !answer.Got? {
        return Err(OtherError), id;
      }
      var o := CtObj(node, vmid.value, answer.value);
      SetCachedContainer(node, vmid.value, o);
      r := Ok(o);
    }

    method GetContainer(name: string, node: string, f: Faults)
      returns (r: Result<CtObj, ClientError>, ghost id: int)
      requires ValidCts(host.cts) && ValidNodes(nodes)
      modifies this
      ensures GetPost(old(nodes), host.cts, node, name, id, r, nodes)
      ensures ValidNodes(nodes) && r != Err(TaskError)
      ensures ReadsFine(f) && r.Err? ==> r == Err(NotFound)
      ensures r == Err(NotFound) ==> CachedObj(old(nodes), node, id).None?
    {
      id := 0;
      var vmid := GetContainerID(name, node, f);
      if vmid.Err? {
        return Err(vmid.error), id;
      }
      var cached := CachedObj(nodes, node, vmid.value);
      if cached.Some? {
        return Ok(cached.value), vmid.value;
      }
      r, id := RefreshContainer(name, node, f);
    }

    // ----------------------------------------------------------------- deletion

    method DropBoth(node: string, name: string, id: int)
      requires ValidNodes(nodes)
      modifies this
      ensures SameBut(old(nodes), nodes, node, name, id) && ValidNodes(nodes)
      ensures CachedId(nodes, node, name).None? && CachedObj(nodes, node, id).None?
    {
      DeleteCachedContainer(node, name);
      DeleteCachedContainerObject(node, id);
    }

    /** The wait for a task: not finished comes before failed. */
    method TaskResult(t: Task) returns (r: Result<(), ClientError>)
      ensures r.Ok? <==> t.Completed?
      ensures r == Err(TaskError) <==> t.Failed?
      ensures r != Err(NotFound)
    {
      match t {
        case Refused => r := Err(OtherError);
        case TimedOut(_) => r := Err(OtherError);
        case Failed(_) => r := Err(TaskError);
        case Completed => r := Ok(());
      }
    }

    /** The container as it is now: a ping, or its config when it is stopped and
        cannot be pinged. A ping writes what it read into the cached object itself. */
    method ReadCurrent(node: string, id: int, f: Faults) returns (answer: Answer<CT>)
      requires ValidNodes(nodes) && id > 0
      modifies this
      ensures ValidNodes(nodes)
      ensures answer.Got? ==> (node, id) in host.cts && answer.value == host.cts[(node, id)]
      ensures answer.Gone? ==> (node, id) !in host.cts
      ensures ReadsFine(f) ==> answer.Got? || answer.Gone?
      ensures forall n, m :: CachedId(nodes, n, m) == CachedId(old(nodes), n, m)
      ensures forall n, i :: (n, i) != (node, id) ==> CachedObj(nodes, n, i) == CachedObj(old(nodes), n, i)
      ensures CachedObj(nodes, node, id) ==
        if host.Status(node, id, f.status).Got? then Some(CtObj(node, id, host.cts[(node, id)]))
        else CachedObj(old(nodes), node, id)
    {
      answer := host.Status(node, id, f.status);
      if answer.Got? {
        SetCachedContainer(node, id, CtObj(node, id, answer.value));
      } else if answer.NotRunning? {
        answer := host.Config(node, id, f.config);
      }
    }

    method StopAndDestroy(node: string, id: int, f: Faults) returns (r: Result<(), ClientError>, ghost sent: seq<Call>)
      requires (node, id) in host.cts
      modifies host
      ensures host.vms == old(host.vms) && host.calls == old(host.calls) + sent
      ensures
        if !old(host.cts)[(node, id)].running then
          && sent == [DestroyCall(node, id)] && (r.Ok? <==> f.destroy.Completed?)
          && (r == Err(TaskError) <==> f.destroy.Failed?)
        else if f.stop.Completed? then
          && sent == [StopCall(node, id), DestroyCall(node, id)] && (r.Ok? <==> f.destroy.Completed?)
          && (r == Err(TaskError) <==> f.destroy.Failed?)
        else
          && sent == [StopCall(node, id)] && r.Err? && (r == Err(TaskError) <==> f.stop.Failed?)
          && (node, id) in host.cts
      ensures host.cts == old(host.cts) || host.cts == old(host.cts) - {(node, id)} ||
              host.cts == old(host.cts)[(node, id) := old(host.cts)[(node, id)].(running := false)]
      ensures r.Ok? ==> host.cts == old(host.cts) - {(node, id)}
      ensures r != Err(NotFound)
    {
      sent := [];
      if host.cts[(node, id)].running {
        host.Stop(node, id, f.stop);
        sent := [StopCall(node, id)];
        r := TaskResult(f.stop);
        if r.Err? {
          return;
        }
      }
      host.Destroy(node, id, f.destroy);
      sent := sent + [DestroyCall(node, id)];
      r := TaskResult(f.destroy);
    }

    /** The VMID to delete: what the name resolves to, if a container of the name is
        there now. */
    method FindToDelete(name: string, node: string, f: Faults) returns (r: Result<int, ClientError>, ghost id: int)
      requires ValidCts(host.cts) && ValidNodes(nodes)
      modifies this
      ensures ValidNodes(nodes) && SameBut(old(nodes), nodes, node, name, id)
      ensures r.Ok? ==> r.value == id && HasName(host.cts, node, id, name) && CachedId(nodes, node, name) == Some(id)
      ensures r.Ok? || r == Err(NotFound) ==> Resolves(old(nodes), host.cts, node, name, id)
      ensures r == Err(NotFound) ==>
        && !HasName(host.cts, node, id, name)
        && CachedId(nodes, node, name).None? && CachedObj(nodes, node, id).None?
      ensures r != Err(NotFound) ==>
        IdKept(old(nodes), host.cts, node, name, id, nodes) && ObjKept(old(nodes), host.cts, node, id, nodes)
      ensures r != Err(TaskError)
      ensures ReadsFine(f) ==> (r.Ok? <==> HasName(host.cts, node, id, name)) && (r.Err? ==> r == Err(NotFound))
    {
      var got;
      got, id := GetContainer(name, node, f);
      if got == Err(NotFound) {
        DeleteCachedContainer(node, name);
        return Err(NotFound), id;
      }
      if got.Err? {
        return Err(got.error), id;
      }
      var vmid := got.value.id;
      assert vmid == id && id > 0;
      var answer := ReadCurrent(node, vmid, f);
      if answer.Gone? || (answer.Got? && answer.value.name != name) {
        DropBoth(node, name, vmid);
        return Err(NotFound), id;
      }
      r := if answer.Got? then Ok(vmid) else Err(OtherError);
    }

    method DeleteContainer(name: string, node: string, f: Faults)
      returns (r: Result<(), ClientError>, ghost id: int, ghost sent: seq<Call>)
      requires ValidCts(host.cts) && ValidNodes(nodes)
      modifies this, host
      ensures host.vms == old(host.vms) && host.calls == old(host.calls) + sent
      ensures DeletePost(old(nodes), old(host.cts), node, name, id, r, nodes, host.cts, sent)
      // stop, then destroy; one whose stop does not complete is left alone
      ensures HasName(old(host.cts), node, id, name) && DestroyCall(node, id) in sent ==>
        sent == if old(host.cts)[(node, id)].running then [StopCall(node, id), DestroyCall(node, id)]
                else [DestroyCall(node, id)]
      ensures HasName(old(host.cts), node, id, name) && !old(host.cts)[(node, id)].running ==>
        StopCall(node, id) !in sent
      ensures HasName(old(host.cts), node, id, name) && old(host.cts)[(node, id)].running && !f.stop.Completed? ==>
        r.Err? && DestroyCall(node, id) !in sent && (node, id) in host.cts
      ensures r.Ok? ==> DestroyCall(node, id) in sent && f.destroy.Completed?
      ensures r == Err(TaskError) ==> sent != [] && (f.stop.Failed? || f.destroy.Failed?)
      ensures ValidCts(host.cts) && ValidNodes(nodes)
      ensures f == NO_FAULTS ==> (r.Ok? <==> HasName(old(host.cts), node, id, name)) && (r.Err? ==> r == Err(NotFound))
      ensures ReadsFine(f) ==>
        && (r == Err(NotFound) <==> !HasName(old(host.cts), node, id, name))
        && (HasName(old(host.cts), node, id, name) ==>
              (r.Ok? <==> (old(host.cts)[(node, id)].running ==> f.stop.Completed?) && f.destroy.Completed?))
    {
      sent := [];
      var found;
      found, id := FindToDelete(name, node, f);
      if found.Err? {
        return Err(found.error), id, sent;
      }
      r, sent := StopAndDestroy(node, found.value, f);
      if r.Ok? {
        DropBoth(node, name, found.value);
      }
    }

    // ---------------------------------------------------------- start and update

    /** A container that a ping shows to run is not started. */
    method PingAndStart(node: string, id: int, f: Faults) returns (r: Result<(), ClientError>, started: bool)
      requires ValidNodes(nodes) && id > 0
      modifies this, host
      ensures ValidNodes(nodes) && host.vms == old(host.vms) && host.calls == old(host.calls)
      ensures forall n, m :: CachedId(nodes, n, m) == CachedId(old(nodes), n, m)
      ensures forall n, i :: (n, i) != (node, id) ==> CachedObj(nodes, n, i) == CachedObj(old(nodes), n, i)
      ensures ObjKept(old(nodes), old(host.cts), node, id, nodes)
      ensures r != Err(NotFound) && (r.Err? ==> !started)
      ensures host.cts == old(host.cts) ||
        ((node, id) in old(host.cts) &&
         host.cts == old(host.cts)[(node, id) := old(host.cts)[(node, id)].(running := true)])
      ensures r.Ok? ==> (node, id) in host.cts && host.cts[(node, id)].running
      ensures r.Ok? && !started ==>
        host.cts == old(host.cts) && CachedObj(nodes, node, id) == Some(CtObj(node, id, host.cts[(node, id)]))
      ensures !f.status.Fails? && (node, id) in old(host.cts) ==>
        if old(host.cts)[(node, id)].running then r.Ok? && !started
        else (r.Ok? <==> f.start.Completed?) && (r.Ok? <==> started)
      ensures f == NO_FAULTS ==> (r.Ok? <==> (node, id) in old(host.cts))
    {
      started := false;
      var answer := host.Status(node, id, f.status);
      if answer.Got? {
        SetCachedContainer(node, id, CtObj(node, id, answer.value));
        if answer.value.running {
          return Ok(()), started;
        }
      } else if !answer.NotRunning? {
        return Err(OtherError), started;
      }
      host.Start(node, id, f.start);
      r := TaskResult(f.start);
      started := r.Ok?;
    }

    /** Starts the container the name resolves to, whichever that is. */
    method StartContainer(name: string, node: string, f: Faults)
      returns (r: Result<(), ClientError>, ghost id: int, ghost ct: CT)
      requires ValidCts(host.cts) && ValidNodes(nodes)
      modifies this, host
      ensures ValidCts(host.cts) && ValidNodes(nodes) && host.vms == old(host.vms) && host.calls == old(host.calls)
      ensures AdjustPost(old(nodes), old(host.cts), node, name, id, r, ct, nodes, host.cts)
      ensures (node, id) in old(host.cts) ==> ct == old(host.cts)[(node, id)].(running := true)
      ensures r.Ok? ==> (node, id) in host.cts && host.cts[(node, id)].running
      ensures r.Ok? && CachedObj(nodes, node, id).Some? ==>
        CachedObj(nodes, node, id).value.info == host.cts[(node, id)]
      ensures ReadsFine(f) ==>
        && Resolves(old(nodes), old(host.cts), node, name, id)
        && (r.Ok? <==>
              (node, id) in old(host.cts) && (old(host.cts)[(node, id)].running || f.start.Completed?))
    {
      ct := CT("", true, 0, 0, "");
      var got;
      got, id := GetContainer(name, node, f);
      if (node, id) in host.cts {
        ct := host.cts[(node, id)].(running := true);
      }
      if got.Err? {
        return Err(got.error), id, ct;
      }
      var vmid := got.value.id;
      var started;
      r, started := PingAndStart(node, vmid, f);
      if started {
        DeleteCachedContainerObject(node, vmid);
      }
    }

    /** Sets cores and memory if the object has others: without faults the container has
        them afterwards unless an object that is out of date shows them. */
    method UpdateContainer(name: string, node: string, cores: int, memory: int, f: Faults)
      returns (r: Result<(), ClientError>, ghost id: int, ghost ct: CT)
      requires ValidCts(host.cts) && ValidNodes(nodes)
      modifies this, host
      ensures ValidCts(host.cts) && ValidNodes(nodes) && host.vms == old(host.vms) && host.calls == old(host.calls)
      ensures AdjustPost(old(nodes), old(host.cts), node, name, id, r, ct, nodes, host.cts)
      ensures (node, id) in old(host.cts) ==> ct == old(host.cts)[(node, id)].(cores := cores, memory := memory)
      ensures ReadsFine(f) ==> Resolves(old(nodes), old(host.cts), node, name, id)
      ensures r.Ok? && host.cts != old(host.cts) ==> CachedObj(nodes, node, id).None?
      ensures ReadsFine(f) && f.configure.Answered? && (node, id) in old(host.cts) ==>
        if Shows(old(nodes), old(host.cts), node, id, cores, memory) then host.cts == old(host.cts)
        else CachedObj(nodes, node, id).None?
      ensures
        ReadsFine(f) && CachedObj(old(nodes), node, id).Some? && (node, id) in old(host.cts) &&
        Shows(old(nodes), old(host.cts), node, id, cores, memory) ==>
          CachedObj(nodes, node, id) == CachedObj(old(nodes), node, id)
      ensures ReadsFine(f) && f.configure.Answered? && (node, id) in old(host.cts) ==>
        && r.Ok?
        && (host.cts[(node, id)] == ct <==>
              old(host.cts)[(node, id)] == ct || !Shows(old(nodes), old(host.cts), node, id, cores, memory))
    {
      ct := CT("", true, 0, 0, "");
      var got;
      got, id := GetContainer(name, node, f);
      if (node, id) in host.cts {
        ct := host.cts[(node, id)].(cores := cores, memory := memory);
      }
      if got.Err? {
        return Err(got.error), id, ct;
      }
      var vmid := got.value.id;
      if cores == got.value.info.cores && memory == got.value.info.memory {
        return Ok(()), id, ct;
      }
      if (node, vmid) !in host.cts {
        return Err(OtherError), id, ct;
      }
      var ok := host.Configure(node, vmid, cores, memory, f.configure);
      if !ok {
        return Err(OtherError), id, ct;
      }
      DeleteCachedContainerObject(node, vmid);
      r := Ok(());
    }

    // --------------------------------------------------------------- the poller

    /** The node that has an LXC of that name, "" for none. */
    method FindContainerNode(name: string, f: Faults) returns (r: Result<string, ClientError>)
      requires ValidCts(host.cts)
      ensures r.Err? <==> f.cluster
      ensures r.Ok? && r.value == "" ==> forall n, id :: (n, id) in host.cts ==> host.cts[(n, id)].name != name
      ensures r.Ok? && r.value != "" ==> exists id :: HasName(host.cts, r.value, id, name)
    {
      if f.cluster {
        return Err(OtherError);
      }
      var resources := host.Resources();
      for i := 0 to |resources|
        invariant forall k :: 0 <= k < i ==> !(resources[k].0 && resources[k].1 == name)
      {
        if resources[i].0 && resources[i].1 == name {
          assert resources[i] in resources;
          ghost var at :| at in host.cts && resources[i] == (true, host.cts[at].name, at.0);
          assert HasName(host.cts, at.0, at.1, name);
          return Ok(resources[i].2);
        }
      }
      forall n, id | (n, id) in host.cts ensures host.cts[(n, id)].name != name {
        assert (true, host.cts[(n, id)].name, n) in resources;
      }
      r := Ok("");
    }

    /** One poll of the external watcher. Removal is reported only when no node of
        the cluster has an LXC of that name. */
    method FetchExternalResource(name: string, node: string, f: Faults)
      returns (r: Result<CtObj, PollError>, ghost id: int)
      requires ValidCts(host.cts) && ValidNodes(nodes)
      modifies this
      ensures ValidNodes(nodes)
      ensures r.Ok? ==> RefreshPost(old(nodes), host.cts, node, name, id, Ok(r.value), nodes)
      ensures r.Err? && !r.error.ReadFailed? ==> RefreshPost(old(nodes), host.cts, node, name, id, Err(NotFound), nodes)
      ensures r.Err? && r.error.ReadFailed? ==>
        RefreshPost(old(nodes), host.cts, node, name, id, Err(r.error.e), nodes) && !r.error.e.NotFound?
      ensures r == Err(Removed) ==> forall n, i :: (n, i) in host.cts ==> host.cts[(n, i)].name != name
      ensures r.Err? && r.error.OnNode? ==> exists i :: HasName(host.cts, r.error.node, i, name)
      ensures r.Err? && r.error.ClusterFailed? ==> f.cluster
      ensures f == NO_FAULTS ==> r.Ok? || r.error.Removed? || r.error.OnNode?
      ensures f == NO_FAULTS && (node, id) !in host.cts ==>
        (forall n, i :: (n, i) in host.cts ==> host.cts[(n, i)].name != name) ==> r == Err(Removed)
    {
      var got;
      got, id := RefreshContainer(name, node, f);
      if got == Err(NotFound) {
        var where := FindContainerNode(name, f);
        if where.Err? {
          return Err(ClusterFailed), id;
        }
        if where.value != "" {
          return Err(OnNode(where.value)), id;
        }
        return Err(Removed), id;
      }
      if got.Err? {
        return Err(ReadFailed(got.error)), id;
      }
      r := Ok(got.value);
    }
  }
}
