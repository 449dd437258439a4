/** The part of the Proxmox API the Container code uses: listing, reading,
    stopping, destroying and creating LXC containers, each of which may fail. */
module ContainerHost {
  import opened Wrappers

  datatype CT = CT(name: string, running: bool, cores: int, memory: int, tags: string)

  /** Containers by node and VMID. */
  type Cts = map<(string, int), CT>

  /** The containers that were stopped or destroyed, in order. */
  datatype Call = StopCall(node: string, id: int) | DestroyCall(node: string, id: int)

  datatype Answer<+T> = Got(value: T) | Gone | NotRunning | Broken

  /** How a read goes wrong, if it does. A container that is stopped may refuse a
      status read with "not running". */
  datatype ReadFault = Fine | RefusesWhenStopped | Fails

  /** How a task ends. One that fails or is not waited out may still take effect. */
  datatype Task = Refused | TimedOut(applied: bool) | Failed(applied: bool) | Completed

  predicate Applied(t: Task) {
    match t
    case Refused => false
    case TimedOut(a) => a
    case Failed(a) => a
    case Completed => true
  }

  /** VMIDs are positive and node names not empty. */
  ghost predicate ValidCts(cts: Cts) {
    forall n, id :: (n, id) in cts ==> id > 0 && n != ""
  }

  ghost predicate HasName(cts: Cts, node: string, id: int, name: string) {
    (node, id) in cts && cts[(node, id)].name == name
  }

  ghost predicate NoneNamed(cts: Cts, node: string, name: string) {
    forall id :: (node, id) in cts ==> cts[(node, id)].name != name
  }

  class Host {
    var cts: Cts
    /** Names of QEMU guests, by node. */
    var vms: set<(string, string)>
    var calls: seq<Call>

    constructor (cts: Cts, vms: set<(string, string)>)
      ensures this.cts == cts && this.vms == vms && calls == []
    {
      this.cts, this.vms, calls := cts, vms, [];
    }

    /** The node's containers, in whatever order Proxmox lists them. */
    method Containers(node: string) returns (list: seq<int>)
      ensures forall id :: id in list <==> (node, id) in cts
    {
      list := [];
      var todo := cts.Keys;
      while todo != {}
        invariant todo <= cts.Keys
        invariant forall id :: id in list <==> (node, id) in cts.Keys - todo
        decreases |todo|
      {
        var at :| at in todo;
        if at.0 == node {
          list := list + [at.1];
        }
        todo := todo - {at};
      }
    }

    /** The cluster's guests of both types, as (is LXC, name, node), in any order. */
    method Resources() returns (list: seq<(bool, string, string)>)
      ensures forall at :: at in cts ==> (true, cts[at].name, at.0) in list
      ensures forall g :: g in list && g.0 ==> exists at :: at in cts && g == (true, cts[at].name, at.0)
    {
      list := [];
      var todo := cts.Keys;
      while todo != {}
        invariant todo <= cts.Keys
        invariant forall at :: at in cts && at !in todo ==> (true, cts[at].name, at.0) in list
        invariant forall g :: g in list && g.0 ==> exists at :: at in cts && g == (true, cts[at].name, at.0)
        decreases |todo|
      {
        var at :| at in todo;
        list := list + [(true, cts[at].name, at.0)];
        todo := todo - {at};
      }
      var rest := vms;
      while rest != {}
        invariant forall at :: at in cts ==> (true, cts[at].name, at.0) in list
        invariant forall g :: g in list && g.0 ==> exists at :: at in cts && g == (true, cts[at].name, at.0)
        decreases |rest|
      {
        var vm :| vm in rest;
        list := list + [(false, vm.1, vm.0)];
        rest := rest - {vm};
      }
    }

    function Status(node: string, id: int, fault: ReadFault): (a: Answer<CT>)
      reads this
      ensures a.Got? ==> (node, id) in cts && a.value == cts[(node, id)]
      ensures a.Gone? ==> (node, id) !in cts
      ensures a.NotRunning? ==> (node, id) in cts && !cts[(node, id)].running
    {
      if fault.Fails? then Broken
      else if (node, id) !in cts then Gone
      else if fault.RefusesWhenStopped? && !cts[(node, id)].running then NotRunning
      else Got(cts[(node, id)])
    }

    function Config(node: string, id: int, fails: bool): (a: Answer<CT>)
      reads this
      ensures a.Got? ==> (node, id) in cts && a.value == cts[(node, id)]
      ensures a.Gone? ==> (node, id) !in cts
      ensures !a.NotRunning?
    {
      if fails then Broken else if (node, id) !in cts then Gone else Got(cts[(node, id)])
    }

    method Stop(node: string, id: int, task: Task)
      requires (node, id) in cts
      modifies this
      ensures vms == old(vms) && calls == old(calls) + [StopCall(node, id)]
      ensures cts == if Applied(task) then old(cts)[(node, id) := old(cts)[(node, id)].(running := false)] else old(cts)
    {
      calls := calls + [StopCall(node, id)];
      if Applied(task) {
        cts := cts[(node, id) := cts[(node, id)].(running := false)];
      }
    }

    method Start(node: string, id: int, task: Task)
      requires (node, id) in cts
      modifies this
      ensures vms == old(vms) && calls == old(calls)
      ensures cts == if Applied(task) then old(cts)[(node, id) := old(cts)[(node, id)].(running := true)] else old(cts)
    {
      if Applied(task) {
        cts := cts[(node, id) := cts[(node, id)].(running := true)];
      }
    }

    method Configure(node: string, id: int, cores: int, memory: int, reply: Reply) returns (ok: bool)
      requires (node, id) in cts
      modifies this
      ensures vms == old(vms) && calls == old(calls) && (ok <==> reply.Answered?)
      ensures cts == if reply == Lost(false) then old(cts)
                     else old(cts)[(node, id) := old(cts)[(node, id)].(cores := cores, memory := memory)]
    {
      ok := reply.Answered?;
      if reply != Lost(false) {
        cts := cts[(node, id) := cts[(node, id)].(cores := cores, memory := memory)];
      }
    }

    method Destroy(node: string, id: int, task: Task)
      requires (node, id) in cts
      modifies this
      ensures vms == old(vms) && calls == old(calls) + [DestroyCall(node, id)]
      ensures cts == if Applied(task) then old(cts) - {(node, id)} else old(cts)
    {
      calls := calls + [DestroyCall(node, id)];
      if Applied(task) {
        cts := cts - {(node, id)};
      }
    }

    /** A VMID that is free: any VMID freed before may come back. */
    method NextID(node: string) returns (id: int)
      ensures id > 0 && (node, id) !in cts
    {
      id := 100;
      var rest := cts.Keys;
      while (node, id) in cts
        invariant id > 0 && forall k :: k >= id && (node, k) in cts ==> (node, k) in rest
        decreases |rest|
      {
        rest := rest - {(node, id)};
        id := id + 1;
      }
    }

    method Create(node: string, id: int, ct: CT)
      requires (node, id) !in cts
      modifies this
      ensures vms == old(vms) && calls == old(calls) && cts == old(cts)[(node, id) := ct]
    {
      cts := cts[(node, id) := ct];
    }
  }
}
