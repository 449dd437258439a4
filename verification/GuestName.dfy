/** Which Kubemox resource owns a Proxmox guest name (pkg/guestname/guestname.go). */
module GuestName {
  import opened Wrappers
  import opened Ordering

  /** Simple case folding of one character. The Unicode tables are a parameter
      of the model: every result below holds for each folding function. */
  type FoldTable = char -> char

  /** The guest a resource manages. `lxc` is set for Containers only. */
  datatype Claim = Claim(
    kind: string, namespace: string, name: string,
    created: int,
    lxc: bool,
    connRef: Option<string>,
    node: string, guest: string)
  {
    function Conn(): string {
      match connRef
      case None => ""
      case Some(ref) => ref
    }

    predicate SameObject(o: Claim) {
      kind == o.kind && namespace == o.namespace && name == o.name
    }

    /** Oldest first; ties go to the smaller kind, then namespace, then name. */
    predicate Before(o: Claim) {
      if created != o.created then created < o.created
      else if kind != o.kind then Less(kind, o.kind)
      else if namespace != o.namespace then Less(namespace, o.namespace)
      else Less(name, o.name)
    }

    /** Containers are told apart by exact name, QEMU guests case-insensitively. */
    predicate SameGuest(fold: FoldTable, o: Claim) {
      if lxc != o.lxc || Conn() != o.Conn() || node != o.node then false
      else if lxc then guest == o.guest
      else EqualFold(fold, guest, o.guest)
    }
  }

  predicate EqualFold(fold: FoldTable, s: string, t: string) {
    |s| == |t| && forall i :: 0 <= i < |s| ==> fold(s[i]) == fold(t[i])
  }

  // ---------------------------------------------------------------- relations

  lemma SameGuestIsEquivalence(fold: FoldTable, a: Claim, b: Claim, c: Claim)
    ensures a.SameGuest(fold, a)
    ensures a.SameGuest(fold, b) <==> b.SameGuest(fold, a)
    ensures a.SameGuest(fold, b) && b.SameGuest(fold, c) ==> a.SameGuest(fold, c)
  {
  }

  /** `Before` is irreflexive and transitive, and connects any two distinct objects. */
  lemma BeforeIsStrictTotalOrder(a: Claim, b: Claim, c: Claim)
    ensures !a.Before(a)
    ensures a.Before(b) ==> !b.Before(a)
    ensures a.Before(b) && b.Before(c) ==> a.Before(c)
    ensures !a.SameObject(b) ==> a.Before(b) || b.Before(a)
  {
    LessIrreflexive(a.name);
    BeforeTransitive(a, b, c);
    if a.Before(b) && b.Before(a) {
      BeforeTransitive(a, b, a);
    }
    if a.kind != b.kind { LessConnected(a.kind, b.kind); }
    if a.namespace != b.namespace { LessConnected(a.namespace, b.namespace); }
    if a.name != b.name { LessConnected(a.name, b.name); }
  }

  lemma BeforeTransitive(a: Claim, b: Claim, c: Claim)
    ensures a.Before(b) && b.Before(c) ==> a.Before(c)
  {
    if a.Before(b) && b.Before(c) && a.created == b.created == c.created {
      if Less(a.kind, b.kind) && Less(b.kind, c.kind) {
        LessTransitive(a.kind, b.kind, c.kind); LessIrreflexive(a.kind);
      } else if a.kind == b.kind == c.kind {
        if Less(a.namespace, b.namespace) && Less(b.namespace, c.namespace) {
          LessTransitive(a.namespace, b.namespace, c.namespace); LessIrreflexive(a.namespace);
        } else if a.namespace == b.namespace == c.namespace {
          LessTransitive(a.name, b.name, c.name);
        }
      }
    }
  }

  // -------------------------------------------------------------------- owner

  /** No two entries are snapshots of one resource. */
  ghost predicate Distinct(claims: seq<Claim>) {
    forall i, j :: 0 <= i < |claims| && 0 <= j < |claims| && claims[i].SameObject(claims[j]) ==> i == j
  }

  /** `owner` claims c's guest, was listed (or is c) and nothing listed for the guest is before it. */
  ghost predicate IsOwner(fold: FoldTable, claims: seq<Claim>, c: Claim, owner: Claim) {
    && (owner == c || owner in claims)
    && c.SameGuest(fold, owner)
    && (forall o :: o in claims && c.SameGuest(fold, o) ==> !o.Before(owner))
    && !c.Before(owner)
  }

  /** `o` was created no later than `p`; of two created at one time it is not after it
      by kind, then namespace, then name. */
  ghost predicate NoLater(o: Claim, p: Claim) {
    && o.created <= p.created
    && (o.created == p.created ==>
          && !Less(p.kind, o.kind)
          && (p.kind == o.kind ==>
                && !Less(p.namespace, o.namespace)
                && (p.namespace == o.namespace ==> !Less(p.name, o.name))))
  }

  /** Names are exact among containers and folded among QEMU guests; a missing reference
      to a connection is one to "". */
  ghost function Place(fold: FoldTable, c: Claim): (bool, string, string, seq<char>) {
    (c.lxc, if c.connRef.Some? then c.connRef.value else "", c.node,
     if c.lxc then c.guest else seq(|c.guest|, i requires 0 <= i < |c.guest| => fold(c.guest[i])))
  }

  /** The guest is the place: two claims are on one guest exactly when they say the same. */
  lemma SameGuestExactly(fold: FoldTable, a: Claim, b: Claim)
    ensures a.SameGuest(fold, b) <==> Place(fold, a) == Place(fold, b)
  {
    var x, y := Place(fold, a).3, Place(fold, b).3;
    if !a.lxc && !b.lxc && x == y {
      forall i | 0 <= i < |a.guest| ensures fold(a.guest[i]) == fold(b.guest[i]) {
        assert x[i] == y[i];
      }
    }
  }

  lemma NoLaterExactly(o: Claim, p: Claim)
    ensures NoLater(o, p) <==> !p.Before(o)
  {
    LessIrreflexive(o.kind);
    LessIrreflexive(o.namespace);
    if Less(p.kind, o.kind) && Less(o.kind, p.kind) {
      LessTransitive(p.kind, o.kind, p.kind);
    }
  }

  /** The fold over the listing; the first of equals wins. The owner is the oldest claim
      on the guest. */
  method Owner(fold: FoldTable, listing: Result<seq<Claim>, string>, c: Claim)
    returns (r: Result<Claim, string>)
    ensures listing.Err? ==> r == Err(listing.error)
    ensures listing.Ok? ==> r.Ok? && IsOwner(fold, listing.value, c, r.value)
    ensures listing.Ok? ==> NoLater(r.value, c) && Place(fold, r.value) == Place(fold, c)
    ensures listing.Ok? ==>
      forall o :: o in listing.value && Place(fold, o) == Place(fold, c) ==> NoLater(r.value, o)
  {
    if listing.Err? {
      return Err(listing.error);
    }
    var claims := listing.value;
    var owner := c;
    LessIrreflexive(c.name);
    for i := 0 to |claims|
      invariant IsOwner(fold, claims[..i], c, owner)
    {
      var o := claims[i];
      if c.SameGuest(fold, o) && o.Before(owner) {
        forall p | p in claims[..i] && c.SameGuest(fold, p) ensures !p.Before(o) {
          BeforeIsStrictTotalOrder(p, o, owner);
        }
        BeforeIsStrictTotalOrder(c, o, owner);
        owner := o;
      }
      BeforeIsStrictTotalOrder(o, owner, o);
    }
    assert claims[..|claims|] == claims;
    r := Ok(owner);
    SameGuestExactly(fold, c, owner);
    NoLaterExactly(owner, c);
    forall o | o in claims && Place(fold, o) == Place(fold, c) ensures NoLater(owner, o) {
      SameGuestExactly(fold, c, o);
      NoLaterExactly(owner, o);
    }
  }

  /** The owner is determined: any two lists with the same entries, asked for any
      two claims on one guest, give the same answer. So neither the order of a
      listing nor the reconcile that asks can change who owns the guest. */
  lemma OwnerIsUnique(fold: FoldTable, claims: seq<Claim>, other: seq<Claim>, c: Claim, d: Claim,
                      x: Claim, y: Claim)
    requires Distinct(claims) && multiset(claims) == multiset(other)
    requires c in claims && d in claims && c.SameGuest(fold, d)
    requires IsOwner(fold, claims, c, x) && IsOwner(fold, other, d, y)
    ensures x == y
  {
    assert x in multiset(claims) && y in multiset(other);
    assert x in multiset(other) && y in multiset(claims);
    SameGuestIsEquivalence(fold, c, d, y);
    SameGuestIsEquivalence(fold, d, c, x);
    BeforeIsStrictTotalOrder(x, y, x);
  }

  // --------------------------------------------------------------------- list

  /** A listed resource, as far as claims go. */
  datatype Resource = Resource(
    namespace: string, name: string, created: int, connRef: Option<string>, node: string, guest: string)

  function ForVM(r: Resource): Claim {
    Claim("VirtualMachine", r.namespace, r.name, r.created, false, r.connRef, r.node, r.guest)
  }

  function ForTemplate(r: Resource): Claim {
    Claim("VirtualMachineTemplate", r.namespace, r.name, r.created, false, r.connRef, r.node, r.guest)
  }

  function ForContainer(r: Resource): Claim {
    Claim("Container", r.namespace, r.name, r.created, true, r.connRef, r.node, r.guest)
  }

  /** What a claim takes over from its resource, whatever its kind. */
  ghost predicate ClaimOf(c: Claim, r: Resource, kind: string, lxc: bool) {
    && c.kind == kind && c.lxc == lxc && c.namespace == r.namespace && c.name == r.name && c.created == r.created
    && c.connRef == r.connRef && c.node == r.node && c.guest == r.guest
  }

  function Map(rs: seq<Resource>, claim: Resource -> Claim): seq<Claim> {
    seq(|rs|, i requires 0 <= i < |rs| => claim(rs[i]))
  }

  datatype Api = Api(
    vms: Result<seq<Resource>, string>,
    templates: Result<seq<Resource>, string>,
    containers: Result<seq<Resource>, string>)

  method List(api: Api, lxc: bool) returns (r: Result<seq<Claim>, string>)
    ensures r.Ok? <==> if lxc then api.containers.Ok? else api.vms.Ok? && api.templates.Ok?
    ensures r.Ok? && lxc ==> r.value == Map(api.containers.value, ForContainer)
    ensures r.Ok? && !lxc ==> r.value == Map(api.vms.value, ForVM) + Map(api.templates.value, ForTemplate)
    ensures r.Ok? && lxc ==>
      && |r.value| == |api.containers.value|
      && forall i :: 0 <= i < |r.value| ==> ClaimOf(r.value[i], api.containers.value[i], "Container", true)
    ensures r.Ok? && !lxc ==>
      var n := |api.vms.value|;
      && |r.value| == n + |api.templates.value|
      && (forall i :: 0 <= i < n ==> ClaimOf(r.value[i], api.vms.value[i], "VirtualMachine", false))
      && (forall i :: n <= i < |r.value| ==>
            ClaimOf(r.value[i], api.templates.value[i - n], "VirtualMachineTemplate", false))
  {
    var claims: seq<Claim> := [];
    if lxc {
      if api.containers.Err? { return Err("listing Containers: " + api.containers.error); }
      var cts := api.containers.value;
      for i := 0 to |cts|
        invariant |claims| == i && forall k :: 0 <= k < i ==> claims[k] == ForContainer(cts[k])
      {
        claims := claims + [ForContainer(cts[i])];
      }
      return Ok(claims);
    }
    if api.vms.Err? { return Err("listing VirtualMachines: " + api.vms.error); }
    var vms := api.vms.value;
    for i := 0 to |vms|
      invariant |claims| == i && forall k :: 0 <= k < i ==> claims[k] == ForVM(vms[k])
    {
      claims := claims + [ForVM(vms[i])];
    }
    if api.templates.Err? { return Err("listing VirtualMachineTemplates: " + api.templates.error); }
    var templates := api.templates.value;
    for i := 0 to |templates|
      invariant |claims| == |vms| + i
      invariant forall k :: 0 <= k < |vms| ==> claims[k] == ForVM(vms[k])
      invariant forall k :: 0 <= k < i ==> claims[|vms| + k] == ForTemplate(templates[k])
    {
      claims := claims + [ForTemplate(templates[i])];
    }
    r := Ok(claims);
  }

  /** A Container's claim, for examples. */
  function Ct(name: string, created: int, guest: string): Claim {
    Claim("Container", "team", name, created, true, Some("pve"), "pve1", guest)
  }
}
