/** The validating webhook for spec.name (internal/webhook/proxmox/v1alpha1/name_webhook.go). */
module Admission {
  import opened Wrappers
  import opened GuestName
  import opened Ownership

  datatype Verdict =
    | Admit
    | AdmitUnchecked          // Proxmox could not be asked; admitted with a warning
    | RejectTaken(other: Claim)
    | RejectAmbiguous(guests: nat)
    | ListFailed

  predicate Admits(v: Verdict) {
    v.Admit? || v.AdmitUnchecked?
  }

  /** The first listed claim of another resource on c's guest. */
  function FirstClash(fold: FoldTable, c: Claim, others: seq<Claim>): (r: Option<Claim>)
    ensures r.Some? ==> r.value in others && !r.value.SameObject(c) && c.SameGuest(fold, r.value)
    ensures r.None? ==> forall o :: o in others && c.SameGuest(fold, o) ==> o.SameObject(c)
  {
    if others == [] then None
    else if !others[0].SameObject(c) && c.SameGuest(fold, others[0]) then Some(others[0])
    else FirstClash(fold, c, others[1..])
  }

  /** `guests` is how many guests Proxmox resolves the name to, None when it cannot be asked. */
  function Validate(fold: FoldTable, c: Claim, others: Result<seq<Claim>, string>, guests: Option<nat>): Verdict {
    match others
    case Err(_) => ListFailed
    case Ok(list) =>
      match FirstClash(fold, c, list)
      case Some(o) => RejectTaken(o)
      case None =>
        match guests
        case None => AdmitUnchecked
        case Some(n) => if n > 1 then RejectAmbiguous(n) else Admit
  }

  function ValidateUpdate(fold: FoldTable, old_: Claim, c: Claim, others: Result<seq<Claim>, string>,
                          guests: Option<nat>): Verdict {
    if c.SameGuest(fold, old_) then Admit else Validate(fold, c, others, guests)
  }

  /** Another resource on the guest. */
  ghost predicate Clashes(fold: FoldTable, c: Claim, o: Claim) {
    (o.kind, o.namespace, o.name) != (c.kind, c.namespace, c.name) && Place(fold, o) == Place(fold, c)
  }

  /** A request is refused exactly when the listing fails, another listed resource is on
      the guest, or Proxmox has several guests of the name. It is admitted with a warning
      exactly when nothing of that is known because Proxmox cannot be asked. */
  lemma RefusedExactly(fold: FoldTable, c: Claim, others: Result<seq<Claim>, string>, guests: Option<nat>)
    ensures
      var v := Validate(fold, c, others, guests);
      var taken := others.Ok? && exists o :: o in others.value && Clashes(fold, c, o);
      && (v == ListFailed <==> others.Err?)
      && (v.RejectTaken? <==> taken)
      && (v.RejectTaken? ==> v.other in others.value && Clashes(fold, c, v.other))
      && (v.RejectAmbiguous? <==> others.Ok? && !taken && guests.Some? && guests.value > 1)
      && (v.RejectAmbiguous? ==> v.guests == guests.value)
      && (v == AdmitUnchecked <==> others.Ok? && !taken && guests.None?)
      && (Admits(v) <==> others.Ok? && !taken && (guests.Some? ==> guests.value <= 1))
  {
    if others.Ok? {
      forall o | o in others.value
        ensures Clashes(fold, c, o) <==> !o.SameObject(c) && c.SameGuest(fold, o)
      {
        SameGuestExactly(fold, c, o);
      }
    }
  }

  /** An update that stays on its guest is admitted unseen; any other is a new request. */
  lemma UpdateRefusedExactly(fold: FoldTable, was: Claim, c: Claim, others: Result<seq<Claim>, string>,
                             guests: Option<nat>)
    ensures Admits(ValidateUpdate(fold, was, c, others, guests)) <==>
      || Place(fold, c) == Place(fold, was)
      || (others.Ok? && (forall o :: o in others.value ==> !Clashes(fold, c, o)) &&
          (guests.Some? ==> guests.value <= 1))
  {
    SameGuestExactly(fold, c, was);
    RefusedExactly(fold, c, others, guests);
  }

  // --------------------------------------------------------- admission in turn

  datatype Request =
    | Create(c: Claim, guests: Option<nat>)
    | Update(c: Claim, guests: Option<nat>)
    | Delete(k: Key)

  /** The stored claims, by object. */
  type Store = map<Key, Claim>

  ghost predicate Keyed(store: Store) {
    forall k :: k in store ==> KeyOf(store[k]) == k
  }

  /** A listing of one space shows what is stored in it, in any order. */
  ghost predicate Lists(store: Store, lxc: bool, list: seq<Claim>) {
    forall c :: c in list <==> c.lxc == lxc && KeyOf(c) in store && store[KeyOf(c)] == c
  }

  ghost predicate Wellformed(store: Store, r: Request) {
    match r
    case Create(c, _) => KeyOf(c) !in store
    case Update(c, _) => KeyOf(c) in store
    case Delete(k) => k in store
  }

  ghost function Handle(fold: FoldTable, store: Store, list: seq<Claim>, r: Request): Store
    requires Wellformed(store, r)
  {
    match r
    case Create(c, guests) => if Admits(Validate(fold, c, Ok(list), guests)) then store[KeyOf(c) := c] else store
    case Update(c, guests) =>
      if Admits(ValidateUpdate(fold, store[KeyOf(c)], c, Ok(list), guests)) then store[KeyOf(c) := c] else store
    case Delete(k) => store - {k}
  }

  ghost predicate NoSharing(fold: FoldTable, store: Store) {
    forall j, k :: j in store && k in store && store[j].SameGuest(fold, store[k]) ==> j == k
  }

  ghost predicate ListedFor(store: Store, r: Request, list: seq<Claim>) {
    match r
    case Delete(_) => true
    case _ => Lists(store, r.c.lxc, list)
  }

  /** An admitted claim is alone on its guest. An update that keeps its guest
      skips the check; that is sound because SameGuest is transitive. */
  lemma AdmittedIsAlone(fold: FoldTable, store: Store, list: seq<Claim>, r: Request, k: Key)
    requires Keyed(store) && NoSharing(fold, store) && Wellformed(store, r) && ListedFor(store, r, list)
    requires !r.Delete? && k in store && k != KeyOf(r.c)
    requires Handle(fold, store, list, r) == store[KeyOf(r.c) := r.c] != store
    ensures !r.c.SameGuest(fold, store[k])
  {
    if r.Update? && r.c.SameGuest(fold, store[KeyOf(r.c)]) {
      SameGuestIsEquivalence(fold, store[KeyOf(r.c)], r.c, store[k]);
    } else if r.c.lxc == store[k].lxc {
      assert store[k] in list;
    }
  }

  lemma HandleKeepsNoSharing(fold: FoldTable, store: Store, list: seq<Claim>, r: Request)
    requires Keyed(store) && NoSharing(fold, store) && Wellformed(store, r) && ListedFor(store, r, list)
    ensures Keyed(Handle(fold, store, list, r)) && NoSharing(fold, Handle(fold, store, list, r))
  {
    var store' := Handle(fold, store, list, r);
    if !r.Delete? && store' != store {
      forall k | k in store && k != KeyOf(r.c)
        ensures !r.c.SameGuest(fold, store[k]) && !store[k].SameGuest(fold, r.c)
      {
        AdmittedIsAlone(fold, store, list, r, k);
        SameGuestIsEquivalence(fold, r.c, store[k], r.c);
      }
    }
  }

  /** The request gets through. */
  ghost predicate Admitted(fold: FoldTable, store: Store, list: seq<Claim>, r: Request)
    requires Wellformed(store, r)
  {
    match r
    case Create(c, guests) => Admits(Validate(fold, c, Ok(list), guests))
    case Update(c, guests) => Admits(ValidateUpdate(fold, store[KeyOf(c)], c, Ok(list), guests))
    case Delete(_) => true
  }

  /** What a listing must show: checked against any listing, current or not, an admitted
      create or update keeps guests unshared exactly when every stored claim of another
      object on the guest was listed. */
  lemma ListingExactly(fold: FoldTable, store: Store, list: seq<Claim>, r: Request)
    requires Keyed(store) && NoSharing(fold, store) && Wellformed(store, r) && !r.Delete?
    requires Admitted(fold, store, list, r)
    ensures NoSharing(fold, store[KeyOf(r.c) := r.c]) <==>
      forall k :: k in store && k != KeyOf(r.c) && r.c.SameGuest(fold, store[k]) ==> store[k] in list
  {
    var c := r.c;
    var after := store[KeyOf(c) := c];
    forall k | k in store && k != KeyOf(c) && store[k] in list ensures !c.SameGuest(fold, store[k]) {
      if r.Update? && c.SameGuest(fold, store[KeyOf(c)]) {
        SameGuestIsEquivalence(fold, store[KeyOf(c)], c, store[k]);
      }
    }
    forall k | k in store && k != KeyOf(c) ensures c.SameGuest(fold, store[k]) <==> store[k].SameGuest(fold, c) {
      SameGuestIsEquivalence(fold, c, store[k], c);
    }
    if k :| k in store && k != KeyOf(c) && c.SameGuest(fold, store[k]) && store[k] !in list {
      assert after[k] == store[k] && after[KeyOf(c)] == c;
    }
  }

  ghost predicate HandledAt(fold: FoldTable, stores: seq<Store>, lists: seq<seq<Claim>>, rs: seq<Request>, i: nat)
    requires |stores| == |rs| + 1 && |lists| == |rs| && i < |rs|
  {
    && Wellformed(stores[i], rs[i]) && ListedFor(stores[i], rs[i], lists[i])
    && stores[i + 1] == Handle(fold, stores[i], lists[i], rs[i])
  }

  ghost predicate IsHistory(fold: FoldTable, stores: seq<Store>, lists: seq<seq<Claim>>, rs: seq<Request>) {
    && |stores| == |rs| + 1 && |lists| == |rs| && stores[0] == map[]
    && forall i :: 0 <= i < |rs| ==> HandledAt(fold, stores, lists, rs, i)
  }

  lemma {:induction false} HistoryKeepsNoSharing(
    fold: FoldTable, stores: seq<Store>, lists: seq<seq<Claim>>, rs: seq<Request>, n: nat)
    requires IsHistory(fold, stores, lists, rs) && n <= |rs|
    ensures Keyed(stores[n]) && NoSharing(fold, stores[n])
  {
    if n > 0 {
      HistoryKeepsNoSharing(fold, stores, lists, rs, n - 1);
      assert HandledAt(fold, stores, lists, rs, n - 1);
      HandleKeepsNoSharing(fold, stores[n - 1], lists[n - 1], rs[n - 1]);
    }
  }

  /** With requests admitted one at a time, every stored object is its own owner
      in the sense the controllers use. */
  lemma EveryObjectOwnsItsGuest(fold: FoldTable, stores: seq<Store>, lists: seq<seq<Claim>>, rs: seq<Request>,
                                n: nat, k: Key, list: seq<Claim>, owner: Claim)
    requires IsHistory(fold, stores, lists, rs) && n <= |rs| && k in stores[n]
    requires Lists(stores[n], stores[n][k].lxc, list)
    requires IsOwner(fold, list, stores[n][k], owner)
    ensures owner == stores[n][k]
  {
    HistoryKeepsNoSharing(fold, stores, lists, rs, n);
  }

  /** List-then-admit is not atomic: two creates checked against one listing are
      both admitted and share a guest. Exactly one of them then owns it. */
  lemma RacingCreatesShareAGuest(fold: FoldTable, guests: Option<nat>)
    requires guests != None ==> guests.value <= 1
    ensures exists a: Claim, b: Claim ::
      && Admits(Validate(fold, a, Ok([]), guests)) && Admits(Validate(fold, b, Ok([]), guests))
      && KeyOf(a) != KeyOf(b)
      && !NoSharing(fold, map[KeyOf(a) := a, KeyOf(b) := b])
      && IsOwner(fold, [a, b], a, a) && IsOwner(fold, [a, b], b, a)
  {
    var a, b := Ct("a", 0, "web"), Ct("b", 1, "web");
    assert "a"[0] != "b"[0];
    BeforeIsStrictTotalOrder(a, b, a);
    BeforeIsStrictTotalOrder(b, a, b);
    var store := map[KeyOf(a) := a, KeyOf(b) := b];
    assert store[KeyOf(a)].SameGuest(fold, store[KeyOf(b)]);
    assert Admits(Validate(fold, a, Ok([]), guests)) && Admits(Validate(fold, b, Ok([]), guests));
    assert IsOwner(fold, [a, b], a, a) && IsOwner(fold, [a, b], b, a);
  }
}
