/** The ProxmoxConnection reconciler (internal/controller/proxmox/proxmoxconnection_controller.go):
    what one reconcile writes, and which reconciles a changed Secret triggers. */
module ConnectionReconciler {
  import opened Wrappers
  import opened Credentials
  import Rotation

  datatype Ready = IsReady | CredentialsUnavailable(e: CredError) | ProxmoxConnectionError

  datatype Status = Status(version: Option<string>, observed: seq<Observed>, ready: Option<Ready>)

  datatype Connection = Connection(spec: Spec, disabled: bool, status: Status)

  datatype Outcome = Done | NotThere | Failed

  /** The status one reconcile wants, from the object as it read it. Observed Secret
      versions are published whenever the credentials resolve, also when Proxmox does
      not answer: they say what was read, not whether Proxmox accepted it. */
  function StatusAfter(c: Connection, first: SecretRead, second: SecretRead, proxmox: Option<string>): Status {
    match Resolve(c.spec, first, second)
    case Err(e) => c.status.(ready := Some(CredentialsUnavailable(e)))
    case Ok(creds) =>
      match proxmox
      case None => c.status.(observed := creds.observed, ready := Some(ProxmoxConnectionError))
      case Some(v) => Status(Some(v), creds.observed, Some(IsReady))
  }

  /** The merge patch leaves every field of the stored status that the reconcile did
      not change. */
  function Patched(stored: Status, base: Status, wanted: Status): Status {
    Status(Merged(stored.version, base.version, wanted.version),
           Merged(stored.observed, base.observed, wanted.observed),
           Merged(stored.ready, base.ready, wanted.ready))
  }

  /** The list has the Secrets read, at the versions read, and nothing else. */
  ghost predicate Lists(list: seq<Observed>, spec: Spec, first: SecretRead, second: SecretRead)
    requires Usable(spec.password, spec.passwordFrom, first) && Usable(spec.secret, spec.secretFrom, second)
  {
    && (spec.passwordFrom.Some? ==> Observed(spec.passwordFrom.value.id, first.secret.version) in list)
    && (spec.secretFrom.Some? && !SameSecret(spec) ==>
          Observed(spec.secretFrom.value.id, second.secret.version) in list)
    && forall o :: o in list ==>
         || (spec.passwordFrom.Some? && o == Observed(spec.passwordFrom.value.id, first.secret.version))
         || (spec.secretFrom.Some? && o == Observed(spec.secretFrom.value.id, second.secret.version))
  }

  /** The error of the password, or else of the secret. */
  ghost function Why(spec: Spec, first: SecretRead, second: SecretRead): CredError
    requires !(Usable(spec.password, spec.passwordFrom, first) && Usable(spec.secret, spec.secretFrom, second))
  {
    if !Usable(spec.password, spec.passwordFrom, first)
    then ResolveCredential(spec.password, spec.passwordFrom, first).error
    else ResolveCredential(spec.secret, spec.secretFrom, second).error
  }

  /** What a write makes of the stored status `was`, field by field. Ready is set exactly
      when the credentials resolve and Proxmox answers; what the reconcile does not find
      out stays; and an object that was read before a change may hide that there is
      something to write. */
  ghost predicate Written(read: Connection, first: SecretRead, second: SecretRead, proxmox: Option<string>,
                          was: Status, now: Status)
  {
    var spec, current := read.spec, read.status == was;
    var resolved := Usable(spec.password, spec.passwordFrom, first) && Usable(spec.secret, spec.secretFrom, second);
    var good := resolved && proxmox.Some?;
    && (current ==> (now.ready == Some(IsReady) <==> good))
    && (current && !resolved ==> now.ready == Some(CredentialsUnavailable(Why(spec, first, second))))
    && (current && resolved && proxmox.None? ==> now.ready == Some(ProxmoxConnectionError))
    && (good && read.status.ready != Some(IsReady) ==> now.ready == Some(IsReady))
    && (!good && read.status.ready == Some(IsReady) ==> now.ready != Some(IsReady))
    && (good && read.status.ready == Some(IsReady) ==> now.ready == was.ready)
    && now.version == (if good && read.status.version != proxmox then proxmox else was.version)
    && (!resolved ==> now.observed == was.observed)
    && (resolved && current ==> Lists(now.observed, spec, first, second))
    && (resolved ==> now.observed == was.observed || Lists(now.observed, spec, first, second))
  }

  lemma WrittenHolds(read: Connection, first: SecretRead, second: SecretRead, proxmox: Option<string>, was: Status)
    ensures
      Written(read, first, second, proxmox, was,
              Patched(was, read.status, StatusAfter(read, first, second, proxmox)))
  {
    var spec := read.spec;
    if Usable(spec.password, spec.passwordFrom, first) && Usable(spec.secret, spec.secretFrom, second) {
      ResolvedLists(spec, first, second);
    } else {
      ResolvedExactly(spec, first, second);
    }
  }

  lemma ResolvedExactly(spec: Spec, first: SecretRead, second: SecretRead)
    ensures Resolve(spec, first, second).Ok? <==>
      Usable(spec.password, spec.passwordFrom, first) && Usable(spec.secret, spec.secretFrom, second)
  {
  }

  lemma ResolvedLists(spec: Spec, first: SecretRead, second: SecretRead)
    requires Usable(spec.password, spec.passwordFrom, first) && Usable(spec.secret, spec.secretFrom, second)
    ensures Resolve(spec, first, second).Ok?
    ensures Lists(Resolve(spec, first, second).value.observed, spec, first, second)
  {
    ResolvedExactly(spec, first, second);
    var list := Resolve(spec, first, second).value.observed;
    if spec.passwordFrom.Some? {
      assert list[0] == Observed(spec.passwordFrom.value.id, first.secret.version);
    }
    if spec.secretFrom.Some? && !SameSecret(spec) {
      assert list[|list| - 1] == Observed(spec.secretFrom.value.id, second.secret.version);
    }
  }

  class Reconciler {
    var conns: map<string, Connection>

    constructor (conns: map<string, Connection>)
      ensures this.conns == conns
    {
      this.conns := conns;
    }

    /** The status write, against the object the reconcile had read. */
    method PatchStatus(name: string, base: Status, wanted: Status, fails: bool) returns (ok: bool)
      modifies this
      ensures ok <==> !fails && name in old(conns)
      ensures conns == if ok then
          old(conns)[name := old(conns)[name].(status := Patched(old(conns)[name].status, base, wanted))]
        else old(conns)
    {
      ok := !fails && name in conns;
      if ok {
        conns := conns[name := conns[name].(status := Patched(conns[name].status, base, wanted))];
      }
    }

    /** `read` is the connection as the reconcile read it, perhaps not the stored one.
        `proxmox` is the version Proxmox answers with, if it answers. */
    method Reconcile(name: string, read: Option<Connection>, first: SecretRead, second: SecretRead,
                     proxmox: Option<string>, patchFails: bool)
      returns (r: Outcome)
      modifies this
      ensures read.None? ==> r == NotThere && conns == old(conns)
      ensures read.Some? && read.value.disabled ==> r == Done && conns == old(conns)
      ensures patchFails || name !in old(conns) ==> conns == old(conns)
      ensures read.Some? && !read.value.disabled && !patchFails && name in old(conns) ==>
        conns == old(conns)[name := old(conns)[name].(status :=
          Patched(old(conns)[name].status, read.value.status, StatusAfter(read.value, first, second, proxmox)))]
      ensures read.Some? && !read.value.disabled ==>
        (r == Done <==>
          && !patchFails && name in old(conns) && proxmox.Some?
          && Resolve(read.value.spec, first, second).Ok?)
      ensures read.Some? && !read.value.disabled && !patchFails && name in old(conns) ==>
        Written(read.value, first, second, proxmox, old(conns)[name].status, conns[name].status)
    {
      if read.None? {
        return NotThere;
      }
      var conn := read.value;
      if conn.disabled {
        return Done;
      }
      if name in conns {
        WrittenHolds(conn, first, second, proxmox, conns[name].status);
      }
      var status := conn.status;
      var ok;
      var creds := ResolveCredentials(conn.spec, first, second);
      if creds.Err? {
        status := status.(ready := Some(CredentialsUnavailable(creds.error)));
        ok := PatchStatus(name, conn.status, status, patchFails);
        return Failed;
      }
      if proxmox.None? {
        status := status.(observed := creds.value.observed);
        status := status.(ready := Some(ProxmoxConnectionError));
        ok := PatchStatus(name, conn.status, status, patchFails);
        return Failed;
      }
      status := status.(version := Some(proxmox.value));
      status := status.(observed := creds.value.observed);
      status := status.(ready := Some(IsReady));
      ok := PatchStatus(name, conn.status, status, patchFails);
      r := if ok then Done else Failed;
    }

    /** The connections to reconcile when a Secret changes; none if they cannot be listed. */
    method ConnectionsForSecret(id: SecretId, names: seq<string>, listFails: bool) returns (reqs: seq<string>)
      requires forall n :: n in names <==> n in conns
      requires forall i, j :: 0 <= i < j < |names| ==> names[i] != names[j]
      ensures listFails ==> reqs == []
      ensures !listFails ==> forall n :: n in reqs <==>
        && n in conns
        && ((conns[n].spec.passwordFrom.Some? && conns[n].spec.passwordFrom.value.id == id) ||
            (conns[n].spec.secretFrom.Some? && conns[n].spec.secretFrom.value.id == id))
      ensures !listFails ==> forall n, first, second ::
        n in conns && ReadsFrom(conns[n].spec, first, second, id) ==> n in reqs
      ensures forall i, j :: 0 <= i < j < |reqs| ==> reqs[i] != reqs[j]
    {
      reqs := [];
      if listFails {
        return;
      }
      for i := 0 to |names|
        invariant forall n :: n in reqs <==> n in names[..i] && n in conns && References(conns[n].spec, id)
        invariant forall k, j :: 0 <= k < j < |reqs| ==> reqs[k] != reqs[j]
      {
        var spec := conns[names[i]].spec;
        var refs := [spec.passwordFrom, spec.secretFrom];
        ghost var before := reqs;
        var k := 0;
        while k < 2
          invariant 0 <= k <= 2 && reqs == before
          invariant forall m :: 0 <= m < k ==> !(refs[m].Some? && refs[m].value.id == id)
        {
          if refs[k].Some? && refs[k].value.id == id {
            reqs := reqs + [names[i]];
            break;
          }
          k := k + 1;
        }
        assert References(spec, id) <==> exists m :: 0 <= m < 2 && refs[m].Some? && refs[m].value.id == id by {
          assert refs[0] == spec.passwordFrom && refs[1] == spec.secretFrom;
        }
        assert names[..i + 1] == names[..i] + [names[i]];
      }
      assert names[..|names|] == names;
      forall n, first, second | n in conns && ReadsFrom(conns[n].spec, first, second, id) ensures n in reqs {
        EveryReadSecretTriggers(conns[n].spec, first, second, id);
      }
    }
  }

  predicate References(spec: Spec, id: SecretId) {
    || (spec.passwordFrom.Some? && spec.passwordFrom.value.id == id)
    || (spec.secretFrom.Some? && spec.secretFrom.value.id == id)
  }

  /** Some read of the Secrets yields credentials that come from this one. */
  predicate ReadsFrom(spec: Spec, first: SecretRead, second: SecretRead, id: SecretId) {
    match Resolve(spec, first, second)
    case Err(_) => false
    case Ok(c) =>
      || (c.password.from.Some? && c.password.from.value.id == id)
      || (c.secret.from.Some? && c.secret.from.value.id == id)
      || exists i :: 0 <= i < |c.observed| && c.observed[i].id == id
  }

  /** No credential can be rotated without the connection hearing of it. */
  lemma EveryReadSecretTriggers(spec: Spec, first: SecretRead, second: SecretRead, id: SecretId)
    requires ReadsFrom(spec, first, second, id)
    ensures References(spec, id)
  {
  }

  /** The reconcile publishes what the rotation machine says it does: with statuses that
      show what the stored and the read version publish, its patch leaves the observed
      Secrets of the version that is current after the machine's Publish step. */
  lemma PublishesAsInRotation(w: Rotation.World, job: nat, touches: bool, stored: Status, read: Connection,
                              first: SecretRead, second: SecretRead, proxmox: Option<string>)
    requires Rotation.Inv(w) && Rotation.Enabled(w, Rotation.Publish(job, touches))
    requires w.versions[w.jobs[job].base].name in w.current
    requires read.spec == w.versions[w.jobs[job].base].spec
    requires read.status.observed == w.versions[w.jobs[job].base].observed
    requires stored.observed == w.versions[w.current[w.versions[w.jobs[job].base].name]].observed
    requires Resolve(read.spec, first, second) == Ok(w.jobs[job].creds.value)
    ensures
      var w', name := Rotation.Next(w, Rotation.Publish(job, touches)), w.versions[w.jobs[job].base].name;
      && name in w'.current && w'.current[name] in w'.versions
      && w'.versions[w'.current[name]].observed ==
         Patched(stored, read.status, StatusAfter(read, first, second, proxmox)).observed
  {
    Rotation.PublishMerges(w, job, touches);
  }
}
