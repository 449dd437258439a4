/** The webhook's self-signed certificate, issued by any number of replicas that race
    on one Secret with optimistic concurrency (internal/webhook/certs/certs.go). */
module Certs {
  import opened Wrappers

  /** Times are in seconds. */
  const DAY: int := 24 * 3600
  const CERT_VALIDITY: int := 10 * 365 * DAY
  const CERT_RENEW_BEFORE: int := 30 * DAY
  const ATTEMPTS: nat := 3

  datatype Cert = Cert(id: nat, notAfter: int)

  /** The Secret; `cert` is None when its data is not a certificate. */
  datatype Secret = Secret(version: nat, cert: Option<Cert>)

  datatype ApiError = AlreadyExists | Conflict | Missing | Unavailable

  datatype EnsureError = ReadFailed | IssueFailed | WriteFailed | KeptChanging

  /** Where a replica is in its loop; `failed` counts its refused writes. */
  datatype Replica =
    | Trying(failed: nat)
    | Seen(failed: nat, got: Option<Secret>)
    | Writing(failed: nat, got: Option<Secret>, cert: Cert)
    | Done(secret: Secret)
    | GaveUp(error: EnsureError)

  datatype World = World(now: int, secret: Option<Secret>, ids: nat, replicas: seq<Replica>)

  datatype Step = Tick(to: int) | Get(r: nat, fault: Reply) | Issue(r: nat, ok: bool) | Write(r: nat, fault: Reply)

  predicate CertUsable(cert: Option<Cert>, now: int) {
    cert.Some? && now + CERT_RENEW_BEFORE < cert.value.notAfter
  }

  predicate SecretUsable(secret: Option<Secret>, now: int) {
    secret.Some? && CertUsable(secret.value.cert, now)
  }

  /** Create when nothing was read, else Update of the version that was read. */
  function Put(stored: Option<Secret>, got: Option<Secret>, cert: Cert): Result<Secret, ApiError> {
    match got
    case None => if stored.Some? then Err(AlreadyExists) else Ok(Secret(0, Some(cert)))
    case Some(g) =>
      if stored.None? then Err(Missing)
      else if stored.value.version != g.version then Err(Conflict)
      else Ok(Secret(g.version + 1, Some(cert)))
  }

  function Retry(failed: nat): Replica {
    if failed + 1 < ATTEMPTS then Trying(failed + 1) else GaveUp(KeptChanging)
  }

  function Read(secret: Option<Secret>, now: int, failed: nat, fault: Reply): Replica {
    if fault.Lost? then GaveUp(ReadFailed)
    else if SecretUsable(secret, now) then Done(secret.value)
    else Seen(failed, secret)
  }

  /** What is stored after the write, and where the replica goes. */
  function Wrote(stored: Option<Secret>, p: Replica, fault: Reply): (Option<Secret>, Replica)
    requires p.Writing?
  {
    match Put(stored, p.got, p.cert)
    case Ok(s) =>
      (match fault
       case Answered => (Some(s), Done(s))
       case Lost(applied) => (if applied then Some(s) else stored, GaveUp(WriteFailed)))
    case Err(e) =>
      var refused := fault.Answered? && (e == AlreadyExists || e == Conflict);
      (stored, if refused then Retry(p.failed) else GaveUp(WriteFailed))
  }

  predicate Enabled(w: World, st: Step) {
    match st
    case Tick(to) => w.now <= to
    case Get(r, _) => r < |w.replicas| && w.replicas[r].Trying?
    case Issue(r, _) => r < |w.replicas| && w.replicas[r].Seen?
    case Write(r, _) => r < |w.replicas| && w.replicas[r].Writing?
  }

  function Next(w: World, st: Step): World
    requires Enabled(w, st)
  {
    match st
    case Tick(to) => w.(now := to)
    case Get(r, fault) => w.(replicas := w.replicas[r := Read(w.secret, w.now, w.replicas[r].failed, fault)])
    case Issue(r, ok) =>
      var p := w.replicas[r];
      if !ok then w.(replicas := w.replicas[r := GaveUp(IssueFailed)])
      else
        w.(ids := w.ids + 1,
           replicas := w.replicas[r := Writing(p.failed, p.got, Cert(w.ids, w.now + CERT_VALIDITY))])
    case Write(r, fault) =>
      var (stored, p) := Wrote(w.secret, w.replicas[r], fault);
      w.(secret := stored, replicas := w.replicas[r := p])
  }

  // -------------------------------------------------------------------- runs

  /** The time a run takes, and what is stored when it starts. */
  datatype Window = Window(start: int, end: int, initial: Option<Secret>)

  ghost predicate StepAt(v: Window, ws: seq<World>, sts: seq<Step>, i: nat)
    requires |ws| == |sts| + 1 && i < |sts|
  {
    Enabled(ws[i], sts[i]) && ws[i + 1] == Next(ws[i], sts[i]) && ws[i + 1].now <= v.end
  }

  ghost predicate IsRun(v: Window, ws: seq<World>, sts: seq<Step>) {
    && |ws| == |sts| + 1
    && ws[0].now == v.start <= v.end && ws[0].secret == v.initial
    && (forall r :: 0 <= r < |ws[0].replicas| ==> ws[0].replicas[r] == Trying(0))
    && forall i :: 0 <= i < |sts| ==> StepAt(v, ws, sts, i)
  }

  /** No certificate passes its renewal date while the run lasts: the stored one is
      good until the end, or else one issued at the start would be. */
  predicate NoExpiry(v: Window) {
    if SecretUsable(v.initial, v.start) then SecretUsable(v.initial, v.end)
    else v.end + CERT_RENEW_BEFORE < v.start + CERT_VALIDITY
  }

  // --------------------------------------------------------------- invariant

  predicate Settled(v: Window, w: World) {
    SecretUsable(w.secret, v.end)
  }

  /** What a replica read and found unusable is still there, or was replaced by a
      usable certificate under a newer version. */
  predicate Overtaken(v: Window, w: World, got: Option<Secret>) {
    && v.end + CERT_RENEW_BEFORE < v.start + CERT_VALIDITY
    && if Settled(v, w) then got.Some? ==> got.value.version < w.secret.value.version else w.secret == got
  }

  /** Good for ten years from some time of the run. */
  predicate IssuedIn(v: Window, cert: Cert) {
    v.start + 10 * 365 * 86400 <= cert.notAfter <= v.end + 10 * 365 * 86400
  }

  predicate ReplicaOk(v: Window, w: World, p: Replica) {
    match p
    case Trying(failed) => failed == 0 || (failed == 1 && Settled(v, w))
    case Seen(failed, got) => failed == 0 && Overtaken(v, w, got)
    case Writing(failed, got, cert) =>
      failed == 0 && Overtaken(v, w, got) && v.end + CERT_RENEW_BEFORE < cert.notAfter && IssuedIn(v, cert)
    case Done(s) => w.secret == Some(s) && Settled(v, w)
    case GaveUp(e) => e != KeptChanging
  }

  ghost predicate Inv(v: Window, w: World) {
    && v.start <= w.now <= v.end
    && (Settled(v, w) || (!SecretUsable(w.secret, v.start) && v.end + CERT_RENEW_BEFORE < v.start + CERT_VALIDITY))
    && (w.secret == v.initial ||
        (w.secret.Some? && w.secret.value.cert.Some? && IssuedIn(v, w.secret.value.cert.value)))
    && forall r :: 0 <= r < |w.replicas| ==> ReplicaOk(v, w, w.replicas[r])
  }

  lemma StepKeepsInv(v: Window, w: World, st: Step)
    requires Inv(v, w) && Enabled(w, st) && Next(w, st).now <= v.end
    ensures Inv(v, Next(w, st))
    ensures Settled(v, w) ==> Next(w, st).secret == w.secret
  {
    var w' := Next(w, st);
    forall r | 0 <= r < |w'.replicas| ensures ReplicaOk(v, w', w'.replicas[r]) {
      assert ReplicaOk(v, w, w.replicas[r]);
    }
  }

  lemma {:induction false} RunKeepsInv(v: Window, ws: seq<World>, sts: seq<Step>, n: nat)
    requires IsRun(v, ws, sts) && NoExpiry(v) && n <= |sts|
    ensures Inv(v, ws[n])
  {
    if n > 0 {
      RunKeepsInv(v, ws, sts, n - 1);
      assert StepAt(v, ws, sts, n - 1);
      StepKeepsInv(v, ws[n - 1], sts[n - 1]);
    }
  }

  // ------------------------------------------------------------------ results

  /** A stored certificate that is usable at some time of the run is never overwritten. */
  lemma {:induction false} UsableIsKept(v: Window, ws: seq<World>, sts: seq<Step>, i: nat, j: nat)
    requires IsRun(v, ws, sts) && NoExpiry(v) && i <= j <= |sts|
    requires SecretUsable(ws[i].secret, ws[i].now)
    ensures ws[j].secret == ws[i].secret && SecretUsable(ws[j].secret, ws[j].now)
  {
    RunKeepsInv(v, ws, sts, i);
    RunKeepsInv(v, ws, sts, j);
    if i < j {
      UsableIsKept(v, ws, sts, i, j - 1);
      RunKeepsInv(v, ws, sts, j - 1);
      assert StepAt(v, ws, sts, j - 1);
      StepKeepsInv(v, ws[j - 1], sts[j - 1]);
    }
  }

  ghost predicate Agreed(w: World) {
    forall r, q :: 0 <= r < |w.replicas| && 0 <= q < |w.replicas| && w.replicas[r].Done? && w.replicas[q].Done? ==>
      w.replicas[r].secret == w.replicas[q].secret && w.secret == Some(w.replicas[r].secret)
  }

  /** No replica ever has a second write refused, so none runs out of attempts; one
      that had its write refused finds a usable certificate when it reads again. */
  lemma RetriesAreBounded(v: Window, ws: seq<World>, sts: seq<Step>, n: nat, r: nat)
    requires IsRun(v, ws, sts) && NoExpiry(v) && n <= |sts| && r < |ws[n].replicas|
    ensures ws[n].replicas[r] != GaveUp(KeptChanging)
    ensures (ws[n].replicas[r].Seen? || ws[n].replicas[r].Writing?) ==> ws[n].replicas[r].failed == 0
    ensures ws[n].replicas[r].Trying? && ws[n].replicas[r].failed > 0 ==>
      ws[n].replicas[r].failed == 1 && Read(ws[n].secret, ws[n].now, 1, Answered).Done?
  {
    RunKeepsInv(v, ws, sts, n);
    assert ReplicaOk(v, ws[n], ws[n].replicas[r]);
  }

  /** A write that the API server answers with AlreadyExists or Conflict. */
  ghost predicate Refused(w: World, st: Step, r: nat) {
    && st.Write? && st.r == r && st.fault.Answered?
    && r < |w.replicas| && w.replicas[r].Writing? && w.secret.Some?
    && (w.replicas[r].got.None? || w.replicas[r].got.value.version != w.secret.value.version)
  }

  ghost function Refusals(ws: seq<World>, sts: seq<Step>, r: nat, n: nat): nat
    requires |ws| == |sts| + 1 && n <= |sts|
  {
    if n == 0 then 0 else Refusals(ws, sts, r, n - 1) + if Refused(ws[n - 1], sts[n - 1], r) then 1 else 0
  }

  ghost predicate Counts(p: Replica, refusals: nat) {
    && (p == GaveUp(KeptChanging) <==> refusals == 3)
    && (p.Trying? || p.Seen? || p.Writing? ==> p.failed == refusals < 3)
    && refusals <= 3
  }

  lemma CountsOneMore(w: World, st: Step, r: nat, refusals: nat)
    requires Enabled(w, st) && r < |w.replicas| && Counts(w.replicas[r], refusals)
    ensures |Next(w, st).replicas| == |w.replicas|
    ensures Counts(Next(w, st).replicas[r], refusals + if Refused(w, st, r) then 1 else 0)
  {
  }

  /** In every run, certificates that expire included, a replica gives up on a Secret
      that kept changing exactly when three of its writes have been refused. */
  lemma {:induction false} GivesUpExactly(v: Window, ws: seq<World>, sts: seq<Step>, n: nat, r: nat)
    requires IsRun(v, ws, sts) && n <= |sts| && r < |ws[0].replicas|
    ensures |ws[n].replicas| == |ws[0].replicas| && Counts(ws[n].replicas[r], Refusals(ws, sts, r, n))
  {
    if n > 0 {
      GivesUpExactly(v, ws, sts, n - 1, r);
      assert StepAt(v, ws, sts, n - 1);
      CountsOneMore(ws[n - 1], sts[n - 1], r, Refusals(ws, sts, r, n - 1));
    }
  }

  /** Every certificate on its way into the Secret has a key of its own. */
  ghost predicate OwnKeys(w: World) {
    forall r, q ::
      0 <= r < |w.replicas| && 0 <= q < |w.replicas| && w.replicas[r].Writing? && w.replicas[q].Writing? ==>
        w.replicas[r].cert.id < w.ids && (r != q ==> w.replicas[r].cert.id != w.replicas[q].cert.id)
  }

  lemma StepKeepsOwnKeys(w: World, st: Step)
    requires OwnKeys(w) && Enabled(w, st)
    ensures OwnKeys(Next(w, st))
  {
  }

  lemma {:induction false} KeysAreTheirOwn(v: Window, ws: seq<World>, sts: seq<Step>, n: nat)
    requires IsRun(v, ws, sts) && n <= |sts|
    ensures OwnKeys(ws[n])
  {
    if n > 0 {
      KeysAreTheirOwn(v, ws, sts, n - 1);
      assert StepAt(v, ws, sts, n - 1);
      StepKeepsOwnKeys(ws[n - 1], sts[n - 1]);
    }
  }

  lemma Agreement(v: Window, ws: seq<World>, sts: seq<Step>, n: nat)
    requires IsRun(v, ws, sts) && NoExpiry(v) && n <= |sts|
    ensures Agreed(ws[n])
  {
    RunKeepsInv(v, ws, sts, n);
    forall r | 0 <= r < |ws[n].replicas| && ws[n].replicas[r].Done?
      ensures ws[n].secret == Some(ws[n].replicas[r].secret)
    {
      assert ReplicaOk(v, ws[n], ws[n].replicas[r]);
    }
  }

  lemma ExtendRun(v: Window, ws: seq<World>, sts: seq<Step>, st: Step)
    requires IsRun(v, ws, sts) && Enabled(ws[|sts|], st) && Next(ws[|sts|], st).now <= v.end
    ensures IsRun(v, ws + [Next(ws[|sts|], st)], sts + [st])
  {
    var ws', sts' := ws + [Next(ws[|sts|], st)], sts + [st];
    forall i | 0 <= i < |sts'| ensures StepAt(v, ws', sts', i) {
      if i < |sts| { assert StepAt(v, ws, sts, i); }
    }
  }

  lemma Extended(v: Window, ws: seq<World>, sts: seq<Step>, st: Step) returns (ws': seq<World>, sts': seq<Step>)
    requires IsRun(v, ws, sts) && Enabled(ws[|sts|], st) && Next(ws[|sts|], st).now <= v.end
    ensures IsRun(v, ws', sts') && ws'[|sts'|] == Next(ws[|sts|], st)
  {
    ExtendRun(v, ws, sts, st);
    ws', sts' := ws + [Next(ws[|sts|], st)], sts + [st];
  }

  /** One replica finds no usable certificate and has its own stored. */
  lemma Renewed(v: Window, ws: seq<World>, sts: seq<Step>, r: nat) returns (ws': seq<World>, sts': seq<Step>)
    requires IsRun(v, ws, sts) && r < |ws[|sts|].replicas| && ws[|sts|].replicas[r] == Trying(0)
    requires !SecretUsable(ws[|sts|].secret, ws[|sts|].now) && ws[|sts|].now <= v.end
    ensures IsRun(v, ws', sts') && ws'[|sts'|].now == ws[|sts|].now && ws'[|sts'|].secret.Some?
    ensures ws'[|sts'|].replicas == ws[|sts|].replicas[r := Done(ws'[|sts'|].secret.value)]
    ensures ws'[|sts'|].secret.value.cert.Some?
    ensures ws'[|sts'|].secret.value.cert.value.notAfter == ws[|sts|].now + CERT_VALIDITY
    ensures ws[|sts|].secret.Some? ==> ws'[|sts'|].secret.value.version == ws[|sts|].secret.value.version + 1
  {
    ws', sts' := Extended(v, ws, sts, Get(r, Answered));
    ws', sts' := Extended(v, ws', sts', Issue(r, true));
    ws', sts' := Extended(v, ws', sts', Write(r, Answered));
  }

  /** What fails when a certificate comes up for renewal mid-run: the one that the
      first replica returned, stored or its own, is replaced by the second. */
  lemma Disagreement(v: Window) returns (ws: seq<World>, sts: seq<Step>)
    requires v.start <= v.end && !NoExpiry(v)
    ensures IsRun(v, ws, sts) && !Agreed(ws[|sts|])
  {
    ws, sts := [World(v.start, v.initial, 0, [Trying(0), Trying(0)])], [];
    if SecretUsable(v.initial, v.start) {
      ws, sts := Extended(v, ws, sts, Get(0, Answered));
    } else {
      ws, sts := Renewed(v, ws, sts, 0);
    }
    ws, sts := Extended(v, ws, sts, Tick(v.end));
    ghost var first := ws[|sts|].replicas[0];
    ws, sts := Renewed(v, ws, sts, 1);
    assert ws[|sts|].replicas[0] == first && ws[|sts|].replicas[1].Done?;
  }

  /** Replicas agree in every run of a window exactly when no certificate comes up
      for renewal in it. */
  lemma AgreementExactly(v: Window)
    requires v.start <= v.end
    ensures NoExpiry(v) <==> forall ws, sts, n: nat :: IsRun(v, ws, sts) && n <= |sts| ==> Agreed(ws[n])
  {
    if NoExpiry(v) {
      forall ws, sts, n: nat | IsRun(v, ws, sts) && n <= |sts| ensures Agreed(ws[n]) {
        Agreement(v, ws, sts, n);
      }
    } else {
      var ws, sts := Disagreement(v);
      assert IsRun(v, ws, sts) && |sts| <= |sts| && !Agreed(ws[|sts|]);
    }
  }

  // -------------------------------------------------------------- the replica

  class Cluster {
    var world: World
    const window: Window
    ghost var worlds: seq<World>
    ghost var steps: seq<Step>

    constructor (replicas: nat, window: Window)
      requires window.start <= window.end && NoExpiry(window)
      ensures Ready() && |world.replicas| == replicas
      ensures forall r :: 0 <= r < replicas ==> world.replicas[r] == Trying(0)
    {
      this.window := window;
      world := World(window.start, window.initial, 0, seq(replicas, _ => Trying(0)));
      worlds, steps := [World(window.start, window.initial, 0, seq(replicas, _ => Trying(0)))], [];
    }

    /** What happened so far is a run that ends here. */
    ghost predicate Ready()
      reads this
    {
      NoExpiry(window) && IsRun(window, worlds, steps) && worlds[|steps|] == world && Inv(window, world)
    }

    method Do(st: Step)
      requires Ready() && Enabled(world, st) && Next(world, st).now <= window.end
      modifies this
      ensures Ready() && world == Next(old(world), st) && old(worlds) <= worlds
    {
      ExtendRun(window, worlds, steps, st);
      StepKeepsInv(window, world, st);
      world := Next(world, st);
      worlds, steps := worlds + [world], steps + [st];
    }

    /** Time passes and the other replicas do whatever they do. */
    method Others(me: nat)
      requires Ready() && me < |world.replicas|
      modifies this
      ensures Ready() && old(worlds) <= worlds
      ensures |world.replicas| == |old(world).replicas| && world.replicas[me] == old(world).replicas[me]
    {
      var todo: nat := *;
      while todo > 0
        invariant Ready() && old(worlds) <= worlds
        invariant |world.replicas| == |old(world).replicas| && world.replicas[me] == old(world).replicas[me]
      {
        assert Enabled(world, Tick(world.now));
        var st: Step :| Enabled(world, st) && Next(world, st).now <= window.end && (st.Tick? || st.r != me);
        Do(st);
        todo := todo - 1;
      }
    }

    /** One attempt: where the replica is after it. Without a fault it is done, or its
        write was refused. */
    method Attempt(me: nat, failed: nat, get: Reply, issued: bool, put: Reply) returns (p: Replica)
      requires Ready() && me < |world.replicas| && world.replicas[me] == Trying(failed)
      modifies this
      ensures Ready() && old(worlds) <= worlds && |world.replicas| == |old(world).replicas|
      ensures p == world.replicas[me]
      ensures
        || p.Done? || p == Retry(failed)
        || (p == GaveUp(ReadFailed) && get.Lost?)
        || (p == GaveUp(IssueFailed) && !issued)
        || (p == GaveUp(WriteFailed) && put.Lost?)
    {
      Others(me);
      Do(Get(me, get));
      p := world.replicas[me];
      if !p.Seen? {
        return;
      }
      Others(me);
      Do(Issue(me, issued));
      p := world.replicas[me];
      if !p.Writing? {
        return;
      }
      Others(me);
      assert ReplicaOk(window, world, world.replicas[me]);
      Do(Write(me, put));
      p := world.replicas[me];
    }

    /** Whatever the others do meanwhile, the Secret returned is the stored one and
        usable, the attempts do not run out, and only a call that is lost, or a key that
        cannot be made, makes it fail. */
    method EnsureCertSecret(me: nat, gets: nat -> Reply, issues: nat -> bool, puts: nat -> Reply)
      returns (r: Result<Secret, EnsureError>)
      requires Ready() && me < |world.replicas| && world.replicas[me] == Trying(0)
      modifies this
      ensures Ready() && old(worlds) <= worlds
      ensures r.Ok? ==> world.secret == Some(r.value) && SecretUsable(world.secret, world.now)
      ensures r.Ok? ==> r.value.cert.Some? && world.now + 30 * 86400 < r.value.cert.value.notAfter
      ensures r.Ok? ==> window.initial == Some(r.value) || IssuedIn(window, r.value.cert.value)
      ensures r != Err(KeptChanging)
      ensures (forall i :: gets(i).Answered? && issues(i) && puts(i).Answered?) ==> r.Ok?
    {
      for failed := 0 to ATTEMPTS
        invariant Ready() && old(worlds) <= worlds && me < |world.replicas|
        invariant world.replicas[me] == if failed < ATTEMPTS then Trying(failed) else GaveUp(KeptChanging)
      {
        var p := Attempt(me, failed, gets(failed), issues(failed), puts(failed));
        if p.Done? {
          return Ok(p.secret);
        }
        if p.GaveUp? && p.error != KeptChanging {
          return Err(p.error);
        }
      }
      assert false;
    }
  }
}
