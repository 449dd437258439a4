/** The process-wide client cache (pkg/proxmox/connection.go), the connection
    reconciler that publishes the Secret versions it read
    (internal/controller/proxmox/proxmoxconnection_controller.go), and what the two
    guarantee while Secrets rotate. */
module Rotation {
  import opened Wrappers
  import opened Credentials

  // ------------------------------------------------------------- client cache

  /** A Proxmox client, as the credentials and connection it was built from. */
  datatype Client = Client(spec: Spec, creds: Credentials)

  datatype CachedClient = CachedClient(client: Client, version: nat, createdAt: int, usesSession: bool)

  type Cache = map<string, CachedClient>

  datatype LookupError = NoRef | NoConnection | CredentialsUnavailable(e: CredError)

  /** One hour, in seconds. */
  const CLIENT_CACHE_TTL: int := 3600

  predicate Fresh(c: CachedClient, now: int) {
    !c.usesSession || now - c.createdAt < CLIENT_CACHE_TTL
  }

  /** A cached client may be used for exactly the connection version it was built for. */
  function Hit(cache: Cache, name: string, version: nat, now: int): Option<Client> {
    if name in cache && cache[name].version == version && Fresh(cache[name], now) then Some(cache[name].client)
    else None
  }

  function Build(version: nat, spec: Spec, first: SecretRead, second: SecretRead, now: int)
    : Result<CachedClient, CredError>
  {
    match Resolve(spec, first, second)
    case Err(e) => Err(e)
    case Ok(creds) => Ok(CachedClient(Client(spec, creds), version, now, spec.username != ""))
  }

  /** The entry was built for this very version, and, if its login is by session ticket,
      less than an hour ago. */
  ghost predicate StillGood(cache: Cache, name: string, version: nat, now: int) {
    name in cache && cache[name].version == version && (cache[name].usesSession ==> now < cache[name].createdAt + 3600)
  }

  /** A ProxmoxConnection as one read returned it. */
  datatype Conn = Conn(version: nat, spec: Spec)

  class ClientCache {
    var entries: Cache

    constructor ()
      ensures entries == map[]
    {
      entries := map[];
    }

    /** NewProxmoxClientFromRef. `conn` is the connection read through the (possibly
        stale) cache; `first` and `second` are what reading the referenced Secrets
        returns if it comes to that. An error leaves the cache alone and never
        answers with an old client. */
    method NewProxmoxClientFromRef(ref: Option<string>, conn: Option<Conn>,
                                   first: SecretRead, second: SecretRead, now: int)
      returns (r: Result<Client, LookupError>)
      modifies this
      ensures r.Ok? <==>
        && ref.Some? && ref.value != "" && conn.Some?
        && (Hit(old(entries), ref.value, conn.value.version, now).Some? || Resolve(conn.value.spec, first, second).Ok?)
      ensures r.Err? ==> entries == old(entries)
      ensures r.Ok? && Hit(old(entries), ref.value, conn.value.version, now).Some? ==>
        entries == old(entries) && r.value == Hit(entries, ref.value, conn.value.version, now).value
      ensures r.Ok? && Hit(old(entries), ref.value, conn.value.version, now).None? ==>
        var b := Build(conn.value.version, conn.value.spec, first, second, now);
        b.Ok? && entries == old(entries)[ref.value := b.value] && r.value == b.value.client
      // the same without the names of this module's functions
      ensures r == Err(NoRef) <==> ref.None? || ref.value == ""
      ensures r == Err(NoConnection) <==> ref.Some? && ref.value != "" && conn.None?
      ensures
        ref.Some? && ref.value != "" && conn.Some? &&
        StillGood(old(entries), ref.value, conn.value.version, now) ==>
        entries == old(entries) && r == Ok(old(entries)[ref.value].client)
      ensures
        ref.Some? && ref.value != "" && conn.Some? &&
        !StillGood(old(entries), ref.value, conn.value.version, now) ==>
        var spec := conn.value.spec;
        if Usable(spec.password, spec.passwordFrom, first) && Usable(spec.secret, spec.secretFrom, second) then
          && r.Ok? && r.value.spec == spec
          && Is(r.value.creds.password, spec.password, spec.passwordFrom, first)
          && Is(r.value.creds.secret, spec.secret, spec.secretFrom, second)
          && entries == old(entries)[
               ref.value := CachedClient(r.value, conn.value.version, now, spec.username != "")]
        else r.Err? && r.error.CredentialsUnavailable?
    {
      if ref.None? || ref.value == "" {
        return Err(NoRef);
      }
      if conn.None? {
        return Err(NoConnection);
      }
      var name, c := ref.value, conn.value;
      if name in entries && entries[name].version == c.version && Fresh(entries[name], now) {
        return Ok(entries[name].client);
      }
      var creds := ResolveCredentials(c.spec, first, second);
      if creds.Err? {
        return Err(CredentialsUnavailable(creds.error));
      }
      var client := Client(c.spec, creds.value);
      entries := entries[name := CachedClient(client, c.version, now, c.spec.username != "")];
      r := Ok(client);
    }
  }

  // ------------------------------------------------------------------ machine

  /** One stored version of a ProxmoxConnection. */
  datatype ConnVersion = ConnVersion(name: string, spec: Spec, observed: seq<Observed>)

  /** A reconcile or a lookup in flight: the connection version it read (any that
      ever existed, so reads may be stale) and what it has read of the Secrets. */
  datatype Job = Job(lookup: bool, base: nat, first: Option<SecretRead>, creds: Option<Credentials>)

  /** A client handed to a caller, for the connection version the caller saw. */
  datatype Answer = Answer(client: Client, version: nat)

  /** The API server numbers all writes with one counter. `written` remembers the
      data of every Secret version. */
  datatype World = World(
    revision: nat,
    secrets: map<SecretId, Secret>,
    written: map<nat, (SecretId, map<string, string>)>,
    versions: map<nat, ConnVersion>,
    current: map<string, nat>,
    cache: Cache,
    jobs: map<nat, Job>,
    answers: set<Answer>)

  datatype Step =
    | PutSecret(id: SecretId, data: map<string, string>)
    | DeleteSecret(id: SecretId)
    | PutConn(name: string, spec: Spec)
    | DeleteConn(name: string)
    | TouchStatus(name: string)
    | Start(job: nat, lookup: bool, base: nat)
    | UseCached(job: nat, now: int)
    | ReadFirst(job: nat, unreadable: bool)
    | ReadSecond(job: nat, unreadable: bool, now: int)
    | Publish(job: nat, touches: bool)
    | Abandon(job: nat)
    | Restart

  function ReadSecret(w: World, ref: Option<SecretRef>, unreadable: bool): SecretRead {
    if unreadable then Unreadable
    else if ref.None? || ref.value.id !in w.secrets then Missing
    else Found(w.secrets[ref.value.id])
  }

  ghost predicate Enabled(w: World, s: Step) {
    match s
    case PutSecret(_, _) => true
    case DeleteSecret(id) => id in w.secrets
    case PutConn(_, _) => true
    case DeleteConn(name) => name in w.current
    case TouchStatus(name) => name in w.current && w.current[name] in w.versions
    case Start(job, _, base) => job !in w.jobs && base in w.versions
    case UseCached(job, _) =>
      job in w.jobs && w.jobs[job].lookup && w.jobs[job].base in w.versions && w.jobs[job].first.None?
    case ReadFirst(job, _) => job in w.jobs && w.jobs[job].base in w.versions && w.jobs[job].first.None?
    case ReadSecond(job, _, _) =>
      job in w.jobs && w.jobs[job].base in w.versions && w.jobs[job].first.Some? && w.jobs[job].creds.None?
    case Publish(job, _) =>
      job in w.jobs && !w.jobs[job].lookup && w.jobs[job].base in w.versions && w.jobs[job].creds.Some?
    case Abandon(job) => job in w.jobs
    case Restart => true
  }

  function Store(w: World, v: ConnVersion): World {
    w.(revision := w.revision + 1,
       versions := w.versions[w.revision + 1 := v],
       current := w.current[v.name := w.revision + 1])
  }

  /** The status write is a merge patch against the version the reconcile read: it
      carries observedSecrets only if they differ from that version's, and leaves
      the rest of the current object alone. `touches`: it changes another part of
      the status. A patch that changes nothing makes no new version. */
  ghost function PublishStep(w: World, job: nat, touches: bool): World
    requires Enabled(w, Publish(job, touches))
  {
    var j := w.jobs[job];
    var name := w.versions[j.base].name;
    var done := w.(jobs := w.jobs - {job});
    if name !in w.current || w.current[name] !in w.versions then done
    else
      var cur := w.versions[w.current[name]];
      var next := cur.(observed := Merged(cur.observed, w.versions[j.base].observed, j.creds.value.observed));
      if next == cur && !touches then done else Store(done, next)
  }

  /** A lookup stores and answers with the client it built; a reconcile keeps the
      credentials for Publish. An error ends either. */
  ghost function ReadSecondStep(w: World, job: nat, unreadable: bool, now: int): World
    requires Enabled(w, ReadSecond(job, unreadable, now))
  {
    var j := w.jobs[job];
    var v := w.versions[j.base];
    match Build(j.base, v.spec, j.first.value, ReadSecret(w, v.spec.secretFrom, unreadable), now)
    case Err(_) => w.(jobs := w.jobs - {job})
    case Ok(c) =>
      if j.lookup then
        w.(cache := w.cache[v.name := c], answers := w.answers + {Answer(c.client, j.base)}, jobs := w.jobs - {job})
      else w.(jobs := w.jobs[job := j.(creds := Some(c.client.creds))])
  }

  ghost function Next(w: World, s: Step): World
    requires Enabled(w, s)
  {
    match s
    case PutSecret(id, data) =>
      w.(revision := w.revision + 1,
         secrets := w.secrets[id := Secret(w.revision + 1, data)],
         written := w.written[w.revision + 1 := (id, data)])
    case DeleteSecret(id) => w.(revision := w.revision + 1, secrets := w.secrets - {id})
    case PutConn(name, spec) =>
      Store(w, ConnVersion(name, spec,
        if name in w.current && w.current[name] in w.versions then w.versions[w.current[name]].observed else []))
    case DeleteConn(name) => w.(revision := w.revision + 1, current := w.current - {name})
    case TouchStatus(name) => Store(w, w.versions[w.current[name]])
    case Start(job, lookup, base) => w.(jobs := w.jobs[job := Job(lookup, base, None, None)])
    case UseCached(job, now) =>
      var j := w.jobs[job];
      (match Hit(w.cache, w.versions[j.base].name, j.base, now)
       case None => w
       case Some(c) => w.(answers := w.answers + {Answer(c, j.base)}, jobs := w.jobs - {job}))
    case ReadFirst(job, unreadable) =>
      var j := w.jobs[job];
      w.(jobs := w.jobs[job := j.(first := Some(ReadSecret(w, w.versions[j.base].spec.passwordFrom, unreadable)))])
    case ReadSecond(job, unreadable, now) => ReadSecondStep(w, job, unreadable, now)
    case Publish(job, touches) => PublishStep(w, job, touches)
    case Abandon(job) => w.(jobs := w.jobs - {job})
    case Restart => w.(cache := map[], jobs := map[])
  }

  // ---------------------------------------------------------------- invariant

  /** Nothing ever refers to a Secret version that the stored Secret is older than. */
  ghost predicate NotAhead(w: World, o: Observed) {
    o.version <= w.revision && (o.id in w.secrets ==> o.version <= w.secrets[o.id].version)
  }

  /** A credential is the inline value, or the data that the Secret version it was read
      from held under its key. */
  ghost predicate Backed(w: World, r: Resolved, inline: string, ref: Option<SecretRef>) {
    match r.from
    case None => ref.None? && r.value == inline
    case Some(o) =>
      && ref.Some? && o.id == ref.value.id && NotAhead(w, o)
      && o.version in w.written && w.written[o.version].0 == o.id
      && ref.value.key in w.written[o.version].1 && w.written[o.version].1[ref.value.key] == r.value
  }

  /** `from` is at least as new as what connection version `v` publishes for that Secret. */
  ghost predicate AtLeastPublished(w: World, v: nat, from: Option<Observed>)
    requires v in w.versions
  {
    from.Some? ==> forall o :: o in w.versions[v].observed && o.id == from.value.id ==> o.version <= from.value.version
  }

  /** The rotation property of a client used for connection version `v`. */
  ghost predicate ClientOk(w: World, c: Client, v: nat) {
    && v in w.versions && c.spec == w.versions[v].spec
    && Backed(w, c.creds.password, c.spec.password, c.spec.passwordFrom)
    && Backed(w, c.creds.secret, c.spec.secret, c.spec.secretFrom)
    && AtLeastPublished(w, v, c.creds.password.from) && AtLeastPublished(w, v, c.creds.secret.from)
  }

  ghost predicate FirstReadOk(w: World, base: nat, read: SecretRead) {
    && base in w.versions
    && (read.Found? ==>
        var ref := w.versions[base].spec.passwordFrom;
        && ref.Some?
        && (var o := Observed(ref.value.id, read.secret.version);
            NotAhead(w, o) && AtLeastPublished(w, base, Some(o)))
        && read.secret.version in w.written && w.written[read.secret.version] == (ref.value.id, read.secret.data))
  }

  ghost predicate JobOk(w: World, j: Job) {
    && j.base in w.versions
    && (j.first.Some? ==> FirstReadOk(w, j.base, j.first.value))
    && (j.creds.Some? ==> forall o :: o in j.creds.value.observed ==> NotAhead(w, o))
  }

  /** Versions never exceed the counter, and every stored thing is on record. */
  ghost predicate StoreOk(w: World) {
    && (forall v :: v in w.versions ==> v <= w.revision)
    && (forall n :: n in w.current ==> w.current[n] in w.versions && w.versions[w.current[n]].name == n)
    && (forall v :: v in w.written ==> v <= w.revision)
    && (forall id :: id in w.secrets ==>
         w.secrets[id].version in w.written && w.written[w.secrets[id].version] == (id, w.secrets[id].data))
  }

  ghost predicate Inv(w: World) {
    && StoreOk(w)
    && (forall v, o :: v in w.versions && o in w.versions[v].observed ==> NotAhead(w, o))
    && (forall n :: n in w.cache ==> ClientOk(w, w.cache[n].client, w.cache[n].version))
    && (forall a :: a in w.answers ==> ClientOk(w, a.client, a.version))
    && (forall j :: j in w.jobs ==> JobOk(w, w.jobs[j]))
  }

  /** History only grows: versions, Secret data and NotAhead facts survive a step. */
  ghost predicate Grows(w: World, w': World) {
    && w.revision <= w'.revision
    && (forall v :: v in w.versions ==> v in w'.versions && w'.versions[v] == w.versions[v])
    && (forall v :: v in w.written ==> v in w'.written && w'.written[v] == w.written[v])
    && (forall id :: id in w'.secrets ==>
         w'.secrets[id].version > w.revision || (id in w.secrets && w'.secrets[id] == w.secrets[id]))
  }

  /** The steps that write to the API server. */
  predicate IsWrite(s: Step) {
    s.PutSecret? || s.DeleteSecret? || s.PutConn? || s.DeleteConn? || s.TouchStatus? || s.Publish?
  }

  lemma WriteKeepsStore(w: World, s: Step)
    requires StoreOk(w) && Enabled(w, s) && IsWrite(s)
    ensures StoreOk(Next(w, s)) && Grows(w, Next(w, s))
  {
    if s.PutSecret? || s.DeleteSecret? {
      SecretWriteKeepsStore(w, s);
    } else {
      ConnWriteKeepsStore(w, s);
    }
  }

  lemma SecretWriteKeepsStore(w: World, s: Step)
    requires StoreOk(w) && Enabled(w, s) && (s.PutSecret? || s.DeleteSecret?)
    ensures StoreOk(Next(w, s)) && Grows(w, Next(w, s))
  {
  }

  lemma NewVersionKeepsStore(w: World, v: ConnVersion)
    requires StoreOk(w)
    ensures StoreOk(Store(w, v)) && Grows(w, Store(w, v))
  {
  }

  lemma ConnWriteKeepsStore(w: World, s: Step)
    requires StoreOk(w) && Enabled(w, s) && (s.PutConn? || s.DeleteConn? || s.TouchStatus? || s.Publish?)
    ensures StoreOk(Next(w, s)) && Grows(w, Next(w, s))
  {
    var w' := Next(w, s);
    if w'.current != w.current && !s.DeleteConn? {
      var v := w'.versions[w'.revision];
      var from := w.(jobs := w'.jobs);
      NewVersionKeepsStore(from, v);
      assert w' == Store(from, v);
    }
  }

  lemma WriteLeavesClients(w: World, s: Step)
    requires Enabled(w, s) && IsWrite(s)
    ensures Next(w, s).cache == w.cache && Next(w, s).answers == w.answers
    ensures forall j :: j in Next(w, s).jobs ==> j in w.jobs && Next(w, s).jobs[j] == w.jobs[j]
  {
  }

  /** What a write publishes was published before or is what a reconcile read. */
  lemma WritePublishes(w: World, s: Step, v: nat, o: Observed)
    requires Inv(w) && Enabled(w, s) && IsWrite(s) && v in Next(w, s).versions && o in Next(w, s).versions[v].observed
    ensures NotAhead(w, o)
  {
  }

  lemma ReadLeavesStore(w: World, s: Step)
    requires Enabled(w, s) && !IsWrite(s)
    ensures var w' := Next(w, s);
      w' == w.(cache := w'.cache, jobs := w'.jobs, answers := w'.answers)
  {
  }

  lemma GrowsKeepsClient(w: World, w': World, c: Client, v: nat)
    requires Grows(w, w') && ClientOk(w, c, v)
    ensures ClientOk(w', c, v)
  {
  }

  lemma GrowsKeepsJob(w: World, w': World, j: Job)
    requires Grows(w, w') && JobOk(w, j)
    ensures JobOk(w', j)
  {
  }

  lemma LiveReadIsAtLeastPublished(w: World, v: nat, id: SecretId)
    requires Inv(w) && v in w.versions && id in w.secrets
    ensures NotAhead(w, Observed(id, w.secrets[id].version))
    ensures AtLeastPublished(w, v, Some(Observed(id, w.secrets[id].version)))
  {
    forall o | o in w.versions[v].observed && o.id == id ensures o.version <= w.secrets[id].version {
      assert NotAhead(w, o);
    }
  }

  lemma FirstReadIsOk(w: World, base: nat, unreadable: bool)
    requires Inv(w) && base in w.versions
    ensures FirstReadOk(w, base, ReadSecret(w, w.versions[base].spec.passwordFrom, unreadable))
  {
    var ref := w.versions[base].spec.passwordFrom;
    if ref.Some? && ref.value.id in w.secrets {
      LiveReadIsAtLeastPublished(w, base, ref.value.id);
    }
  }

  /** What a job builds satisfies the rotation property, and publishes nothing ahead. */
  lemma BuiltClientIsOk(w: World, base: nat, first: SecretRead, unreadable: bool, now: int)
    requires Inv(w) && FirstReadOk(w, base, first)
    ensures
      var second := ReadSecret(w, w.versions[base].spec.secretFrom, unreadable);
      var b := Build(base, w.versions[base].spec, first, second, now);
      b.Ok? ==> ClientOk(w, b.value.client, base) && forall o :: o in b.value.client.creds.observed ==> NotAhead(w, o)
  {
    var ref := w.versions[base].spec.secretFrom;
    if ref.Some? && ref.value.id in w.secrets {
      LiveReadIsAtLeastPublished(w, base, ref.value.id);
    }
  }

  lemma WriteKeepsInv(w: World, s: Step)
    requires Inv(w) && Enabled(w, s) && IsWrite(s)
    ensures Inv(Next(w, s))
  {
    var w' := Next(w, s);
    WriteKeepsStore(w, s);
    WriteLeavesClients(w, s);
    forall v, o | v in w'.versions && o in w'.versions[v].observed ensures NotAhead(w', o) {
      WritePublishes(w, s, v, o);
    }
    GrowsKeepsInUse(w, w');
  }

  lemma GrowsKeepsInUse(w: World, w': World)
    requires Inv(w) && Grows(w, w') && w'.cache == w.cache && w'.answers == w.answers
    requires forall j :: j in w'.jobs ==> j in w.jobs && w'.jobs[j] == w.jobs[j]
    ensures forall n :: n in w'.cache ==> ClientOk(w', w'.cache[n].client, w'.cache[n].version)
    ensures forall a :: a in w'.answers ==> ClientOk(w', a.client, a.version)
    ensures forall j :: j in w'.jobs ==> JobOk(w', w'.jobs[j])
  {
    forall n | n in w'.cache ensures ClientOk(w', w'.cache[n].client, w'.cache[n].version) {
      GrowsKeepsClient(w, w', w'.cache[n].client, w'.cache[n].version);
    }
    forall a | a in w'.answers ensures ClientOk(w', a.client, a.version) {
      GrowsKeepsClient(w, w', a.client, a.version);
    }
    forall j | j in w'.jobs ensures JobOk(w', w'.jobs[j]) {
      GrowsKeepsJob(w, w', w'.jobs[j]);
    }
  }

  /** The store being the same, what was true of a client or job stays true of it. */
  lemma SameStore(w: World, w': World)
    requires w' == w.(cache := w'.cache, jobs := w'.jobs, answers := w'.answers)
    ensures Grows(w, w') && (StoreOk(w) ==> StoreOk(w'))
    ensures forall o :: NotAhead(w, o) ==> NotAhead(w', o)
  {
  }

  lemma ReadKeepsCached(w: World, s: Step)
    requires Inv(w) && Enabled(w, s) && !IsWrite(s)
    ensures forall n :: n in Next(w, s).cache ==> ClientOk(w, Next(w, s).cache[n].client, Next(w, s).cache[n].version)
  {
    if s.ReadSecond? {
      BuiltClientIsOk(w, w.jobs[s.job].base, w.jobs[s.job].first.value, s.unreadable, s.now);
    }
  }

  lemma ReadKeepsAnswers(w: World, s: Step)
    requires Inv(w) && Enabled(w, s) && !IsWrite(s)
    ensures forall a :: a in Next(w, s).answers ==> ClientOk(w, a.client, a.version)
  {
    if s.ReadSecond? {
      BuiltClientIsOk(w, w.jobs[s.job].base, w.jobs[s.job].first.value, s.unreadable, s.now);
    }
  }

  lemma ReadKeepsJobs(w: World, s: Step)
    requires Inv(w) && Enabled(w, s) && !IsWrite(s)
    ensures forall j :: j in Next(w, s).jobs ==> JobOk(w, Next(w, s).jobs[j])
  {
    if s.ReadSecond? {
      BuiltClientIsOk(w, w.jobs[s.job].base, w.jobs[s.job].first.value, s.unreadable, s.now);
    } else if s.ReadFirst? {
      FirstReadIsOk(w, w.jobs[s.job].base, s.unreadable);
    }
  }

  lemma ReadKeepsInv(w: World, s: Step)
    requires Inv(w) && Enabled(w, s) && !IsWrite(s)
    ensures Inv(Next(w, s))
  {
    var w' := Next(w, s);
    ReadLeavesStore(w, s);
    SameStore(w, w');
    ReadKeepsCached(w, s);
    ReadKeepsAnswers(w, s);
    ReadKeepsJobs(w, s);
    forall n | n in w'.cache ensures ClientOk(w', w'.cache[n].client, w'.cache[n].version) {
      GrowsKeepsClient(w, w', w'.cache[n].client, w'.cache[n].version);
    }
    forall a | a in w'.answers ensures ClientOk(w', a.client, a.version) {
      GrowsKeepsClient(w, w', a.client, a.version);
    }
    forall j | j in w'.jobs ensures JobOk(w', w'.jobs[j]) {
      GrowsKeepsJob(w, w', w'.jobs[j]);
    }
  }

  lemma StepKeepsInv(w: World, s: Step)
    requires Inv(w) && Enabled(w, s)
    ensures Inv(Next(w, s))
  {
    if IsWrite(s) {
      WriteKeepsInv(w, s);
    } else {
      ReadKeepsInv(w, s);
    }
  }

  // --------------------------------------------------------------------- runs

  ghost predicate RunStep(ws: seq<World>, ss: seq<Step>, i: nat)
    requires |ws| == |ss| + 1 && i < |ss|
  {
    Enabled(ws[i], ss[i]) && ws[i + 1] == Next(ws[i], ss[i])
  }

  const EMPTY: World := World(0, map[], map[], map[], map[], map[], map[], {})

  ghost predicate IsRun(ws: seq<World>, ss: seq<Step>) {
    && |ws| == |ss| + 1 && ws[0] == EMPTY
    && forall i :: 0 <= i < |ss| ==> RunStep(ws, ss, i)
  }

  lemma {:induction false} RunKeepsInv(ws: seq<World>, ss: seq<Step>, n: nat)
    requires IsRun(ws, ss) && n <= |ss|
    ensures Inv(ws[n])
  {
    if n > 0 {
      RunKeepsInv(ws, ss, n - 1);
      assert RunStep(ws, ss, n - 1);
      StepKeepsInv(ws[n - 1], ss[n - 1]);
    }
  }

  /** c is cached, or was handed to a caller, for connection version v. */
  ghost predicate InUse(w: World, c: Client, v: nat) {
    || Answer(c, v) in w.answers
    || exists name :: name in w.cache && w.cache[name].client == c && w.cache[name].version == v
  }

  lemma InUseIsOk(ws: seq<World>, ss: seq<Step>, n: nat, c: Client, v: nat)
    requires IsRun(ws, ss) && n <= |ss| && InUse(ws[n], c, v)
    ensures ClientOk(ws[n], c, v) && Inv(ws[n])
  {
    RunKeepsInv(ws, ss, n);
    if Answer(c, v) in ws[n].answers {
      assert ClientOk(ws[n], Answer(c, v).client, v);
    }
  }

  /** In every interleaving of Secret writes, connection edits, reconciles and
      lookups, with stale connection reads and restarts: a client in use for
      connection version v was built from Secret versions at least as new as those
      v publishes for the same Secrets. */
  lemma RotationHolds(ws: seq<World>, ss: seq<Step>, n: nat, c: Client, v: nat, from: Observed, o: Observed)
    requires IsRun(ws, ss) && n <= |ss| && InUse(ws[n], c, v) && ReadFrom(c.creds, from)
    ensures v in ws[n].versions
    ensures o in ws[n].versions[v].observed && o.id == from.id ==> o.version <= from.version
  {
    InUseIsOk(ws, ss, n, c, v);
  }

  /** Without references a client in use carries its connection's own password and secret. */
  lemma InlineIsOwn(ws: seq<World>, ss: seq<Step>, n: nat, c: Client, v: nat)
    requires IsRun(ws, ss) && n <= |ss| && InUse(ws[n], c, v)
    ensures v in ws[n].versions
    ensures ws[n].versions[v].spec.passwordFrom.None? ==> c.creds.password.value == ws[n].versions[v].spec.password
    ensures ws[n].versions[v].spec.secretFrom.None? ==> c.creds.secret.value == ws[n].versions[v].spec.secret
  {
    InUseIsOk(ws, ss, n, c, v);
  }

  /** A status in step with the Secret means the rotation has been picked up: if
      version v publishes the Secret at the version it has now, every client in use
      for v carries the Secret's present data. */
  lemma InStepMeansCurrent(ws: seq<World>, ss: seq<Step>, n: nat, c: Client, v: nat, ref: SecretRef)
    requires IsRun(ws, ss) && n <= |ss| && InUse(ws[n], c, v) && v in ws[n].versions
    requires ref.id in ws[n].secrets && Observed(ref.id, ws[n].secrets[ref.id].version) in ws[n].versions[v].observed
    ensures ws[n].versions[v].spec.passwordFrom == Some(ref) ==>
      ref.key in ws[n].secrets[ref.id].data && c.creds.password.value == ws[n].secrets[ref.id].data[ref.key]
    ensures ws[n].versions[v].spec.secretFrom == Some(ref) ==>
      ref.key in ws[n].secrets[ref.id].data && c.creds.secret.value == ws[n].secrets[ref.id].data[ref.key]
  {
    InUseIsOk(ws, ss, n, c, v);
  }

  /** What is current after a publish: the patch laid over what was current. */
  lemma PublishMerges(w: World, job: nat, touches: bool)
    requires Inv(w) && Enabled(w, Publish(job, touches)) && w.versions[w.jobs[job].base].name in w.current
    ensures
      var w', name, base := Next(w, Publish(job, touches)), w.versions[w.jobs[job].base].name, w.jobs[job].base;
      && name in w'.current && w'.current[name] in w'.versions
      && w'.versions[w'.current[name]].observed ==
         Merged(w.versions[w.current[name]].observed, w.versions[base].observed, w.jobs[job].creds.value.observed)
  {
    assert w.current[w.versions[w.jobs[job].base].name] in w.versions;
  }

  /** Publishing invalidates: a version that a reconcile writes is one no cached
      client was built for, so the next lookup that sees it reads the Secrets again.
      If the reconcile had read the present version, what is current afterwards
      publishes exactly what it read of the Secrets; if that differs from what was
      published, the version is a new one. */
  lemma PublishInvalidates(w: World, s: Step, now: int)
    requires Inv(w) && Enabled(w, s) && s.Publish? && w.versions[w.jobs[s.job].base].name in w.current
    ensures var w', name, base := Next(w, s), w.versions[w.jobs[s.job].base].name, w.jobs[s.job].base;
      && name in w'.current && w'.current[name] in w'.versions
      && (w'.current[name] != w.current[name] ==> Hit(w'.cache, name, w'.current[name], now).None?)
      && (w.current[name] == base ==>
           && w'.versions[w'.current[name]].observed == w.jobs[s.job].creds.value.observed
           && (w.versions[base].observed != w.jobs[s.job].creds.value.observed ==> w'.current[name] != base)
           && (w.versions[base].observed == w.jobs[s.job].creds.value.observed && !s.touches ==>
                 w'.current[name] == base && w'.cache == w.cache))
  {
    var name := w.versions[w.jobs[s.job].base].name;
    if name in w.cache {
      assert ClientOk(w, w.cache[name].client, w.cache[name].version);
    }
  }

  /** A run of the machine from any state it can be in. */
  ghost predicate IsPath(ws: seq<World>, ss: seq<Step>) {
    |ws| == |ss| + 1 && forall i :: 0 <= i < |ss| ==> RunStep(ws, ss, i)
  }

  lemma Extended(ws: seq<World>, ss: seq<Step>, s: Step) returns (ws': seq<World>, ss': seq<Step>)
    requires IsPath(ws, ss) && Enabled(ws[|ss|], s)
    ensures IsPath(ws', ss') && ws'[0] == ws[0] && ws'[|ss'|] == Next(ws[|ss|], s)
  {
    ws', ss' := ws + [Next(ws[|ss|], s)], ss + [s];
    forall i | 0 <= i < |ss'| ensures RunStep(ws', ss', i) {
      if i < |ss| { assert RunStep(ws, ss, i); }
    }
  }

  /** What the Secret that a reference names holds now. */
  ghost function Stored(w: World, ref: Option<SecretRef>): SecretRead {
    if ref.Some? && ref.value.id in w.secrets then Found(w.secrets[ref.value.id]) else Missing
  }

  /** Both credentials are there for connection version `base`. */
  ghost predicate Resolvable(w: World, base: nat)
    requires base in w.versions
  {
    var spec := w.versions[base].spec;
    && Usable(spec.password, spec.passwordFrom, Stored(w, spec.passwordFrom))
    && Usable(spec.secret, spec.secretFrom, Stored(w, spec.secretFrom))
  }

  /** What is built of the Secrets as they are. */
  ghost function Built(w: World, base: nat, now: int): CachedClient
    requires base in w.versions && Resolvable(w, base)
  {
    var spec := w.versions[base].spec;
    Build(base, spec, Stored(w, spec.passwordFrom), Stored(w, spec.secretFrom), now).value
  }

  /** What one undisturbed job leaves that reads both Secrets. */
  ghost function AfterJob(w: World, job: nat, lookup: bool, base: nat, now: int): World
    requires base in w.versions && Resolvable(w, base)
  {
    var c, v := Built(w, base, now), w.versions[base];
    if lookup then w.(cache := w.cache[v.name := c], answers := w.answers + {Answer(c.client, base)})
    else w.(jobs := w.jobs[job := Job(false, base, Some(Stored(w, v.spec.passwordFrom)), Some(c.client.creds))])
  }

  lemma LastRead(w: World, w': World, job: nat, lookup: bool, base: nat, now: int)
    requires job !in w.jobs && base in w.versions && Resolvable(w, base)
    requires
      w' == w.(jobs := w.jobs[job := Job(lookup, base, Some(Stored(w, w.versions[base].spec.passwordFrom)), None)])
    ensures Enabled(w', ReadSecond(job, false, now))
    ensures ReadSecondStep(w', job, false, now) == AfterJob(w, job, lookup, base, now)
  {
    var spec := w.versions[base].spec;
    assert ReadSecret(w', spec.secretFrom, false) == Stored(w, spec.secretFrom);
    var built := Build(base, spec, Stored(w, spec.passwordFrom), Stored(w, spec.secretFrom), now);
    assert built == Result.Ok(Built(w, base, now));
    assert w'.jobs - {job} == w.jobs;
    assert w'.jobs[job := w'.jobs[job].(creds := Some(built.value.client.creds))] ==
           w.jobs[job := w'.jobs[job].(creds := Some(built.value.client.creds))];
  }

  lemma JobRuns(ws: seq<World>, ss: seq<Step>, job: nat, lookup: bool, base: nat, now: int)
    returns (ws': seq<World>, ss': seq<Step>)
    requires IsPath(ws, ss) && job !in ws[|ss|].jobs && base in ws[|ss|].versions && Resolvable(ws[|ss|], base)
    ensures IsPath(ws', ss') && ws'[0] == ws[0]
    ensures ws'[|ss'|] == AfterJob(ws[|ss|], job, lookup, base, now)
  {
    var w := ws[|ss|];
    ws', ss' := Extended(ws, ss, Start(job, lookup, base));
    ws', ss' := Extended(ws', ss', ReadFirst(job, false));
    LastRead(w, ws'[|ss'|], job, lookup, base, now);
    ws', ss' := Extended(ws', ss', ReadSecond(job, false, now));
  }

  /** A reconcile of the present connection publishes what it read. */
  lemma PublishEffect(w: World, w': World, name: string, job: nat)
    requires StoreOk(w) && name in w.current && job !in w.jobs
    requires w' == w.(jobs := w'.jobs) && job in w'.jobs && w'.jobs - {job} == w.jobs
    requires !w'.jobs[job].lookup && w'.jobs[job].base == w.current[name] && w'.jobs[job].creds.Some?
    ensures Enabled(w', Publish(job, false))
    ensures
      var t := Next(w', Publish(job, false));
      && t.secrets == w.secrets && t.jobs == w.jobs && name in t.current && t.current[name] in t.versions
      && t.versions[t.current[name]] == w.versions[w.current[name]].(observed := w'.jobs[job].creds.value.observed)
  {
  }

  /** Rotation takes effect: from any state, one reconcile of the present connection and
      one look-up after it give a client with the data that the Secrets hold now, and
      leave it cached for the version that publishes them. */
  lemma RotationTakesEffect(w: World, name: string, job: nat, now: int)
    returns (ws: seq<World>, ss: seq<Step>, c: Client)
    requires Inv(w) && name in w.current && job !in w.jobs && Resolvable(w, w.current[name])
    ensures IsPath(ws, ss) && ws[0] == w
    ensures
      var t, spec := ws[|ss|], w.versions[w.current[name]].spec;
      && t.secrets == w.secrets && name in t.current && t.current[name] in t.versions
      && t.versions[t.current[name]].spec == spec && t.versions[t.current[name]].observed == c.creds.observed
      && Answer(c, t.current[name]) in t.answers && StillGood(t.cache, name, t.current[name], now)
      && t.cache[name].client == c
      && Is(c.creds.password, spec.password, spec.passwordFrom, Stored(w, spec.passwordFrom))
      && Is(c.creds.secret, spec.secret, spec.secretFrom, Stored(w, spec.secretFrom))
  {
    var base := w.current[name];
    ws, ss := [w], [];
    ws, ss := JobRuns(ws, ss, job, false, base, now);
    PublishEffect(w, ws[|ss|], name, job);
    ws, ss := Extended(ws, ss, Publish(job, false));
    var t := ws[|ss|];
    ws, ss := JobRuns(ws, ss, job, true, t.current[name], now);
    c := Built(t, t.current[name], now).client;
  }
}
