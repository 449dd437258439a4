/** Resolving a connection's credentials, inline or from Secrets (pkg/proxmox/credentials.go). */
module Credentials {
  import opened Wrappers

  datatype SecretId = SecretId(namespace: string, name: string)

  datatype SecretRef = SecretRef(id: SecretId, key: string)

  /** A Secret as one read returned it. */
  datatype Secret = Secret(version: nat, data: map<string, string>)

  datatype SecretRead = Found(secret: Secret) | Missing | Unreadable

  datatype Observed = Observed(id: SecretId, version: nat)

  datatype CredError = BothSet | SecretNotFound | ReadFailed | KeyNotFound | KeyEmpty

  datatype Spec = Spec(
    endpoint: string, username: string, password: string, tokenID: string, secret: string,
    passwordFrom: Option<SecretRef>, secretFrom: Option<SecretRef>, insecure: bool)

  /** A resolved credential and the Secret version it was read from, if any. */
  datatype Resolved = Resolved(value: string, from: Option<Observed>)

  /** `read` is what reading the referenced Secret returned. */
  function ResolveCredential(inline: string, ref: Option<SecretRef>, read: SecretRead): (r: Result<Resolved, CredError>)
    ensures r.Ok? && r.value.from.Some? ==>
      && ref.Some? && read.Found? && inline == "" && ref.value.key in read.secret.data
      && r.value.value == read.secret.data[ref.value.key] != ""
      && r.value.from.value == Observed(ref.value.id, read.secret.version)
    ensures r.Ok? && r.value.from.None? ==> ref.None? && r.value.value == inline
    ensures r == Err(BothSet) <==> inline != "" && ref.Some?
    ensures r == Err(SecretNotFound) <==> inline == "" && ref.Some? && read.Missing?
    ensures r == Err(ReadFailed) <==> inline == "" && ref.Some? && read.Unreadable?
    ensures r == Err(KeyNotFound) <==> inline == "" && ref.Some? && read.Found? && ref.value.key !in read.secret.data
    ensures r == Err(KeyEmpty) <==>
      && inline == "" && ref.Some? && read.Found? && ref.value.key in read.secret.data
      && read.secret.data[ref.value.key] == ""
  {
    if inline != "" && ref.Some? then Err(BothSet)
    else match ref
      case None => Ok(Resolved(inline, None))
      case Some(rf) =>
        match read
        case Missing => Err(SecretNotFound)
        case Unreadable => Err(ReadFailed)
        case Found(s) =>
          if rf.key !in s.data then Err(KeyNotFound)
          else if s.data[rf.key] == "" then Err(KeyEmpty)
          else Ok(Resolved(s.data[rf.key], Some(Observed(rf.id, s.version))))
  }

  datatype Credentials = Credentials(password: Resolved, secret: Resolved, observed: seq<Observed>)

  predicate Contains(list: seq<Observed>, want: Observed) {
    exists i :: 0 <= i < |list| && list[i].id == want.id
  }

  /** What the controller publishes: every Secret read, once, at its first read. */
  function Published(first: Option<Observed>, second: Option<Observed>): seq<Observed> {
    (if first.Some? then [first.value] else []) +
    (if second.Some? && (first.None? || first.value.id != second.value.id) then [second.value] else [])
  }

  function Resolve(spec: Spec, first: SecretRead, second: SecretRead): Result<Credentials, CredError> {
    match ResolveCredential(spec.password, spec.passwordFrom, first)
    case Err(e) => Err(e)
    case Ok(p) =>
      match ResolveCredential(spec.secret, spec.secretFrom, second)
      case Err(e) => Err(e)
      case Ok(s) => Ok(Credentials(p, s, Published(p.from, s.from)))
  }

  /** The credential is there: inline or in the Secret, but not in both. */
  predicate Usable(inline: string, ref: Option<SecretRef>, read: SecretRead) {
    if ref.None? then true
    else
      && inline == "" && read.Found? && ref.value.key in read.secret.data
      && read.secret.data[ref.value.key] != ""
  }

  /** It is the inline value, or the data of its own key in its own Secret. */
  ghost predicate Is(r: Resolved, inline: string, ref: Option<SecretRef>, read: SecretRead)
    requires Usable(inline, ref, read)
  {
    match ref
    case None => r == Resolved(inline, None)
    case Some(rf) => r == Resolved(read.secret.data[rf.key], Some(Observed(rf.id, read.secret.version)))
  }

  /** ResolveCredentials with the loop that collects the observed Secrets. Password and
      secret are each resolved from their own fields; every Secret read is published once,
      at the version that was read first. */
  method ResolveCredentials(spec: Spec, first: SecretRead, second: SecretRead)
    returns (r: Result<Credentials, CredError>)
    ensures r == Resolve(spec, first, second)
    ensures r.Ok? <==> Usable(spec.password, spec.passwordFrom, first) && Usable(spec.secret, spec.secretFrom, second)
    ensures r.Ok? ==>
      && Is(r.value.password, spec.password, spec.passwordFrom, first)
      && Is(r.value.secret, spec.secret, spec.secretFrom, second)
    ensures r.Ok? && spec.passwordFrom.None? ==> r.value.password.value == spec.password
    ensures r.Ok? && spec.secretFrom.None? ==> r.value.secret.value == spec.secret
    ensures r.Ok? && spec.passwordFrom.Some? ==>
      Observed(spec.passwordFrom.value.id, first.secret.version) in r.value.observed
    ensures r.Ok? && spec.secretFrom.Some? ==>
      if spec.passwordFrom.Some? && spec.passwordFrom.value.id == spec.secretFrom.value.id
      then |r.value.observed| == 1
      else Observed(spec.secretFrom.value.id, second.secret.version) in r.value.observed
    ensures r.Ok? ==> forall o :: o in r.value.observed ==>
      || (spec.passwordFrom.Some? && o == Observed(spec.passwordFrom.value.id, first.secret.version))
      || (spec.secretFrom.Some? && o == Observed(spec.secretFrom.value.id, second.secret.version))
  {
    var p := ResolveCredential(spec.password, spec.passwordFrom, first);
    if p.Err? {
      return Err(p.error);
    }
    var s := ResolveCredential(spec.secret, spec.secretFrom, second);
    if s.Err? {
      return Err(s.error);
    }
    var observed: seq<Observed> := [];
    var both := [p.value.from, s.value.from];
    for i := 0 to 2
      invariant i == 0 ==> observed == []
      invariant i == 1 ==> observed == Published(both[0], None)
      invariant i == 2 ==> observed == Published(both[0], both[1])
    {
      if both[i].Some? {
        if i == 1 && both[0].Some? { assert observed[0] == both[0].value; }
        if !Contains(observed, both[i].value) {
          observed := observed + [both[i].value];
        }
      }
    }
    r := Ok(Credentials(p.value, s.value, observed));
  }

  /** The Secret versions a client's credentials were read from. */
  ghost predicate ReadFrom(c: Credentials, o: Observed) {
    c.password.from == Some(o) || c.secret.from == Some(o)
  }

  predicate SameSecret(spec: Spec) {
    spec.passwordFrom.Some? && spec.secretFrom.Some? && spec.passwordFrom.value.id == spec.secretFrom.value.id
  }

  /** Two references to one Secret are read one after the other, so the second may
      see a newer version. The published version is then the older of the two: it
      never claims more than every credential of that Secret can back. */
  lemma PublishedIsBacked(spec: Spec, first: SecretRead, second: SecretRead, c: Credentials, o: Observed, p: Observed)
    requires Resolve(spec, first, second) == Ok(c)
    requires first.Found? && second.Found? && SameSecret(spec) ==> first.secret.version <= second.secret.version
    requires p in c.observed && ReadFrom(c, o) && o.id == p.id
    ensures p.version <= o.version
    ensures exists q :: ReadFrom(c, q) && q == p
    ensures forall i, j :: 0 <= i < |c.observed| && 0 <= j < |c.observed| && c.observed[i].id == c.observed[j].id ==>
      i == j
  {
    assert ReadFrom(c, p);
  }
}
