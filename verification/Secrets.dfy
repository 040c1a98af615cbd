/** Secret URIs, seeding missing secrets, checking them, and reading them at run time. */
module Secrets {
  import opened Sequences
  import opened Text
  import opened SecretNames

  // ----- URIs

  /** The team segment: "_" for no team, a blank one, or "default". */
  function CanonicalTeam(team: Option<string>): string {
    if team.None? then "_"
    else
      var trimmed := Trim(team.value, WHITESPACE);
      if trimmed == "" || EqualIgnoringCase(trimmed, "default") then "_" else trimmed
  }

  datatype Identity = Identity(env: string, tenant: string, team: Option<string>)

  const SCHEME := "secrets://"

  function UriParts(env: string, tenant: string, team: string, provider: string, key: string): seq<string> {
    [env, tenant, team, provider, CanonicalName(key)]
  }

  function UriOf(parts: seq<string>): string { SCHEME + Join(parts, '/') }

  function ProviderSegment(provider: string): string { if provider == "" then "messaging" else provider }

  /** The URI under which secrets are written. */
  function SecretUri(id: Identity, provider: string, key: string): string {
    UriOf(UriParts(id.env, id.tenant, CanonicalTeam(id.team), ProviderSegment(provider), key))
  }

  /** The only URI under which the gate looks for a secret. */
  function CandidateUri(id: Identity, provider: string, key: string): string {
    UriOf(UriParts(id.env, id.tenant, CanonicalTeam(id.team), provider, key))
  }

  /** Under one identity and provider, URIs collide exactly when the canonical names do. */
  lemma UrisCollideIff(id: Identity, provider: string, a: string, b: string)
    ensures SecretUri(id, provider, a) == SecretUri(id, provider, b) <==> CanonicalName(a) == CanonicalName(b)
    ensures CandidateUri(id, provider, a) == CandidateUri(id, provider, b) <==> CanonicalName(a) == CanonicalName(b)
  {
    SameKeyIff(id.env, id.tenant, CanonicalTeam(id.team), ProviderSegment(provider), a, b);
    SameKeyIff(id.env, id.tenant, CanonicalTeam(id.team), provider, a, b);
  }

  lemma SameKeyIff(env: string, tenant: string, team: string, segment: string, a: string, b: string)
    ensures UriOf(UriParts(env, tenant, team, segment, a)) == UriOf(UriParts(env, tenant, team, segment, b))
       <==> CanonicalName(a) == CanonicalName(b)
  {
    UriAfterTeam(env, tenant, team, segment, a);
    UriAfterTeam(env, tenant, team, segment, b);
    var front := SCHEME + Join([env, tenant, team], '/') + "/";
    SamePrefix(front, segment + "/" + CanonicalName(a), segment + "/" + CanonicalName(b));
    SamePrefix(segment + "/", CanonicalName(a), CanonicalName(b));
  }

  /** No part of the identity contains a slash. */
  predicate SlashFree(id: Identity, provider: string) {
    '/' !in id.env && '/' !in id.tenant && '/' !in CanonicalTeam(id.team) && '/' !in ProviderSegment(provider)
  }

  function Parts(id: Identity, provider: string, key: string): seq<string> {
    UriParts(id.env, id.tenant, CanonicalTeam(id.team), ProviderSegment(provider), key)
  }

  /** A URI splits into five parts exactly when no part of the identity holds a slash, and then into
      its own parts. */
  lemma SplitUri(id: Identity, provider: string, key: string)
    ensures var split := Split(SecretUri(id, provider, key)[|SCHEME|..], '/');
            (|split| == 5 <==> SlashFree(id, provider))
            && (SlashFree(id, provider) ==> split == Parts(id, provider, key))
  {
    var parts := Parts(id, provider, key);
    assert SecretUri(id, provider, key)[|SCHEME|..] == Join(parts, '/');
    CanonicalNameShape(key);
    assert '/' !in CanonicalName(key);
    SplitJoinCount(parts, '/');
    assert SlashFree(id, provider) <==> forall i :: 0 <= i < |parts| ==> '/' !in parts[i] by {
      assert parts[0] == id.env && parts[1] == id.tenant && parts[2] == CanonicalTeam(id.team);
      assert parts[3] == ProviderSegment(provider) && parts[4] == CanonicalName(key);
    }
    if SlashFree(id, provider) {
      SplitOfJoin(parts, '/');
    }
  }

  /** Isolation: an identity and provider without slashes share a URI with any others exactly when
      environment, tenant, canonical team, provider segment and canonical name all agree. */
  lemma UrisIsolateIff(a: Identity, providerA: string, keyA: string, b: Identity, providerB: string, keyB: string)
    requires SlashFree(a, providerA)
    ensures SecretUri(a, providerA, keyA) == SecretUri(b, providerB, keyB) <==>
            a.env == b.env && a.tenant == b.tenant && CanonicalTeam(a.team) == CanonicalTeam(b.team)
            && ProviderSegment(providerA) == ProviderSegment(providerB) && CanonicalName(keyA) == CanonicalName(keyB)
  {
    SplitUri(a, providerA, keyA);
    SplitUri(b, providerB, keyB);
    var x, y := Parts(a, providerA, keyA), Parts(b, providerB, keyB);
    if x == y {
      assert x[0] == y[0] && x[1] == y[1] && x[2] == y[2] && x[3] == y[3] && x[4] == y[4];
    }
  }

  /** Another environment and tenant that give the same text. */
  ghost predicate Aliased(env: string, tenant: string, otherEnv: string, otherTenant: string) {
    (env != otherEnv || tenant != otherTenant) && env + "/" + tenant == otherEnv + "/" + otherTenant
  }

  lemma SlashFreePairIsAlone(env: string, tenant: string, otherEnv: string, otherTenant: string)
    requires '/' !in env && '/' !in tenant
    ensures !Aliased(env, tenant, otherEnv, otherTenant)
  {
    if env + "/" + tenant == otherEnv + "/" + otherTenant {
      SplitAtSeparator(env, '/', tenant);
      SplitAtSeparator(otherEnv, '/', otherTenant);
      SplitOfWord(env, '/');
      SplitOfWord(tenant, '/');
      SplitCount(otherEnv, '/');
      SplitCount(otherTenant, '/');
      SplitOfWord(otherEnv, '/');
      SplitOfWord(otherTenant, '/');
      var x, y := [env] + [tenant], [otherEnv] + [otherTenant];
      assert x == y && x[0] == y[0] && x[1] == y[1];
    }
  }

  /** Moving the text around a slash across the separator. */
  lemma SlashedPairIsAliased(env: string, tenant: string) returns (otherEnv: string, otherTenant: string)
    requires '/' in env || '/' in tenant
    ensures Aliased(env, tenant, otherEnv, otherTenant)
  {
    if '/' in env {
      var i :| 0 <= i < |env| && env[i] == '/';
      var head, tail := env[..i], env[i + 1..];
      otherEnv, otherTenant := head, tail + "/" + tenant;
      assert env == head + "/" + tail;
      assert (head + "/" + tail) + "/" + tenant == head + "/" + (tail + "/" + tenant);
      assert |env| > |head|;
    } else {
      var i :| 0 <= i < |tenant| && tenant[i] == '/';
      var head, tail := tenant[..i], tenant[i + 1..];
      otherEnv, otherTenant := env + "/" + head, tail;
      assert tenant == head + "/" + tail;
      assert env + "/" + (head + "/" + tail) == (env + "/" + head) + "/" + tail;
      assert |tenant| > |tail|;
    }
  }

  lemma UriAfterTenant(id: Identity, provider: string, key: string)
    ensures SecretUri(id, provider, key)
         == SCHEME + ((id.env + "/" + id.tenant)
                      + ("/" + Join([CanonicalTeam(id.team), ProviderSegment(provider), CanonicalName(key)], '/')))
  {
    var front := [id.env, id.tenant];
    var back := [CanonicalTeam(id.team), ProviderSegment(provider), CanonicalName(key)];
    assert Parts(id, provider, key) == front + back;
    JoinConcat(front, back, '/');
    assert front[1..] == [id.tenant];
    assert Join(front, '/') + "/" + Join(back, '/') == Join(front, '/') + ("/" + Join(back, '/'));
  }

  lemma SameTenantTextIff(a: Identity, b: Identity, provider: string, key: string)
    requires b.team == a.team
    ensures SecretUri(a, provider, key) == SecretUri(b, provider, key) <==>
            a.env + "/" + a.tenant == b.env + "/" + b.tenant
  {
    var rest := "/" + Join([CanonicalTeam(a.team), ProviderSegment(provider), CanonicalName(key)], '/');
    var x, y := a.env + "/" + a.tenant, b.env + "/" + b.tenant;
    UriAfterTenant(a, provider, key);
    UriAfterTenant(b, provider, key);
    SamePrefix(SCHEME, x + rest, y + rest);
    if x + rest == y + rest {
      assert |x| == |y|;
      assert (x + rest)[..|x|] == x && (y + rest)[..|y|] == y;
    }
  }

  /** Exactly the tenants with a slash in environment or tenant share a secret with another tenant: for
      every key some other environment and tenant, team and provider alike, have the same URI. */
  lemma TenantSharesSecretIff(a: Identity, provider: string, key: string)
    ensures (exists b: Identity :: b.team == a.team && (b.env != a.env || b.tenant != a.tenant)
                                   && SecretUri(a, provider, key) == SecretUri(b, provider, key))
       <==> '/' in a.env || '/' in a.tenant
  {
    if '/' in a.env || '/' in a.tenant {
      var env, tenant := SlashedPairIsAliased(a.env, a.tenant);
      var b := Identity(env, tenant, a.team);
      SameTenantTextIff(a, b, provider, key);
      assert b.team == a.team && SecretUri(a, provider, key) == SecretUri(b, provider, key);
    } else {
      forall b: Identity | b.team == a.team && (b.env != a.env || b.tenant != a.tenant)
        ensures SecretUri(a, provider, key) != SecretUri(b, provider, key)
      {
        SameTenantTextIff(a, b, provider, key);
        SlashFreePairIsAlone(a.env, a.tenant, b.env, b.tenant);
      }
    }
  }

  /** A slash breaks the isolation: two tenants of different environments share every secret. */
  lemma SlashesMixTenants(a: Identity, b: Identity, provider: string, key: string)
    requires a == Identity("dev/eu", "acme", None) && b == Identity("dev", "eu/acme", None)
    ensures SecretUri(a, provider, key) == SecretUri(b, provider, key)
  {
    assert a.env + "/" + a.tenant == "dev/eu/acme" == b.env + "/" + b.tenant;
    SameTenantTextIff(a, b, provider, key);
  }

  lemma SamePrefix(prefix: string, a: string, b: string)
    ensures prefix + a == prefix + b <==> a == b
  {
    assert (prefix + a)[|prefix|..] == a && (prefix + b)[|prefix|..] == b;
  }

  lemma UriAfterTeam(env: string, tenant: string, team: string, provider: string, key: string)
    ensures UriOf(UriParts(env, tenant, team, provider, key))
         == (SCHEME + Join([env, tenant, team], '/') + "/") + (provider + "/" + CanonicalName(key))
  {
    var front, back := [env, tenant, team], [provider, CanonicalName(key)];
    assert UriParts(env, tenant, team, provider, key) == front + back;
    JoinConcat(front, back, '/');
    assert back[1..] == [CanonicalName(key)];
  }

  /** Without a provider id the gate looks where nothing is ever written. */
  lemma EmptyProviderNeverFound(id: Identity, a: string, b: string)
    ensures CandidateUri(id, "", a) != SecretUri(id, "", b)
  {
    var team := CanonicalTeam(id.team);
    UriAfterTeam(id.env, id.tenant, team, "", a);
    UriAfterTeam(id.env, id.tenant, team, "messaging", b);
    var x, y := "" + "/" + CanonicalName(a), "messaging" + "/" + CanonicalName(b);
    assert x[0] == '/' && y[0] == 'm';
    SamePrefix(SCHEME + Join([id.env, id.tenant, team], '/') + "/", x, y);
  }

  // ----- the store

  datatype Entry = Entry(uri: string, text: string)

  /** A store in which some URIs cannot be read or written. */
  datatype Faults = Faults(unreadable: set<string>, unwritable: set<string>)

  type Store = map<string, string>

  /** Seeding writes every entry it can, in order. */
  function ApplySeed(store: Store, entries: seq<Entry>, faults: Faults): Store
    decreases |entries|
  {
    if entries == [] then store
    else
      var e := entries[0];
      ApplySeed(if e.uri in faults.unwritable then store else store[e.uri := e.text], entries[1..], faults)
  }

  predicate AllWritten(entries: seq<Entry>, faults: Faults) {
    forall i :: 0 <= i < |entries| ==> entries[i].uri !in faults.unwritable
  }

  datatype SetupResult = Seeded | ReadFailed(uri: string) | SeedFailed

  function Placeholder(uri: string): Entry { Entry(uri, "placeholder for " + uri) }

  function SeedFor(seeds: map<string, string>, uri: string): Entry {
    if uri in seeds then Entry(uri, seeds[uri]) else Placeholder(uri)
  }

  /** The URIs of the required keys, in order. */
  function Uris(id: Identity, provider: string, keys: seq<string>): seq<string> {
    seq(|keys|, i requires 0 <= i < |keys| => SecretUri(id, provider, keys[i]))
  }

  function MissingFrom(store: Store, seeds: map<string, string>): string -> Option<Entry> {
    uri => if uri in store then None else Some(SeedFor(seeds, uri))
  }

  function Unreadable(faults: Faults): string -> bool { uri => uri in faults.unreadable }

  /** One turn of the loop over the required URIs. */
  lemma {:induction false} MissingStep(
      store: Store, seeds: map<string, string>, faults: Faults, uris: seq<string>, i: nat)
    requires i < |uris| && First(uris[..i], Unreadable(faults)).None?
    ensures Collect(uris[..i + 1], MissingFrom(store, seeds))
         == if uris[i] in store then Collect(uris[..i], MissingFrom(store, seeds))
            else Collect(uris[..i], MissingFrom(store, seeds)) + [SeedFor(seeds, uris[i])]
    ensures if uris[i] in faults.unreadable then First(uris, Unreadable(faults)) == Some(uris[i])
            else First(uris[..i + 1], Unreadable(faults)).None?
  {
    CollectPrefixStep(uris, i, MissingFrom(store, seeds));
    FirstAt(uris, i, Unreadable(faults));
  }

  class SecretsSetup {
    const id: Identity
    const seeds: map<string, string>
    const faults: Faults
    var store: Store

    constructor (id: Identity, seeds: map<string, string>, faults: Faults, store: Store)
      ensures this.id == id && this.seeds == seeds && this.faults == faults && this.store == store
    {
      this.id, this.seeds, this.faults, this.store := id, seeds, faults, store;
    }

    /** The entries to seed, unless some required URI cannot be read. */
    method CollectMissing(keys: seq<string>, provider: string) returns (missing: seq<Entry>, failed: Option<string>)
      ensures failed == First(Uris(id, provider, keys), Unreadable(faults))
      ensures failed.None? ==> missing == Collect(Uris(id, provider, keys), MissingFrom(store, seeds))
    {
      ghost var uris := Uris(id, provider, keys);
      missing := [];
      for i := 0 to |keys|
        invariant missing == Collect(uris[..i], MissingFrom(store, seeds))
        invariant First(uris[..i], Unreadable(faults)).None?
      {
        var uri := SecretUri(id, provider, keys[i]);
        assert uris[i] == uri;
        MissingStep(store, seeds, faults, uris, i);
        if uri in faults.unreadable {
          return missing, Some(uri);
        }
        if uri !in store {
          missing := missing + [SeedFor(seeds, uri)];
        }
      }
      assert uris[..|keys|] == uris;
      return missing, None;
    }

    method EnsurePackSecrets(keys: seq<string>, provider: string) returns (result: SetupResult)
      modifies this`store
      ensures result == EnsureResult(old(store), seeds, faults, Uris(id, provider, keys))
      ensures store == Ensured(old(store), seeds, faults, Uris(id, provider, keys))
    {
      var missing, failed := CollectMissing(keys, provider);
      if failed.Some? {
        return ReadFailed(failed.value);
      }
      if missing == [] {
        return Seeded;
      }
      store := ApplySeed(store, missing, faults);
      if AllWritten(missing, faults) {
        return Seeded;
      }
      return SeedFailed;
    }
  }

  function EnsureResult(store: Store, seeds: map<string, string>, faults: Faults, uris: seq<string>): SetupResult {
    var bad := First(uris, Unreadable(faults));
    if bad.Some? then ReadFailed(bad.value)
    else if AllWritten(Collect(uris, MissingFrom(store, seeds)), faults) then Seeded
    else SeedFailed
  }

  function Ensured(store: Store, seeds: map<string, string>, faults: Faults, uris: seq<string>): Store {
    if First(uris, Unreadable(faults)).Some? then store
    else ApplySeed(store, Collect(uris, MissingFrom(store, seeds)), faults)
  }

  // ----- what seeding achieves

  /** `store` extends `base` by seeds and placeholders only. */
  ghost predicate Extended(base: Store, store: Store, seeds: map<string, string>) {
    && (forall u :: u in base ==> u in store && store[u] == base[u])
    && (forall u :: u in store && u !in base ==> store[u] == SeedFor(seeds, u).text)
  }

  lemma {:induction false} SeededStore(
      base: Store, store: Store, seeds: map<string, string>, faults: Faults, uris: seq<string>)
    requires Extended(base, store, seeds)
    ensures var missing := Collect(uris, MissingFrom(base, seeds));
            var next := ApplySeed(store, missing, faults);
            && Extended(base, next, seeds)
            && (forall u :: u in store ==> u in next)
            && (forall u :: u in next ==> u in store || u in uris)
            && (AllWritten(missing, faults) ==> forall u :: u in uris ==> u in next)
    decreases |uris|
  {
    if uris != [] {
      var u := uris[0];
      var missing, rest := Collect(uris, MissingFrom(base, seeds)), Collect(uris[1..], MissingFrom(base, seeds));
      assert forall v :: v in uris <==> v == u || v in uris[1..];
      if AllWritten(missing, faults) {
        AllWrittenTail(uris, base, seeds, faults);
      }
      if u in base {
        SeededStore(base, store, seeds, faults, uris[1..]);
      } else {
        assert missing[0] == SeedFor(seeds, u) && missing[1..] == rest;
        SeededStore(base, if u in faults.unwritable then store else store[u := SeedFor(seeds, u).text],
                    seeds, faults, uris[1..]);
      }
    }
  }

  lemma {:induction false} AllWrittenTail(uris: seq<string>, base: Store, seeds: map<string, string>, faults: Faults)
    requires uris != [] && AllWritten(Collect(uris, MissingFrom(base, seeds)), faults)
    ensures AllWritten(Collect(uris[1..], MissingFrom(base, seeds)), faults)
    ensures uris[0] in base || uris[0] !in faults.unwritable
  {
    var all, rest := Collect(uris, MissingFrom(base, seeds)), Collect(uris[1..], MissingFrom(base, seeds));
    if uris[0] !in base {
      assert all == [SeedFor(seeds, uris[0])] + rest;
      assert all[0].uri == uris[0];
      forall i | 0 <= i < |rest| ensures rest[i].uri !in faults.unwritable {
        assert all[i + 1] == rest[i];
      }
    }
  }

  /** Whatever the result, seeding never changes a secret that was there, and adds only required URIs,
      each with its seed or its placeholder; on success every required URI is there. */
  lemma EnsureMeaning(store: Store, seeds: map<string, string>, faults: Faults, uris: seq<string>)
    ensures var next := Ensured(store, seeds, faults, uris);
            && (forall u :: u in store ==> u in next && next[u] == store[u])
            && (forall u :: u in next && u !in store ==> u in uris && next[u] == SeedFor(seeds, u).text)
            && (EnsureResult(store, seeds, faults, uris).Seeded? ==>
                  forall u :: u in uris ==> u in next && u !in faults.unreadable)
  {
    SeededStore(store, store, seeds, faults, uris);
    assert forall u :: Unreadable(faults)(u) <==> u in faults.unreadable;
  }

  lemma {:induction false} NothingMissing(store: Store, seeds: map<string, string>, uris: seq<string>)
    requires forall u :: u in uris ==> u in store
    ensures Collect(uris, MissingFrom(store, seeds)) == []
  {
    if uris != [] {
      NothingMissing(store, seeds, uris[1..]);
    }
  }

  /** After a success a second call succeeds and writes nothing. */
  lemma EnsureTwice(store: Store, seeds: map<string, string>, faults: Faults, uris: seq<string>)
    requires EnsureResult(store, seeds, faults, uris).Seeded?
    ensures var next := Ensured(store, seeds, faults, uris);
            Ensured(next, seeds, faults, uris) == next && EnsureResult(next, seeds, faults, uris).Seeded?
  {
    EnsureMeaning(store, seeds, faults, uris);
    NothingMissing(Ensured(store, seeds, faults, uris), seeds, uris);
  }

  // ----- the gate

  predicate Found(store: Store, faults: Faults, uri: string) { uri in store && uri !in faults.unreadable }

  function CandidateUris(id: Identity, provider: string, keys: seq<string>): seq<string> {
    seq(|keys|, i requires 0 <= i < |keys| => CandidateUri(id, provider, keys[i]))
  }

  function NotFound(store: Store, faults: Faults): string -> bool { uri => !Found(store, faults, uri) }

  /** The gate's answer: None, or the URIs that could not be resolved, in key order. */
  method CheckProviderSecrets(store: Store, faults: Faults, id: Identity, provider: string, keys: seq<string>)
    returns (missing: Option<seq<string>>)
    ensures missing == CheckResult(store, faults, id, provider, keys)
  {
    if keys == [] {
      return None;
    }
    var uris: seq<string> := [];
    ghost var all := CandidateUris(id, provider, keys);
    for i := 0 to |keys|
      invariant uris == Filter(all[..i], NotFound(store, faults))
    {
      FilterPrefixStep(all, i, NotFound(store, faults));
      var candidates := [CandidateUri(id, provider, keys[i])];
      assert candidates == [all[i]];
      var resolved := false;
      var candidateMissing: seq<string> := [];
      for c := 0 to |candidates|
        invariant candidateMissing == candidates[..c] && !resolved
        invariant c > 0 ==> !Found(store, faults, all[i])
      {
        if Found(store, faults, candidates[c]) {
          resolved := true;
          break;
        }
        candidateMissing := candidateMissing + [candidates[c]];
      }
      assert resolved <==> Found(store, faults, all[i]);
      if !resolved {
        assert candidateMissing == [all[i]];
        uris := uris + candidateMissing;
      }
    }
    assert all[..|keys|] == all;
    if uris == [] {
      return None;
    }
    return Some(uris);
  }

  function CheckResult(store: Store, faults: Faults, id: Identity, provider: string, keys: seq<string>)
    : Option<seq<string>>
  {
    var uris := Filter(CandidateUris(id, provider, keys), NotFound(store, faults));
    if uris == [] then None else Some(uris)
  }

  lemma CheckPassesIff(store: Store, faults: Faults, id: Identity, provider: string, keys: seq<string>)
    ensures CheckResult(store, faults, id, provider, keys).None? <==>
            forall i :: 0 <= i < |keys| ==> Found(store, faults, CandidateUri(id, provider, keys[i]))
  {
    var all := CandidateUris(id, provider, keys);
    FilterMembers(all, NotFound(store, faults));
    if forall i :: 0 <= i < |keys| ==> Found(store, faults, CandidateUri(id, provider, keys[i])) {
      FilterNone(all, NotFound(store, faults));
    } else {
      var i :| 0 <= i < |keys| && !Found(store, faults, CandidateUri(id, provider, keys[i]));
      assert all[i] in all;
      assert all[i] in Filter(all, NotFound(store, faults));
    }
  }

  /** After a successful setup the gate passes exactly when the provider id is not empty, or every
      secret the gate looks for was already there. */
  lemma GatePassesAfterEnsureIff(
      store: Store, seeds: map<string, string>, faults: Faults, id: Identity, provider: string, keys: seq<string>)
    requires EnsureResult(store, seeds, faults, Uris(id, provider, keys)).Seeded?
    ensures CheckResult(Ensured(store, seeds, faults, Uris(id, provider, keys)), faults, id, provider, keys).None?
       <==> provider != "" || CheckResult(store, faults, id, provider, keys).None?
  {
    var uris := Uris(id, provider, keys);
    var next := Ensured(store, seeds, faults, uris);
    EnsureMeaning(store, seeds, faults, uris);
    CheckPassesIff(store, faults, id, provider, keys);
    CheckPassesIff(next, faults, id, provider, keys);
    if provider != "" {
      forall i | 0 <= i < |keys| ensures Found(next, faults, CandidateUri(id, provider, keys[i])) {
        assert uris[i] in uris;
      }
    } else {
      forall i | 0 <= i < |keys|
        ensures Found(next, faults, CandidateUri(id, provider, keys[i]))
                <==> Found(store, faults, CandidateUri(id, provider, keys[i]))
      {
        forall j | 0 <= j < |keys| ensures CandidateUri(id, provider, keys[i]) != uris[j] {
          EmptyProviderNeverFound(id, keys[i], keys[j]);
        }
      }
    }
  }

  // ----- reading at run time

  function StripScheme(uri: string): Option<string> {
    if SCHEME <= uri then Some(uri[|SCHEME|..]) else None
  }

  function TeamWildcardFallback(uri: string): Option<string> {
    var trimmed := StripScheme(uri);
    if trimmed.None? then None
    else
      var segments := Split(trimmed.value, '/');
      if |segments| != 5 || segments[2] == "_" || segments[2] == "" then None
      else Some(UriOf([segments[0], segments[1], "_", segments[3], segments[4]]))
  }

  function RuntimeRead(store: Store, faults: Faults, uri: string): Option<string> {
    if Found(store, faults, uri) then Some(store[uri])
    else
      var fallback := TeamWildcardFallback(uri);
      if fallback.Some? && Found(store, faults, fallback.value) then Some(store[fallback.value]) else None
  }

  /** A written URI has a wildcard fallback exactly when it names a team and no part holds a slash;
      the fallback is the URI the same secret has without a team. */
  lemma FallbackIff(id: Identity, provider: string, key: string)
    ensures TeamWildcardFallback(SecretUri(id, provider, key))
         == if SlashFree(id, provider) && CanonicalTeam(id.team) != "_"
            then Some(SecretUri(id.(team := None), provider, key)) else None
  {
    SplitUri(id, provider, key);
    assert CanonicalTeam(id.team) != "";
  }

  /** A secret seeded without a team, and not set for the team, can be read at run time under a team
      exactly when the team is no team at all or no part of the identity holds a slash. */
  lemma TeamReadsTenantSecretIff(
      store: Store, seeds: map<string, string>, faults: Faults, id: Identity, provider: string, keys: seq<string>,
      team: Option<string>, i: nat)
    requires i < |keys| && id.team.None?
    requires EnsureResult(store, seeds, faults, Uris(id, provider, keys)).Seeded?
    requires var next := Ensured(store, seeds, faults, Uris(id, provider, keys));
             CanonicalTeam(team) != "_" ==> !Found(next, faults, SecretUri(id.(team := team), provider, keys[i]))
    ensures var next := Ensured(store, seeds, faults, Uris(id, provider, keys));
            var read := RuntimeRead(next, faults, SecretUri(id.(team := team), provider, keys[i]));
            && SecretUri(id, provider, keys[i]) in next
            && (read == Some(next[SecretUri(id, provider, keys[i])])
                <==> CanonicalTeam(team) == "_" || SlashFree(id.(team := team), provider))
            && (read.None? <==> !(CanonicalTeam(team) == "_" || SlashFree(id.(team := team), provider)))
  {
    var uris := Uris(id, provider, keys);
    EnsureMeaning(store, seeds, faults, uris);
    assert uris[i] in uris;
    FallbackIff(id.(team := team), provider, keys[i]);
    if CanonicalTeam(team) == "_" {
      assert SecretUri(id.(team := team), provider, keys[i]) == SecretUri(id, provider, keys[i]);
    }
  }
}
