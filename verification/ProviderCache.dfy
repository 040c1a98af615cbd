/**
 The provider registry cache: one file a reference, one file a digest, and an index from reference
 to digest.  Files are named by slugs.  What the remote answers is an input of each call.
 */
module ProviderCache {
  import opened Sequences
  import opened Text
  import opened Slugs

  type Bytes = string

  datatype Path = RefFile(slug: string) | DigestFile(slug: string) | LocalFile(path: string)

  datatype Cache = Cache(byRef: map<string, Bytes>, byDigest: map<string, Bytes>, index: map<string, string>)

  /** The remote's answer: a digest, and the bytes unless they cannot be read; or a failed fetch. */
  datatype Remote = Fetched(digest: string, bytes: Option<Bytes>) | Unreachable

  datatype Failure = LocalPathMissing | UnsupportedScheme | FetchFailed | BytesUnreadable | NothingCached

  datatype Result<+T> = Ok(value: T) | Err(failure: Failure)

  const EMPTY := Cache(map[], map[], map[])

  predicate Exists(cache: Cache, p: Path) {
    match p
    case RefFile(slug) => slug in cache.byRef
    case DigestFile(slug) => slug in cache.byDigest
    case LocalFile(_) => false
  }

  function ContentAt(cache: Cache, p: Path): Option<Bytes> {
    match p
    case RefFile(slug) => if slug in cache.byRef then Some(cache.byRef[slug]) else None
    case DigestFile(slug) => if slug in cache.byDigest then Some(cache.byDigest[slug]) else None
    case LocalFile(_) => None
  }

  // ----- references

  function StripPrefix(s: string, prefix: string): Option<string> {
    if prefix <= s then Some(s[|prefix|..]) else None
  }

  function ParseLocalRef(reference: string): Option<string> {
    var file := StripPrefix(reference, "file://");
    if file.Some? then
      var trimmed := Trim(file.value, WHITESPACE);
      if trimmed == "" then None else Some(trimmed)
    else if ContainsText(reference, "://") then None
    else Some(reference)
  }

  predicate SchemeSupported(reference: string) {
    "oci://" <= reference || "repo://" <= reference || "store://" <= reference || !ContainsText(reference, "://")
  }

  // ----- storing and fetching

  function Store(cache: Cache, reference: string, digest: string, bytes: Bytes): Cache {
    Cache(
      cache.byRef[Slug(reference) := bytes],
      cache.byDigest[Slug(digest) := bytes],
      cache.index[reference := digest])
  }

  function PriorDigest(cache: Cache, reference: string): Option<string> {
    if reference in cache.index then Some(cache.index[reference]) else None
  }

  function ExistingFor(cache: Cache, reference: string, digest: string): Option<Path> {
    if Slug(digest) in cache.byDigest then Some(DigestFile(Slug(digest)))
    else if Slug(reference) in cache.byRef then Some(RefFile(Slug(reference)))
    else None
  }

  function Fetch(cache: Cache, reference: string, remote: Remote): (Cache, Result<Path>) {
    if !SchemeSupported(reference) then (cache, Err(UnsupportedScheme))
    else if remote.Unreachable? then (cache, Err(FetchFailed))
    else
      var existing := ExistingFor(cache, reference, remote.digest);
      if PriorDigest(cache, reference) == Some(remote.digest) && existing.Some? then (cache, Ok(existing.value))
      else if remote.bytes.None? then (cache, Err(BytesUnreadable))
      else (Store(cache, reference, remote.digest, remote.bytes.value), Ok(RefFile(Slug(reference))))
  }

  function CachedByDigest(cache: Cache, reference: string): Option<Path> {
    var digest := PriorDigest(cache, reference);
    if digest.Some? && Slug(digest.value) in cache.byDigest then Some(DigestFile(Slug(digest.value))) else None
  }

  /** What is cached for a reference: its own file, else the file of the digest the index records. */
  function Cached(cache: Cache, reference: string): Option<Path> {
    if Slug(reference) in cache.byRef then Some(RefFile(Slug(reference))) else CachedByDigest(cache, reference)
  }

  function ResolveRemote(cache: Cache, reference: string, offline: bool, refresh: bool, remote: Remote)
    : (Cache, Result<Option<Path>>)
  {
    var cached := Cached(cache, reference);
    if !offline && refresh then
      var (next, fetched) := Fetch(cache, reference, remote);
      if fetched.Ok? then (next, Ok(Some(fetched.value)))
      else if cached.Some? then (next, Ok(cached))
      else (next, Err(fetched.failure))
    else if cached.Some? then (cache, Ok(cached))
    else if offline then (cache, Err(NothingCached))
    else
      var (next, fetched) := Fetch(cache, reference, remote);
      if fetched.Ok? then (next, Ok(Some(fetched.value))) else (next, Err(fetched.failure))
  }

  function ResolveCatalog(
      cache: Cache, catalogFile: Option<string>, registryRef: Option<string>, offline: bool, refresh: bool,
      remote: Remote, localExists: string -> bool): (Cache, Result<Option<Path>>)
  {
    if catalogFile.Some? then (cache, Ok(Some(LocalFile(catalogFile.value))))
    else if registryRef.None? || Trim(registryRef.value, WHITESPACE) == "" then (cache, Ok(None))
    else
      var reference := Trim(registryRef.value, WHITESPACE);
      var local := ParseLocalRef(reference);
      if local.Some? then
        (cache, if localExists(local.value) then Ok(Some(LocalFile(local.value))) else Err(LocalPathMissing))
      else ResolveRemote(cache, reference, offline, refresh, remote)
  }

  // ----- the implementation: files and index overwritten in place

  class RegistryCache {
    var byRef: map<string, Bytes>
    var byDigest: map<string, Bytes>
    var index: map<string, string>

    constructor ()
      ensures State() == EMPTY
    {
      byRef, byDigest, index := map[], map[], map[];
    }

    function State(): Cache
      reads this
    {
      Cache(byRef, byDigest, index)
    }

    method CacheRemoteRegistryFile(reference: string, digest: string, bytes: Bytes) returns (path: Path)
      modifies this
      ensures State() == Store(old(State()), reference, digest, bytes)
      ensures path == RefFile(Slug(reference))
    {
      var digestSlug := MakeSlug(digest);
      byDigest := byDigest[digestSlug := bytes];
      var refSlug := MakeSlug(reference);
      byRef := byRef[refSlug := bytes];
      index := index[reference := digest];
      path := RefFile(refSlug);
    }

    method FetchRemoteRegistryToCache(reference: string, remote: Remote) returns (result: Result<Path>)
      modifies this
      ensures (State(), result) == Fetch(old(State()), reference, remote)
    {
      if !SchemeSupported(reference) {
        return Err(UnsupportedScheme);
      }
      var priorDigest := PriorDigest(State(), reference);
      match remote {
        case Unreachable =>
          return Err(FetchFailed);
        case Fetched(digest, bytes) =>
          if priorDigest == Some(digest) {
            var existing := ExistingFor(State(), reference, digest);
            if existing.Some? {
              return Ok(existing.value);
            }
          }
          if bytes.None? {
            return Err(BytesUnreadable);
          }
          var path := CacheRemoteRegistryFile(reference, digest, bytes.value);
          return Ok(path);
      }
    }

    method ResolveCatalogPath(
        catalogFile: Option<string>, registryRef: Option<string>, offline: bool, refresh: bool,
        remote: Remote, localExists: string -> bool) returns (result: Result<Option<Path>>)
      modifies this
      ensures (State(), result)
           == ResolveCatalog(old(State()), catalogFile, registryRef, offline, refresh, remote, localExists)
    {
      if catalogFile.Some? {
        return Ok(Some(LocalFile(catalogFile.value)));
      }
      if registryRef.None? {
        return Ok(None);
      }
      var reference := Trim(registryRef.value, WHITESPACE);
      if reference == "" {
        return Ok(None);
      }
      var local := ParseLocalRef(reference);
      if local.Some? {
        if localExists(local.value) {
          return Ok(Some(LocalFile(local.value)));
        }
        return Err(LocalPathMissing);
      }
      var slug := MakeSlug(reference);
      var cached := RefFile(slug);
      var cachedByDigest := CachedByDigest(State(), reference);
      if !offline && refresh {
        var fetched := FetchRemoteRegistryToCache(reference, remote);
        if fetched.Ok? {
          return Ok(Some(fetched.value));
        }
        if Exists(State(), cached) {
          return Ok(Some(cached));
        }
        if cachedByDigest.Some? {
          return Ok(cachedByDigest);
        }
        return Err(fetched.failure);
      }
      if Exists(State(), cached) {
        return Ok(Some(cached));
      }
      if cachedByDigest.Some? {
        return Ok(cachedByDigest);
      }
      if offline {
        return Err(NothingCached);
      }
      var fetched := FetchRemoteRegistryToCache(reference, remote);
      if fetched.Ok? {
        return Ok(Some(fetched.value));
      }
      return Err(fetched.failure);
    }
  }

  // ----- histories

  /** A fetch, or the loss of a cache file or of the index. */
  datatype Op =
    | FetchOp(reference: string, remote: Remote)
    | ResolveOp(reference: string, offline: bool, refresh: bool, remote: Remote)
    | EvictRef(slug: string)
    | EvictDigest(slug: string)
    | EvictIndex

  function Apply(cache: Cache, op: Op): Cache {
    match op
    case FetchOp(reference, remote) => Fetch(cache, reference, remote).0
    case ResolveOp(reference, offline, refresh, remote) => ResolveRemote(cache, reference, offline, refresh, remote).0
    case EvictRef(slug) => cache.(byRef := cache.byRef - {slug})
    case EvictDigest(slug) => cache.(byDigest := cache.byDigest - {slug})
    case EvictIndex => cache.(index := map[])
  }

  /** Does this call fetch, and succeed? */
  predicate Fetches(cache: Cache, op: Op) {
    match op
    case FetchOp(reference, remote) => Fetch(cache, reference, remote).1.Ok?
    case ResolveOp(reference, offline, refresh, remote) =>
      !offline && (refresh || Cached(cache, reference).None?) && Fetch(cache, reference, remote).1.Ok?
    case _ => false
  }

  /** The digest last fetched for each reference. */
  function LastFetched(cache: Cache, op: Op, last: map<string, string>): map<string, string> {
    if Fetches(cache, op) then last[op.reference := op.remote.digest] else last
  }

  function Run(cache: Cache, ops: seq<Op>): Cache
    decreases |ops|
  {
    if ops == [] then cache else Run(Apply(cache, ops[0]), ops[1..])
  }

  // ----- who wrote what

  /** Who last wrote a reference file, and the digest written. */
  datatype Writer = Writer(reference: string, digest: string)

  /** What happened so far: the digest last fetched for each reference, the last writer of each
      reference file, and the digest last written to each digest file. */
  datatype Past = Past(last: map<string, string>, refWriter: map<string, Writer>, digestWriter: map<string, string>)

  const NO_PAST := Past(map[], map[], map[])

  /** Does this call write files, rather than take the unchanged-digest shortcut? */
  predicate Writes(cache: Cache, op: Op) {
    Fetches(cache, op)
    && !(PriorDigest(cache, op.reference) == Some(op.remote.digest)
         && ExistingFor(cache, op.reference, op.remote.digest).Some?)
  }

  function Record(cache: Cache, op: Op, past: Past): Past {
    if !Writes(cache, op) then past.(last := LastFetched(cache, op, past.last))
    else
      Past(
        LastFetched(cache, op, past.last),
        past.refWriter[Slug(op.reference) := Writer(op.reference, op.remote.digest)],
        past.digestWriter[Slug(op.remote.digest) := op.remote.digest])
  }

  function PastAfter(cache: Cache, ops: seq<Op>, past: Past): Past
    decreases |ops|
  {
    if ops == [] then past else PastAfter(Apply(cache, ops[0]), ops[1..], Record(cache, ops[0], past))
  }

  /** The remote serves each digest's content; nothing is asked of the names. */
  ghost predicate Honest(content: map<string, Bytes>, op: Op) {
    (op.FetchOp? || op.ResolveOp?) && op.remote.Fetched? ==>
      op.remote.digest in content && (op.remote.bytes.Some? ==> op.remote.bytes.value == content[op.remote.digest])
  }

  ghost predicate WriterKnown(content: map<string, Bytes>, past: Past, slug: string) {
    slug in past.refWriter
    && var w := past.refWriter[slug];
       && Slug(w.reference) == slug && w.digest in content
       && w.reference in past.last && past.last[w.reference] == w.digest
  }

  ghost predicate DigestKnown(content: map<string, Bytes>, past: Past, slug: string) {
    slug in past.digestWriter && past.digestWriter[slug] in content && Slug(past.digestWriter[slug]) == slug
  }

  /** Every file holds what its last writer wrote, a reference file's last writer has fetched nothing
      else since, and the index records only digests last fetched. */
  ghost predicate FollowsPast(content: map<string, Bytes>, cache: Cache, past: Past) {
    && (forall r :: r in past.last ==> past.last[r] in content)
    && (forall r :: r in cache.index ==> r in past.last && cache.index[r] == past.last[r])
    && (forall s :: s in cache.byRef ==>
          WriterKnown(content, past, s) && cache.byRef[s] == content[past.refWriter[s].digest])
    && (forall s :: s in cache.byDigest ==>
          DigestKnown(content, past, s) && cache.byDigest[s] == content[past.digestWriter[s]])
  }

  lemma StoreFollowsPast(content: map<string, Bytes>, cache: Cache, past: Past, reference: string, digest: string)
    requires FollowsPast(content, cache, past) && digest in content
    ensures FollowsPast(
              content, Store(cache, reference, digest, content[digest]),
              Past(past.last[reference := digest],
                   past.refWriter[Slug(reference) := Writer(reference, digest)],
                   past.digestWriter[Slug(digest) := digest]))
  {
    var next := Store(cache, reference, digest, content[digest]);
    var now := Past(past.last[reference := digest],
                    past.refWriter[Slug(reference) := Writer(reference, digest)],
                    past.digestWriter[Slug(digest) := digest]);
    forall s | s in next.byRef
      ensures WriterKnown(content, now, s) && next.byRef[s] == content[now.refWriter[s].digest]
    {
      assert s != Slug(reference) ==> WriterKnown(content, past, s);
    }
    forall s | s in next.byDigest
      ensures DigestKnown(content, now, s) && next.byDigest[s] == content[now.digestWriter[s]]
    {
      assert s != Slug(digest) ==> DigestKnown(content, past, s);
    }
  }

  lemma FetchFollowsPast(content: map<string, Bytes>, cache: Cache, past: Past, op: Op)
    requires FollowsPast(content, cache, past) && Honest(content, op) && Fetches(cache, op)
    ensures FollowsPast(content, Apply(cache, op), Record(cache, op, past))
  {
    if Writes(cache, op) {
      assert Apply(cache, op) == Store(cache, op.reference, op.remote.digest, content[op.remote.digest]);
      StoreFollowsPast(content, cache, past, op.reference, op.remote.digest);
    } else {
      assert Apply(cache, op) == cache;
      assert past.last[op.reference := past.last[op.reference]] == past.last;
    }
  }

  /** Without a successful fetch a call changes nothing, or only loses. */
  lemma NoFetchOnlyLoses(cache: Cache, op: Op)
    requires !Fetches(cache, op)
    ensures Lost(cache, Apply(cache, op))
  {
  }

  lemma ApplyFollowsPast(content: map<string, Bytes>, cache: Cache, past: Past, op: Op)
    requires FollowsPast(content, cache, past) && Honest(content, op)
    ensures FollowsPast(content, Apply(cache, op), Record(cache, op, past))
  {
    if Fetches(cache, op) {
      FetchFollowsPast(content, cache, past, op);
    } else {
      NoFetchOnlyLoses(cache, op);
      LossFollowsPast(content, cache, past, Apply(cache, op));
    }
  }

  /** `next` is `cache` without some files or index entries. */
  ghost predicate Lost(cache: Cache, next: Cache) {
    && (forall s :: s in next.byRef ==> s in cache.byRef && next.byRef[s] == cache.byRef[s])
    && (forall s :: s in next.byDigest ==> s in cache.byDigest && next.byDigest[s] == cache.byDigest[s])
    && (forall r :: r in next.index ==> r in cache.index && next.index[r] == cache.index[r])
  }

  /** Losing files or index entries leaves what is left true to the past. */
  lemma LossFollowsPast(content: map<string, Bytes>, cache: Cache, past: Past, next: Cache)
    requires FollowsPast(content, cache, past)
    requires Lost(cache, next)
    ensures FollowsPast(content, next, past)
  {
  }

  /** Over every run, whatever names it uses. */
  lemma {:induction false} RunFollowsPast(content: map<string, Bytes>, cache: Cache, past: Past, ops: seq<Op>)
    requires FollowsPast(content, cache, past)
    requires forall i :: 0 <= i < |ops| ==> Honest(content, ops[i])
    ensures FollowsPast(content, Run(cache, ops), PastAfter(cache, ops, past))
    decreases |ops|
  {
    if ops != [] {
      ApplyFollowsPast(content, cache, past, ops[0]);
      RunFollowsPast(content, Apply(cache, ops[0]), Record(cache, ops[0], past), ops[1..]);
    }
  }

  /** The content last fetched for a reference. */
  function LastContent(content: map<string, Bytes>, past: Past, reference: string): Option<Bytes> {
    if reference in past.last && past.last[reference] in content then Some(content[past.last[reference]]) else None
  }

  /** After any run from an empty cache, with names that may collide: a reference file was last written
      by a reference with the same runs; and it holds the content last fetched for `reference` exactly
      when `reference` last fetched the same content as the one that wrote it. */
  lemma {:induction false} RefFileRightIff(content: map<string, Bytes>, ops: seq<Op>, reference: string)
    requires forall i :: 0 <= i < |ops| ==> Honest(content, ops[i])
    requires Slug(reference) in Run(EMPTY, ops).byRef
    ensures var past := PastAfter(EMPTY, ops, NO_PAST);
            && Slug(reference) in past.refWriter
            && var other := past.refWriter[Slug(reference)].reference;
               && RunsOrRegistry(other) == RunsOrRegistry(reference)
               && (ContentAt(Run(EMPTY, ops), RefFile(Slug(reference))) == LastContent(content, past, reference) <==>
                   LastContent(content, past, other) == LastContent(content, past, reference))
  {
    RunFollowsPast(content, EMPTY, NO_PAST, ops);
    var past := PastAfter(EMPTY, ops, NO_PAST);
    assert WriterKnown(content, past, Slug(reference));
    SlugsCollideIff(past.refWriter[Slug(reference)].reference, reference);
  }

  /** The digest last written to a cache file. */
  function WrittenDigest(past: Past, p: Path): Option<string> {
    match p
    case RefFile(slug) => if slug in past.refWriter then Some(past.refWriter[slug].digest) else None
    case DigestFile(slug) => if slug in past.digestWriter then Some(past.digestWriter[slug]) else None
    case LocalFile(_) => None
  }

  /** The name whose slug the file carries is known to share it: the last writer's reference with
      `reference`, or the last digest written with the digest last fetched. */
  ghost predicate IsFileOf(past: Past, reference: string, p: Path) {
    match p
    case RefFile(slug) =>
      && slug == Slug(reference) && slug in past.refWriter
      && RunsOrRegistry(past.refWriter[slug].reference) == RunsOrRegistry(reference)
    case DigestFile(slug) =>
      && reference in past.last && slug == Slug(past.last[reference]) && slug in past.digestWriter
      && RunsOrRegistry(past.digestWriter[slug]) == RunsOrRegistry(past.last[reference])
    case LocalFile(_) => false
  }

  /** The digest last written to the file and the one last fetched for the reference have one content. */
  ghost predicate WrittenIsLastFetched(content: map<string, Bytes>, past: Past, reference: string, p: Path) {
    && WrittenDigest(past, p).Some? && reference in past.last
    && WrittenDigest(past, p).value in content && past.last[reference] in content
    && content[WrittenDigest(past, p).value] == content[past.last[reference]]
  }

  /** What a cache file of the reference holds. */
  lemma FileHolds(content: map<string, Bytes>, cache: Cache, past: Past, reference: string, p: Path)
    requires FollowsPast(content, cache, past) && Exists(cache, p)
    requires p == RefFile(Slug(reference)) || (reference in past.last && p == DigestFile(Slug(past.last[reference])))
    ensures IsFileOf(past, reference, p)
    ensures ContentAt(cache, p) == LastContent(content, past, reference)
       <==> WrittenIsLastFetched(content, past, reference, p)
  {
    match p
    case RefFile(slug) =>
      assert WriterKnown(content, past, slug);
      SlugsCollideIff(past.refWriter[slug].reference, reference);
    case DigestFile(slug) =>
      assert DigestKnown(content, past, slug);
      SlugsCollideIff(past.digestWriter[slug], past.last[reference]);
  }

  /** What a resolution may lead to: the reference's file, or the file of the digest last fetched for it. */
  predicate LeadsTo(past: Past, next: Cache, reference: string, p: Path) {
    Exists(next, p)
    && (p == RefFile(Slug(reference))
        || (reference in past.last && p == DigestFile(Slug(past.last[reference]))))
  }

  predicate Resolves(cache: Cache, reference: string, offline: bool, remote: Remote) {
    Cached(cache, reference).Some? || (!offline && Fetch(cache, reference, remote).1.Ok?)
  }

  lemma FetchLeads(cache: Cache, past: Past, op: Op)
    requires Fetches(cache, op)
    ensures var (next, fetched) := Fetch(cache, op.reference, op.remote);
            LeadsTo(Record(cache, op, past), next, op.reference, fetched.value)
  {
  }

  lemma CachedLeads(content: map<string, Bytes>, cache: Cache, past: Past, reference: string)
    requires FollowsPast(content, cache, past) && Cached(cache, reference).Some?
    ensures LeadsTo(past, cache, reference, Cached(cache, reference).value)
  {
  }

  /** A resolution that does not fetch anything answers from the cache, unchanged. */
  lemma ResolveCases(cache: Cache, reference: string, offline: bool, refresh: bool, remote: Remote)
    ensures var (next, result) := ResolveRemote(cache, reference, offline, refresh, remote);
            var (stored, fetched) := Fetch(cache, reference, remote);
            if Fetches(cache, ResolveOp(reference, offline, refresh, remote))
            then next == stored && result == Ok(Some(fetched.value))
            else
              && next == cache
              && (if Cached(cache, reference).Some? then result == Ok(Cached(cache, reference)) else result.Err?)
  {
  }

  lemma ResolvePath(
      content: map<string, Bytes>, cache: Cache, past: Past, reference: string, offline: bool, refresh: bool,
      remote: Remote)
    requires FollowsPast(content, cache, past)
    ensures var now := Record(cache, ResolveOp(reference, offline, refresh, remote), past);
            var (next, result) := ResolveRemote(cache, reference, offline, refresh, remote);
            && (offline ==> next == cache)
            && (result.Ok? <==> Resolves(cache, reference, offline, remote))
            && (result.Ok? ==> result.value.Some? && LeadsTo(now, next, reference, result.value.value))
  {
    var op := ResolveOp(reference, offline, refresh, remote);
    ResolveCases(cache, reference, offline, refresh, remote);
    if Fetches(cache, op) {
      FetchLeads(cache, past, op);
    } else {
      assert Record(cache, op, past) == past;
      if Cached(cache, reference).Some? {
        CachedLeads(content, cache, past, reference);
      }
    }
  }

  /** The file holds the content last fetched for the reference exactly when the digest last written to
      it has that content. */
  ghost predicate RightIff(content: map<string, Bytes>, past: Past, next: Cache, reference: string, p: Path) {
    ContentAt(next, p) == LastContent(content, past, reference)
    <==> WrittenIsLastFetched(content, past, reference, p)
  }

  /** After any run, whatever names collide, and with whatever flags: a resolution succeeds exactly when
      something is cached or a fetch it may make succeeds.  It then leads to a file last written under a
      name with the same runs, and to the content last fetched for the reference, this call's fetch
      included, exactly when the digest last written there has that content. */
  lemma ResolveRightIff(
      content: map<string, Bytes>, ops: seq<Op>, reference: string, offline: bool, refresh: bool, remote: Remote)
    requires forall i :: 0 <= i < |ops| ==> Honest(content, ops[i])
    requires Honest(content, ResolveOp(reference, offline, refresh, remote))
    ensures var cache := Run(EMPTY, ops);
            var op := ResolveOp(reference, offline, refresh, remote);
            var past := Record(cache, op, PastAfter(EMPTY, ops, NO_PAST));
            var (next, result) := ResolveRemote(cache, reference, offline, refresh, remote);
            && (result.Ok? <==> Resolves(cache, reference, offline, remote))
            && (result.Ok? ==>
                  && result.value.Some? && LeadsTo(past, next, reference, result.value.value)
                  && IsFileOf(past, reference, result.value.value)
                  && RightIff(content, past, next, reference, result.value.value))
  {
    var cache, before := Run(EMPTY, ops), PastAfter(EMPTY, ops, NO_PAST);
    var op := ResolveOp(reference, offline, refresh, remote);
    var (next, result) := ResolveRemote(cache, reference, offline, refresh, remote);
    RunFollowsPast(content, EMPTY, NO_PAST, ops);
    ApplyFollowsPast(content, cache, before, op);
    ResolvePath(content, cache, before, reference, offline, refresh, remote);
    if result.Ok? {
      FileHolds(content, next, Record(cache, op, before), reference, result.value.value);
    }
  }

  // ----- names with distinct slugs

  /** Distinct names in the set have distinct slugs. */
  ghost predicate SlugDistinct(names: set<string>) {
    forall a, b :: a in names && b in names && Slug(a) == Slug(b) ==> a == b
  }

  /** What a run may use: slug-distinct references and digests, and the content of each digest. */
  datatype Universe = Universe(refs: set<string>, digests: set<string>, content: map<string, Bytes>)

  ghost predicate ValidUniverse(u: Universe) {
    SlugDistinct(u.refs) && SlugDistinct(u.digests) && u.digests <= u.content.Keys
  }

  ghost predicate HonestOp(u: Universe, op: Op) {
    Honest(u.content, op)
    && (op.FetchOp? || op.ResolveOp? ==>
          op.reference in u.refs && (op.remote.Fetched? ==> op.remote.digest in u.digests))
  }

  /** Only names of the universe were used. */
  ghost predicate Named(u: Universe, past: Past) {
    && (forall s :: s in past.refWriter ==> past.refWriter[s].reference in u.refs)
    && (forall s :: s in past.digestWriter ==> past.digestWriter[s] in u.digests)
    && (forall r :: r in past.last ==> past.last[r] in u.digests)
  }

  lemma RecordIsNamed(u: Universe, cache: Cache, past: Past, op: Op)
    requires Named(u, past) && HonestOp(u, op)
    ensures Named(u, Record(cache, op, past))
  {
    assert Fetches(cache, op) ==> op.remote.Fetched?;
  }

  lemma {:induction false} RunIsNamed(u: Universe, cache: Cache, past: Past, ops: seq<Op>)
    requires Named(u, past) && forall i :: 0 <= i < |ops| ==> HonestOp(u, ops[i])
    ensures Named(u, PastAfter(cache, ops, past))
    decreases |ops|
  {
    if ops != [] {
      RecordIsNamed(u, cache, past, ops[0]);
      RunIsNamed(u, Apply(cache, ops[0]), Record(cache, ops[0], past), ops[1..]);
    }
  }

  /** A run and one more call. */
  lemma {:induction false} RunThenCall(u: Universe, ops: seq<Op>, op: Op)
    requires HonestOp(u, op) && forall i :: 0 <= i < |ops| ==> HonestOp(u, ops[i])
    ensures var cache, before := Run(EMPTY, ops), PastAfter(EMPTY, ops, NO_PAST);
            && FollowsPast(u.content, cache, before)
            && FollowsPast(u.content, Apply(cache, op), Record(cache, op, before))
            && Named(u, Record(cache, op, before))
  {
    var cache, before := Run(EMPTY, ops), PastAfter(EMPTY, ops, NO_PAST);
    RunFollowsPast(u.content, EMPTY, NO_PAST, ops);
    ApplyFollowsPast(u.content, cache, before, op);
    RunIsNamed(u, EMPTY, NO_PAST, ops);
    RecordIsNamed(u, cache, before, op);
  }

  /** With distinct slugs every cache file of the reference holds the content last fetched for it. */
  lemma DistinctFileIsRight(u: Universe, cache: Cache, past: Past, reference: string, p: Path)
    requires ValidUniverse(u) && FollowsPast(u.content, cache, past) && Named(u, past)
    requires reference in u.refs && LeadsTo(past, cache, reference, p)
    ensures reference in past.last && ContentAt(cache, p) == LastContent(u.content, past, reference)
  {
    match p
    case RefFile(slug) =>
      assert WriterKnown(u.content, past, slug);
      assert past.refWriter[slug].reference == reference;
    case DigestFile(slug) =>
      assert DigestKnown(u.content, past, slug);
      assert past.digestWriter[slug] == past.last[reference];
  }

  /** Each digest file holds its digest's content, each reference file the content last fetched for
      its reference, and the index records only digests last fetched. */
  ghost predicate CacheInv(u: Universe, cache: Cache, past: Past)
    requires ValidUniverse(u)
  {
    && (forall d :: d in u.digests && Slug(d) in cache.byDigest ==> cache.byDigest[Slug(d)] == u.content[d])
    && (forall r :: r in u.refs && Slug(r) in cache.byRef ==>
          r in past.last && ContentAt(cache, RefFile(Slug(r))) == LastContent(u.content, past, r))
    && (forall r :: r in u.refs && r in cache.index ==> r in past.last && cache.index[r] == past.last[r])
  }

  /** With distinct slugs the invariant holds after any run of fetches, resolutions and losses. */
  lemma {:induction false} RunKeepsInv(u: Universe, ops: seq<Op>)
    requires ValidUniverse(u) && forall i :: 0 <= i < |ops| ==> HonestOp(u, ops[i])
    ensures CacheInv(u, Run(EMPTY, ops), PastAfter(EMPTY, ops, NO_PAST))
  {
    var cache, past := Run(EMPTY, ops), PastAfter(EMPTY, ops, NO_PAST);
    RunFollowsPast(u.content, EMPTY, NO_PAST, ops);
    RunIsNamed(u, EMPTY, NO_PAST, ops);
    forall d | d in u.digests && Slug(d) in cache.byDigest ensures cache.byDigest[Slug(d)] == u.content[d] {
      assert DigestKnown(u.content, past, Slug(d));
      assert past.digestWriter[Slug(d)] == d;
    }
    forall r | r in u.refs && Slug(r) in cache.byRef
      ensures r in past.last && ContentAt(cache, RefFile(Slug(r))) == LastContent(u.content, past, r)
    {
      DistinctFileIsRight(u, cache, past, r, RefFile(Slug(r)));
    }
  }

  /** With distinct slugs, after any run, a successful fetch leads to the fetched digest's content,
      whether stored or found by the unchanged-digest shortcut; a failed one changes nothing. */
  lemma {:induction false} FetchReturnsItsContent(u: Universe, ops: seq<Op>, reference: string, remote: Remote)
    requires ValidUniverse(u) && HonestOp(u, FetchOp(reference, remote))
    requires forall i :: 0 <= i < |ops| ==> HonestOp(u, ops[i])
    ensures var cache := Run(EMPTY, ops);
            var (next, result) := Fetch(cache, reference, remote);
            if result.Ok? then
              remote.Fetched? && remote.digest in u.content
              && ContentAt(next, result.value) == Some(u.content[remote.digest])
            else next == cache
  {
    var cache, before, op := Run(EMPTY, ops), PastAfter(EMPTY, ops, NO_PAST), FetchOp(reference, remote);
    if Fetches(cache, op) {
      var (next, result) := Fetch(cache, reference, remote);
      RunThenCall(u, ops, op);
      FetchLeads(cache, before, op);
      DistinctFileIsRight(u, next, Record(cache, op, before), reference, result.value);
    }
  }

  /** With distinct slugs, after any run, a resolution leads only to the content last fetched for the
      reference, this call's fetch included; it succeeds exactly when something is cached or, online, its
      fetch succeeds. */
  lemma {:induction false} ResolveReturnsLastFetched(
      u: Universe, ops: seq<Op>, reference: string, offline: bool, refresh: bool, remote: Remote)
    requires ValidUniverse(u) && HonestOp(u, ResolveOp(reference, offline, refresh, remote))
    requires forall i :: 0 <= i < |ops| ==> HonestOp(u, ops[i])
    ensures var cache := Run(EMPTY, ops);
            var op := ResolveOp(reference, offline, refresh, remote);
            var past := Record(cache, op, PastAfter(EMPTY, ops, NO_PAST));
            var (next, result) := ResolveRemote(cache, reference, offline, refresh, remote);
            && (offline ==> next == cache)
            && (result.Ok? <==> Resolves(cache, reference, offline, remote))
            && (result.Ok? ==>
                  && result.value.Some? && reference in past.last
                  && ContentAt(next, result.value.value) == LastContent(u.content, past, reference))
  {
    var cache, before := Run(EMPTY, ops), PastAfter(EMPTY, ops, NO_PAST);
    var op := ResolveOp(reference, offline, refresh, remote);
    var (next, result) := ResolveRemote(cache, reference, offline, refresh, remote);
    RunThenCall(u, ops, op);
    ResolvePath(u.content, cache, before, reference, offline, refresh, remote);
    if result.Ok? {
      DistinctFileIsRight(u, next, Record(cache, op, before), reference, result.value.value);
    }
  }

  // ----- names that collide

  lemma RunTwo(cache: Cache, a: Op, b: Op)
    ensures Run(cache, [a, b]) == Apply(Apply(cache, a), b)
  {
    var two, one := [a, b], [b];
    assert two[1..] == one && one[1..] == [];
    assert Run(cache, two) == Run(Apply(cache, a), one);
  }

  /** Three fetches under two colliding references: the last one succeeds by the unchanged-digest
      shortcut and returns the right content, yet leaves the reference file with the other's. */
  lemma ShortcutLeavesTheWrongFile(r1: string, r2: string, d1: string, d2: string, b1: Bytes, b2: Bytes)
    requires SchemeSupported(r1) && SchemeSupported(r2) && r1 != r2 && Slug(r1) == Slug(r2)
    requires Slug(d1) != Slug(d2) && b1 != b2
    ensures var two := Run(EMPTY, [FetchOp(r1, Fetched(d1, Some(b1))), FetchOp(r2, Fetched(d2, Some(b2)))]);
            var (three, third) := Fetch(two, r1, Fetched(d1, Some(b1)));
            && third.Ok? && ContentAt(three, third.value) == Some(b1)
            && Cached(three, r1) == Some(RefFile(Slug(r1))) && ContentAt(three, RefFile(Slug(r1))) == Some(b2)
  {
    RunTwo(EMPTY, FetchOp(r1, Fetched(d1, Some(b1))), FetchOp(r2, Fetched(d2, Some(b2))));
    var one := Store(EMPTY, r1, d1, b1);
    assert Apply(EMPTY, FetchOp(r1, Fetched(d1, Some(b1)))) == one;
    var two := Store(one, r2, d2, b2);
    assert Fetch(two, r1, Fetched(d1, Some(b1))) == (two, Ok(DigestFile(Slug(d1))));
  }

  /** Two references that differ only in separators share a file. */
  lemma SeparatorsCollide()
    ensures Slug("oci://a-b") == Slug("oci://a_b")
  {
    SlugRunsAreMappedPieces("oci://a-b");
    SlugRunsAreMappedPieces("oci://a_b");
    assert MapChars("oci://a-b", SlugChar) == MapChars("oci://a_b", SlugChar);
  }

  /** The file of a remote reference is never the index file: its first run is the scheme. */
  lemma RemoteFileIsNotTheIndex(reference: string)
    requires SchemeSupported(reference) && ParseLocalRef(reference).None?
    ensures Slug(reference) != "index"
  {
    if "file://" <= reference {
      ContainsAt(reference, 4, "://");
    }
    if "oci://" <= reference {
      SchemeFileIsNotTheIndex("oci", "oci://", reference);
    } else if "repo://" <= reference {
      SchemeFileIsNotTheIndex("repo", "repo://", reference);
    } else if "store://" <= reference {
      SchemeFileIsNotTheIndex("store", "store://", reference);
    }
  }

  lemma SchemeFileIsNotTheIndex(scheme: string, prefix: string, reference: string)
    requires scheme in ["oci", "repo", "store"] && scheme + ":" <= prefix <= reference
    ensures Slug(reference) != "index"
  {
    var rest := reference[|scheme| + 1..];
    assert reference == (scheme + ":") + rest;
    SlugStartsWithScheme(scheme, rest);
    RunsOfSlug(scheme + ":" + rest);
    IndexRuns();
  }

  lemma IndexRuns()
    ensures SlugRuns("index") == ["index"]
  {
    assert MapChars("index", SlugChar) == "index";
    PiecesOfWord("index", DASH);
    SlugRunsAreMappedPieces("index");
  }
}
