/** Persisting setup answers as secrets, with aliases for a pack's declared secret requirements. */
module SecretSeeding {
  import opened Sequences
  import opened Text
  import opened SecretNames
  import opened Secrets

  /** An answer: a JSON string, or the compact serialization of any other JSON value. */
  datatype Answer = Text(text: string) | Json(serialized: string)

  datatype Field = Field(key: string, value: Answer)

  function TextOf(a: Answer): string { if a.Text? then a.text else a.serialized }

  predicate IsBlankAnswer(a: Answer) { TextOf(a) == "" || TextOf(a) == "null" }

  predicate EndsWith(s: string, suffix: string) {
    |suffix| <= |s| && s[|s| - |suffix|..] == suffix
  }

  function DirectEntry(id: Identity, provider: string): Field -> Option<Entry> {
    (f: Field) =>
      if IsBlankAnswer(f.value) then None else Some(Entry(SecretUri(id, provider, f.key), TextOf(f.value)))
  }

  function SavedKey(): Field -> Option<string> {
    (f: Field) => if IsBlankAnswer(f.value) then None else Some(f.key)
  }

  function LastPart(uri: string): string {
    var parts := Split(uri, '/');
    parts[|parts| - 1]
  }

  function KeyNames(entries: seq<Entry>): set<string> {
    if entries == [] then {} else {LastPart(entries[0].uri)} + KeyNames(entries[1..])
  }

  /** The text of a field whose canonical key ends the canonical requirement name. */
  function SuffixText(name: string): Field -> Option<string> {
    (f: Field) =>
      if EndsWith(name, CanonicalName(f.key)) && !IsBlankAnswer(f.value) then Some(TextOf(f.value)) else None
  }

  /** The alias of a requirement, unless a direct answer already has its name or no answer fits it. */
  function Alias(id: Identity, provider: string, config: seq<Field>, existing: set<string>): string -> Option<Entry> {
    (requirement: string) =>
      var name := CanonicalName(requirement);
      if name in existing then None
      else
        var text := FindMap(config, SuffixText(name));
        if text.None? then None else Some(Entry(SecretUri(id, provider, name), text.value))
  }

  function DirectEntries(id: Identity, provider: string, config: seq<Field>): seq<Entry> {
    Collect(config, DirectEntry(id, provider))
  }

  function AliasEntries(id: Identity, provider: string, config: seq<Field>, requirements: seq<string>): seq<Entry> {
    Collect(requirements, Alias(id, provider, config, KeyNames(DirectEntries(id, provider, config))))
  }

  /** Everything that is seeded; `requirements` is None when no list can be read. */
  function SeedEntries(id: Identity, provider: string, config: seq<Field>, requirements: Option<seq<string>>)
    : seq<Entry>
  {
    DirectEntries(id, provider, config)
    + if requirements.None? then [] else AliasEntries(id, provider, config, requirements.value)
  }

  datatype PersistResult = Saved(keys: seq<string>) | SeedingFailed

  class AnswerStore {
    const id: Identity
    const faults: Faults
    var store: Store

    constructor (id: Identity, faults: Faults, store: Store)
      ensures this.id == id && this.faults == faults && this.store == store
    {
      this.id, this.faults, this.store := id, faults, store;
    }

    method PersistAllConfigAsSecrets(provider: string, config: Option<seq<Field>>, requirements: Option<seq<string>>)
      returns (result: PersistResult)
      modifies this`store
      ensures config.None? ==> store == old(store) && result == Saved([])
      ensures config.Some? ==>
                var entries := SeedEntries(id, provider, config.value, requirements);
                && store == ApplySeed(old(store), entries, faults)
                && (result.Saved? <==> AllWritten(entries, faults))
                && (result.Saved? && entries != [] ==> result.keys == Collect(config.value, SavedKey()))
    {
      if config.None? || config.value == [] {
        if requirements.Some? {
          CollectNothing(requirements.value, Alias(id, provider, [], {}));
        }
        return Saved([]);
      }
      var fields := config.value;
      var entries, savedKeys := CollectAnswers(provider, fields);
      if requirements.Some? {
        entries := SeedSecretRequirementAliases(entries, fields, provider, requirements.value);
      }
      assert entries == SeedEntries(id, provider, fields, requirements);
      if entries == [] {
        return Saved([]);
      }
      store := ApplySeed(store, entries, faults);
      if !AllWritten(entries, faults) {
        return SeedingFailed;
      }
      return Saved(savedKeys);
    }

    /** The loop over the answers. */
    method CollectAnswers(provider: string, fields: seq<Field>) returns (entries: seq<Entry>, savedKeys: seq<string>)
      ensures entries == DirectEntries(id, provider, fields)
      ensures savedKeys == Collect(fields, SavedKey())
    {
      entries, savedKeys := [], [];
      ghost var direct, saved := DirectEntry(id, provider), SavedKey();
      for i := 0 to |fields|
        invariant entries == Collect(fields[..i], direct)
        invariant savedKeys == Collect(fields[..i], saved)
      {
        var f := fields[i];
        CollectPrefixStep(fields, i, direct);
        CollectPrefixStep(fields, i, saved);
        var text := TextOf(f.value);
        if text == "" || text == "null" {
          continue;
        }
        entries := entries + [Entry(SecretUri(id, provider, f.key), text)];
        savedKeys := savedKeys + [f.key];
      }
      assert fields[..|fields|] == fields;
    }

    /** The loop over the requirements; `alias` is its body. */
    static method AppendAliases(direct: seq<Entry>, requirements: seq<string>, alias: string -> Option<Entry>)
      returns (entries: seq<Entry>)
      ensures entries == direct + Collect(requirements, alias)
    {
      entries := direct;
      for i := 0 to |requirements|
        invariant entries == direct + Collect(requirements[..i], alias)
      {
        CollectPrefixStep(requirements, i, alias);
        var entry := alias(requirements[i]);
        if entry.Some? {
          entries := entries + [entry.value];
        }
      }
      assert requirements[..|requirements|] == requirements;
    }

    method SeedSecretRequirementAliases(
        direct: seq<Entry>, config: seq<Field>, provider: string, requirements: seq<string>)
      returns (entries: seq<Entry>)
      ensures entries == direct + Collect(requirements, Alias(id, provider, config, KeyNames(direct)))
    {
      entries := AppendAliases(direct, requirements, Alias(id, provider, config, KeyNames(direct)));
    }
  }

  lemma {:induction false} CollectNothing(s: seq<string>, f: string -> Option<Entry>)
    requires forall x :: f(x).None?
    ensures Collect(s, f) == []
  {
    if s != [] {
      CollectNothing(s[1..], f);
    }
  }

  // ----- which requirements are seeded

  lemma LastPartOfUri(id: Identity, provider: string, key: string)
    ensures LastPart(SecretUri(id, provider, key)) == CanonicalName(key)
  {
    var front := [id.env, id.tenant, CanonicalTeam(id.team), ProviderSegment(provider)];
    var k := CanonicalName(key);
    assert UriParts(id.env, id.tenant, CanonicalTeam(id.team), ProviderSegment(provider), key) == front + [k];
    JoinAppend(front, k, '/');
    var before := SCHEME + Join(front, '/');
    assert SecretUri(id, provider, key) == before + "/" + k;
    SplitAtSeparator(before, '/', k);
    CanonicalNameShape(key);
    assert '/' !in k;
    SplitOfWord(k, '/');
  }

  /** A non-blank answer whose canonical key ends the requirement's canonical name. */
  ghost predicate Answers(f: Field, requirement: string) {
    !IsBlankAnswer(f.value) && EndsWith(CanonicalName(requirement), CanonicalName(f.key))
  }

  ghost predicate Answered(config: seq<Field>, requirement: string) {
    exists f :: f in config && Answers(f, requirement)
  }

  lemma AliasUri(id: Identity, provider: string, requirement: string)
    ensures SecretUri(id, provider, CanonicalName(requirement)) == SecretUri(id, provider, requirement)
  {
    CanonicalNameIdempotent(requirement);
  }

  // ----- what the store holds afterwards

  function TextAt(store: Store, uri: string): Option<string> {
    if uri in store then Some(store[uri]) else None
  }

  /** The text of the last entry for a URI. */
  function LastText(entries: seq<Entry>, uri: string): Option<string> {
    if entries == [] then None
    else
      var later := LastText(entries[1..], uri);
      if later.Some? then later else if entries[0].uri == uri then Some(entries[0].text) else None
  }

  lemma {:induction false} SeededTextAt(store: Store, entries: seq<Entry>, faults: Faults, uri: string)
    ensures TextAt(ApplySeed(store, entries, faults), uri)
         == if uri in faults.unwritable || LastText(entries, uri).None? then TextAt(store, uri)
            else LastText(entries, uri)
    decreases |entries|
  {
    if entries != [] {
      var e := entries[0];
      SeededTextAt(if e.uri in faults.unwritable then store else store[e.uri := e.text], entries[1..], faults, uri);
    }
  }

  lemma {:induction false} LastTextConcat(a: seq<Entry>, b: seq<Entry>, uri: string)
    ensures LastText(a + b, uri) == if LastText(b, uri).Some? then LastText(b, uri) else LastText(a, uri)
  {
    if a == [] {
      assert a + b == b;
    } else {
      LastTextConcat(a[1..], b, uri);
      assert (a + b)[1..] == a[1..] + b;
    }
  }

  /** The last non-blank answer whose canonical key is `name`. */
  function LastDirect(config: seq<Field>, name: string): Option<string> {
    if config == [] then None
    else
      var f, later := config[0], LastDirect(config[1..], name);
      if later.Some? then later
      else if !IsBlankAnswer(f.value) && CanonicalName(f.key) == name then Some(TextOf(f.value)) else None
  }

  lemma {:induction false} DirectText(id: Identity, provider: string, config: seq<Field>, key: string)
    ensures LastText(DirectEntries(id, provider, config), SecretUri(id, provider, key))
         == LastDirect(config, CanonicalName(key))
    ensures LastDirect(config, CanonicalName(key)).Some? <==>
            CanonicalName(key) in KeyNames(DirectEntries(id, provider, config))
  {
    if config != [] {
      var f := config[0];
      DirectText(id, provider, config[1..], key);
      UrisCollideIff(id, provider, f.key, key);
      LastPartOfUri(id, provider, f.key);
      var rest := DirectEntries(id, provider, config[1..]);
      if !IsBlankAnswer(f.value) {
        var e := Entry(SecretUri(id, provider, f.key), TextOf(f.value));
        assert DirectEntries(id, provider, config) == [e] + rest;
        assert DirectEntries(id, provider, config)[1..] == rest;
      }
    }
  }

  /** Some requirement has this canonical name. */
  predicate Declares(requirements: seq<string>, name: string) {
    requirements != [] && (CanonicalName(requirements[0]) == name || Declares(requirements[1..], name))
  }

  lemma {:induction false} DeclaresMeaning(requirements: seq<string>, name: string)
    ensures Declares(requirements, name) <==> exists r :: r in requirements && CanonicalName(r) == name
  {
    if requirements != [] {
      DeclaresMeaning(requirements[1..], name);
      assert requirements[0] in requirements;
    }
  }

  lemma {:induction false} AliasText(
      id: Identity, provider: string, config: seq<Field>, existing: set<string>, requirements: seq<string>, key: string)
    ensures LastText(Collect(requirements, Alias(id, provider, config, existing)), SecretUri(id, provider, key))
         == var name := CanonicalName(key);
            if name in existing || !Declares(requirements, name) then None else FindMap(config, SuffixText(name))
  {
    if requirements != [] {
      var alias, r := Alias(id, provider, config, existing), requirements[0];
      AliasText(id, provider, config, existing, requirements[1..], key);
      AliasUri(id, provider, r);
      UrisCollideIff(id, provider, r, key);
      var rest := Collect(requirements[1..], alias);
      if alias(r).Some? {
        assert Collect(requirements, alias)[1..] == rest;
      }
    }
  }

  /** The answer a key is seeded with: the last direct answer with its canonical name, otherwise, when
      the key is a declared requirement, the first answer whose canonical key ends that name. */
  function SeededText(config: seq<Field>, requirements: Option<seq<string>>, key: string): Option<string> {
    var name := CanonicalName(key);
    var direct := LastDirect(config, name);
    if direct.Some? then direct
    else if requirements.Some? && Declares(requirements.value, name) then FindMap(config, SuffixText(name))
    else None
  }

  /** Over direct entries and aliases together, the last entry for a key's URI carries that answer. */
  lemma SeedEntriesText(
      id: Identity, provider: string, config: seq<Field>, requirements: Option<seq<string>>, key: string)
    ensures LastText(SeedEntries(id, provider, config, requirements), SecretUri(id, provider, key))
         == SeededText(config, requirements, key)
  {
    var uri := SecretUri(id, provider, key);
    var direct := DirectEntries(id, provider, config);
    DirectText(id, provider, config, key);
    if requirements.Some? {
      AliasText(id, provider, config, KeyNames(direct), requirements.value, key);
      LastTextConcat(direct, AliasEntries(id, provider, config, requirements.value), uri);
    } else {
      assert direct + [] == direct;
    }
  }

  /** After answers are persisted, the store holds at every key's URI the answer the key is seeded
      with, and what it held before where there is none or the URI cannot be written. */
  lemma PersistedText(
      store: Store, faults: Faults, id: Identity, provider: string, config: seq<Field>,
      requirements: Option<seq<string>>, key: string)
    ensures var uri := SecretUri(id, provider, key);
            var next := ApplySeed(store, SeedEntries(id, provider, config, requirements), faults);
            if uri in faults.unwritable || SeededText(config, requirements, key).None?
            then TextAt(next, uri) == TextAt(store, uri)
            else TextAt(next, uri) == SeededText(config, requirements, key)
  {
    SeedEntriesText(id, provider, config, requirements, key);
    SeededTextAt(store, SeedEntries(id, provider, config, requirements), faults, SecretUri(id, provider, key));
  }

  /** A declared requirement is seeded exactly when it is answered. */
  lemma DeclaredSeededIff(config: seq<Field>, requirements: seq<string>, key: string)
    requires Declares(requirements, CanonicalName(key))
    ensures SeededText(config, Some(requirements), key).Some? <==> Answered(config, key)
  {
    var name := CanonicalName(key);
    LastDirectMeaning(config, name);
    FindMapMeaning(config, SuffixText(name));
    if f :| f in config && Answers(f, key) {
      assert SuffixText(name)(f).Some?;
    }
    if FindMap(config, SuffixText(name)).Some? {
      var f :| f in config && SuffixText(name)(f) == FindMap(config, SuffixText(name));
      assert Answers(f, key);
    }
    if f :| f in config && !IsBlankAnswer(f.value) && CanonicalName(f.key) == name {
      assert Answers(f, key);
    }
  }

  lemma {:induction false} LastDirectMeaning(config: seq<Field>, name: string)
    ensures LastDirect(config, name).Some? <==>
            exists f :: f in config && !IsBlankAnswer(f.value) && CanonicalName(f.key) == name
  {
    if config != [] {
      LastDirectMeaning(config[1..], name);
      assert config[0] in config;
    }
  }

  lemma {:induction false} LastTextIff(entries: seq<Entry>, uri: string)
    ensures LastText(entries, uri).Some? <==> exists e :: e in entries && e.uri == uri
  {
    if entries != [] {
      LastTextIff(entries[1..], uri);
      assert entries[0] in entries;
    }
  }

  /** The seeded entries contain a requirement's URI exactly when some non-blank answer's canonical
      key ends the requirement's canonical name. */
  lemma RequirementSeededIff(
      id: Identity, provider: string, config: seq<Field>, requirements: seq<string>, requirement: string)
    requires requirement in requirements
    ensures (exists e :: e in SeedEntries(id, provider, config, Some(requirements))
                         && e.uri == SecretUri(id, provider, requirement))
       <==> Answered(config, requirement)
  {
    LastTextIff(SeedEntries(id, provider, config, Some(requirements)), SecretUri(id, provider, requirement));
    SeedEntriesText(id, provider, config, Some(requirements), requirement);
    DeclaresMeaning(requirements, CanonicalName(requirement));
    DeclaredSeededIff(config, requirements, requirement);
  }

  /** An alias never shares a URI with a direct answer. */
  lemma AliasesAreNotDirect(id: Identity, provider: string, config: seq<Field>, requirements: seq<string>)
    ensures forall d, a ::
              d in DirectEntries(id, provider, config) && a in AliasEntries(id, provider, config, requirements) ==>
              d.uri != a.uri
  {
    var direct := DirectEntries(id, provider, config);
    forall d | d in direct ensures LastText(AliasEntries(id, provider, config, requirements), d.uri).None? {
      CollectMembers(config, DirectEntry(id, provider), d);
      var f :| f in config && DirectEntry(id, provider)(f) == Some(d);
      DirectText(id, provider, config, f.key);
      LastTextIff(direct, d.uri);
      AliasText(id, provider, config, KeyNames(direct), requirements, f.key);
    }
    forall d | d in direct {
      LastTextIff(AliasEntries(id, provider, config, requirements), d.uri);
    }
  }

  /** After answers are persisted the gate, which loads its keys separately, passes exactly when every
      key can be read and is seeded or was already stored; without a provider id persisting does not
      matter to it. */
  lemma GatePassesAfterPersistIff(
      store: Store, faults: Faults, id: Identity, provider: string, config: seq<Field>,
      requirements: Option<seq<string>>, keys: seq<string>)
    ensures var next := ApplySeed(store, SeedEntries(id, provider, config, requirements), faults);
            CheckResult(next, faults, id, provider, keys).None? <==>
            if provider == "" then CheckResult(store, faults, id, provider, keys).None?
            else forall i :: 0 <= i < |keys| ==> Resolvable(store, faults, id, provider, config, requirements, keys[i])
  {
    var entries := SeedEntries(id, provider, config, requirements);
    var next := ApplySeed(store, entries, faults);
    CheckPassesIff(store, faults, id, provider, keys);
    CheckPassesIff(next, faults, id, provider, keys);
    forall i | 0 <= i < |keys|
      ensures Found(next, faults, CandidateUri(id, provider, keys[i])) <==>
              if provider == "" then Found(store, faults, CandidateUri(id, provider, keys[i]))
              else Resolvable(store, faults, id, provider, config, requirements, keys[i])
    {
      if provider == "" {
        NeverSeeded(store, faults, id, config, requirements, keys[i]);
      } else {
        PersistedText(store, faults, id, provider, config, requirements, keys[i]);
        assert CandidateUri(id, provider, keys[i]) == SecretUri(id, provider, keys[i]);
      }
    }
  }

  /** The key's URI can be read, and is seeded and writable, or was stored before. */
  predicate Resolvable(
      store: Store, faults: Faults, id: Identity, provider: string, config: seq<Field>,
      requirements: Option<seq<string>>, key: string)
  {
    var uri := SecretUri(id, provider, key);
    uri !in faults.unreadable
    && (uri in store || (uri !in faults.unwritable && SeededText(config, requirements, key).Some?))
  }

  lemma EntryKey(
      id: Identity, provider: string, config: seq<Field>, requirements: Option<seq<string>>, e: Entry)
    returns (key: string)
    requires e in SeedEntries(id, provider, config, requirements)
    ensures e.uri == SecretUri(id, provider, key)
  {
    if e in DirectEntries(id, provider, config) {
      CollectMembers(config, DirectEntry(id, provider), e);
      var f :| f in config && DirectEntry(id, provider)(f) == Some(e);
      key := f.key;
    } else {
      var alias := Alias(id, provider, config, KeyNames(DirectEntries(id, provider, config)));
      CollectMembers(requirements.value, alias, e);
      var r :| r in requirements.value && alias(r) == Some(e);
      key := CanonicalName(r);
    }
  }

  /** Without a provider id no entry has a URI the gate looks at. */
  lemma NeverSeeded(
      store: Store, faults: Faults, id: Identity, config: seq<Field>, requirements: Option<seq<string>>, key: string)
    ensures var next := ApplySeed(store, SeedEntries(id, "", config, requirements), faults);
            Found(next, faults, CandidateUri(id, "", key)) <==> Found(store, faults, CandidateUri(id, "", key))
  {
    var uri := CandidateUri(id, "", key);
    var entries := SeedEntries(id, "", config, requirements);
    forall e | e in entries ensures e.uri != uri {
      var other := EntryKey(id, "", config, requirements, e);
      EmptyProviderNeverFound(id, key, other);
    }
    LastTextIff(entries, uri);
    SeededTextAt(store, entries, faults, uri);
  }
}
