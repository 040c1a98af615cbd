/**
 The capability registry: offers declared by packs, grouped by capability in key order, each group
 sorted stably by (priority, stable id), with a first-match lookup beside a globally sorted view.
 */
module Registry {
  import opened Sequences
  import opened StableSort
  import opened Text
  import opened SecretNames

  datatype OfferScope = OfferScope(envs: seq<string>, tenants: seq<string>, teams: seq<string>)

  datatype ResolveScope = ResolveScope(env: Option<string>, tenant: Option<string>, team: Option<string>)

  datatype DeclaredOffer = DeclaredOffer(
    offerId: Option<string>, capId: string, version: string, componentRef: string, op: string,
    scope: Option<OfferScope>, priority: int, requiresSetup: bool, setupQaRef: Option<string>,
    appliesTo: Option<seq<string>>)

  datatype Offer = Offer(
    stableId: string, packId: string, packPath: string, capId: string, version: string,
    componentRef: string, op: string, priority: int, requiresSetup: bool, setupQaRef: Option<string>,
    scope: OfferScope, appliesToOps: seq<string>)

  datatype Extension = Unreadable | Absent | Offers(offers: seq<DeclaredOffer>)

  datatype Pack = Pack(path: string, packId: string, extension: Extension)

  // ----- the offers a pack index declares

  function Digit(n: nat): char
    requires n < 10
  {
    "0123456789"[n]
  }

  function Decimal(n: nat): string {
    if n < 10 then [Digit(n)] else Decimal(n / 10) + [Digit(n % 10)]
  }

  function StableId(packId: string, d: DeclaredOffer, idx: nat): string {
    if d.offerId.Some? && !IsBlank(d.offerId.value) then d.offerId.value
    else packId + "::" + d.capId + "::" + d.componentRef + "::" + d.op + "::" + Decimal(idx)
  }

  function OfferOf(pack: Pack, d: DeclaredOffer, idx: nat): Offer {
    Offer(
      StableId(pack.packId, d, idx), pack.packId, pack.path, d.capId, d.version, d.componentRef, d.op,
      d.priority, d.requiresSetup, d.setupQaRef,
      if d.scope.Some? then d.scope.value else OfferScope([], [], []),
      if d.appliesTo.Some? then d.appliesTo.value else [])
  }

  /** The first `n` offers of a pack. */
  function PackOffers(pack: Pack, n: nat): seq<Offer>
    requires pack.extension.Offers? ==> n <= |pack.extension.offers|
  {
    if !pack.extension.Offers? || n == 0 then []
    else PackOffers(pack, n - 1) + [OfferOf(pack, pack.extension.offers[n - 1], n - 1)]
  }

  function AllPackOffers(pack: Pack): seq<Offer> {
    PackOffers(pack, if pack.extension.Offers? then |pack.extension.offers| else 0)
  }

  /** Every offer of every pack, in the order of the index. */
  function Declared(packs: seq<Pack>): seq<Offer> { FlatMap(packs, AllPackOffers) }

  lemma DeclaredStep(packs: seq<Pack>, i: nat)
    requires i < |packs|
    ensures Declared(packs[..i + 1]) == Declared(packs[..i]) + AllPackOffers(packs[i])
  {
    assert packs[..i + 1] == packs[..i] + [packs[i]];
    var one := [packs[i]];
    FlatMapConcat(packs[..i], one, AllPackOffers);
    assert one[1..] == [];
    assert FlatMap(one, AllPackOffers) == AllPackOffers(packs[i]) + [] == AllPackOffers(packs[i]);
  }

  predicate Readable(packs: seq<Pack>) {
    forall i :: 0 <= i < |packs| ==> !packs[i].extension.Unreadable?
  }

  // ----- the ordered map from capability to offers

  datatype Group = Group(capId: string, offers: seq<Offer>)

  /** Append an offer to its capability's group, creating the group in key order. */
  function Push(groups: seq<Group>, o: Offer): seq<Group> {
    if groups == [] then [Group(o.capId, [o])]
    else if groups[0].capId == o.capId then [Group(o.capId, groups[0].offers + [o])] + groups[1..]
    else if StrLe(o.capId, groups[0].capId) then [Group(o.capId, [o])] + groups
    else [groups[0]] + Push(groups[1..], o)
  }

  function PushAll(groups: seq<Group>, offers: seq<Offer>): seq<Group> {
    if offers == [] then groups
    else Push(PushAll(groups, offers[..|offers| - 1]), offers[|offers| - 1])
  }

  function Lookup(groups: seq<Group>, capId: string): seq<Offer> {
    if groups == [] then []
    else if groups[0].capId == capId then groups[0].offers
    else Lookup(groups[1..], capId)
  }

  function Flatten(groups: seq<Group>): seq<Offer> {
    if groups == [] then [] else groups[0].offers + Flatten(groups[1..])
  }

  function OfferOrder(): (Offer, Offer) -> bool {
    (a: Offer, b: Offer) => a.priority < b.priority || (a.priority == b.priority && StrLe(a.stableId, b.stableId))
  }

  function SortGroups(groups: seq<Group>): (r: seq<Group>)
    ensures |r| == |groups|
  {
    seq(|groups|, i requires 0 <= i < |groups| => Group(groups[i].capId, Sort(groups[i].offers, OfferOrder())))
  }

  /** The registry of a readable pack index. */
  function Registered(packs: seq<Pack>): seq<Group> { SortGroups(PushAll([], Declared(packs))) }

  // ----- matching

  predicate ValueMatches(values: seq<string>, current: Option<string>) {
    values == [] || (current.Some? && current.value in values)
  }

  predicate ScopeMatches(o: OfferScope, scope: ResolveScope) {
    ValueMatches(o.envs, scope.env) && ValueMatches(o.tenants, scope.tenant) && ValueMatches(o.teams, scope.team)
  }

  predicate OpMatches(o: Offer, requestedOp: Option<string>) {
    requestedOp.None? || o.appliesToOps == [] || requestedOp.value in o.appliesToOps
  }

  predicate VersionMatches(version: string, minVersion: Option<string>) {
    minVersion.Some? ==> version == minVersion.value
  }

  function InScope(scope: ResolveScope): Offer -> bool { (o: Offer) => ScopeMatches(o.scope, scope) }

  function HasCap(capId: string): Offer -> bool { (o: Offer) => o.capId == capId }

  function NeedsSetup(): Offer -> bool { (o: Offer) => o.requiresSetup }

  function Suits(minVersion: Option<string>, scope: ResolveScope, op: Option<string>): Offer -> bool {
    (o: Offer) => VersionMatches(o.version, minVersion) && ScopeMatches(o.scope, scope) && OpMatches(o, op)
  }

  function HookApplies(opName: string): Offer -> bool { (o: Offer) => OpMatches(o, Some(opName)) }

  function Both(p: Offer -> bool, q: Offer -> bool): Offer -> bool { (o: Offer) => p(o) && q(o) }

  datatype Binding = Binding(
    capId: string, stableId: string, packId: string, packPath: string, componentRef: string, op: string,
    version: string, requiresSetup: bool, setupQaRef: Option<string>)

  function BindingOf(o: Offer): Binding {
    Binding(o.capId, o.stableId, o.packId, o.packPath, o.componentRef, o.op, o.version, o.requiresSetup, o.setupQaRef)
  }

  function SomeBinding(): Offer -> Option<Binding> { (o: Offer) => Some(BindingOf(o)) }

  function OffersInScope(groups: seq<Group>, scope: ResolveScope): seq<Offer> {
    Sort(Filter(Flatten(groups), InScope(scope)), OfferOrder())
  }

  function OffersRequiringSetup(groups: seq<Group>, scope: ResolveScope): seq<Offer> {
    Sort(Filter(Flatten(groups), Both(NeedsSetup(), InScope(scope))), OfferOrder())
  }

  function Resolve(
      groups: seq<Group>, capId: string, minVersion: Option<string>, scope: ResolveScope, op: Option<string>)
    : Option<Offer>
  {
    First(Lookup(groups, capId), Suits(minVersion, scope, op))
  }

  datatype HookStage = Pre | Post

  function HookCap(stage: HookStage): string {
    if stage.Pre? then "greentic.cap.op_hook.pre" else "greentic.cap.op_hook.post"
  }

  function HookChain(groups: seq<Group>, stage: HookStage, opName: string): seq<Offer> {
    Filter(Lookup(groups, HookCap(stage)), HookApplies(opName))
  }

  // ----- the implementation

  class CapabilityRegistry {
    var byCapId: seq<Group>

    constructor (groups: seq<Group>)
      ensures byCapId == groups
    {
      byCapId := groups;
    }

    /** None when some pack's extension cannot be read. */
    static method BuildFromPackIndex(packs: seq<Pack>) returns (registry: Option<CapabilityRegistry>)
      ensures registry.Some? <==> Readable(packs)
      ensures registry.Some? ==> fresh(registry.value) && registry.value.byCapId == Registered(packs)
    {
      var byCapId: seq<Group> := [];
      ghost var before: seq<Offer> := [];
      assert Declared(packs[..0]) == [];
      for i := 0 to |packs|
        invariant forall k :: 0 <= k < i ==> !packs[k].extension.Unreadable?
        invariant before == Declared(packs[..i])
        invariant byCapId == PushAll([], before)
      {
        if packs[i].extension.Unreadable? {
          return None;
        }
        byCapId := PushPack(byCapId, packs[i], before);
        DeclaredStep(packs, i);
        before := before + AllPackOffers(packs[i]);
      }
      assert packs[..|packs|] == packs;
      var built := new CapabilityRegistry(SortGroups(byCapId));
      return Some(built);
    }

    /** Push every offer of a pack; `before` are the offers pushed so far. */
    static method PushPack(groups: seq<Group>, pack: Pack, ghost before: seq<Offer>) returns (byCapId: seq<Group>)
      requires groups == PushAll([], before)
      ensures byCapId == PushAll([], before + AllPackOffers(pack))
    {
      byCapId := groups;
      assert before + [] == before;
      if pack.extension.Offers? {
        for idx := 0 to |pack.extension.offers|
          invariant byCapId == PushAll([], before + PackOffers(pack, idx))
        {
          var offer := OfferOf(pack, pack.extension.offers[idx], idx);
          ghost var pushed := before + PackOffers(pack, idx);
          assert before + PackOffers(pack, idx + 1) == pushed + [offer];
          PushAllAppend([], pushed, offer);
          byCapId := Push(byCapId, offer);
        }
      }
    }

    method SelectInScope(scope: ResolveScope) returns (selected: seq<Offer>)
      ensures selected == OffersInScope(byCapId, scope)
    {
      selected := [];
      assert Flatten(byCapId[..0]) == [];
      for i := 0 to |byCapId|
        invariant selected == Filter(Flatten(byCapId[..i]), InScope(scope))
      {
        var offers := byCapId[i].offers;
        FlattenPrefixStep(byCapId, i);
        ghost var before := Flatten(byCapId[..i]);
        FilterConcat(before, offers, InScope(scope));
        ghost var kept := selected;
        for k := 0 to |offers|
          invariant selected == kept + Filter(offers[..k], InScope(scope))
        {
          FilterPrefixStep(offers, k, InScope(scope));
          if ScopeMatches(offers[k].scope, scope) {
            selected := selected + [offers[k]];
          }
        }
        assert offers[..|offers|] == offers;
      }
      assert byCapId[..|byCapId|] == byCapId;
      selected := Sort(selected, OfferOrder());
    }

    method SelectRequiringSetup(scope: ResolveScope) returns (selected: seq<Offer>)
      ensures selected == OffersRequiringSetup(byCapId, scope)
    {
      var wanted := Both(NeedsSetup(), InScope(scope));
      selected := [];
      assert Flatten(byCapId[..0]) == [];
      for i := 0 to |byCapId|
        invariant selected == Filter(Flatten(byCapId[..i]), wanted)
      {
        var offers := byCapId[i].offers;
        FlattenPrefixStep(byCapId, i);
        FilterConcat(Flatten(byCapId[..i]), offers, wanted);
        ghost var kept := selected;
        for k := 0 to |offers|
          invariant selected == kept + Filter(offers[..k], wanted)
        {
          FilterPrefixStep(offers, k, wanted);
          if !offers[k].requiresSetup {
            continue;
          }
          if !ScopeMatches(offers[k].scope, scope) {
            continue;
          }
          selected := selected + [offers[k]];
        }
        assert offers[..|offers|] == offers;
      }
      assert byCapId[..|byCapId|] == byCapId;
      selected := Sort(selected, OfferOrder());
    }

    function ResolveForOp(
        capId: string, minVersion: Option<string>, scope: ResolveScope, op: Option<string>): Option<Binding>
      reads this
    {
      var selected := Resolve(byCapId, capId, minVersion, scope, op);
      if selected.None? then None else Some(BindingOf(selected.value))
    }

    function ResolveHookChain(stage: HookStage, opName: string): seq<Binding>
      reads this
    {
      Collect(HookChain(byCapId, stage, opName), SomeBinding())
    }
  }

  lemma PushAllAppend(groups: seq<Group>, offers: seq<Offer>, o: Offer)
    ensures PushAll(groups, offers + [o]) == Push(PushAll(groups, offers), o)
  {
    assert (offers + [o])[..|offers|] == offers;
  }

  lemma {:induction false} FlattenPrefixStep(groups: seq<Group>, i: nat)
    requires i < |groups|
    ensures Flatten(groups[..i + 1]) == Flatten(groups[..i]) + groups[i].offers
  {
    if i == 0 {
      assert groups[..1][1..] == [] && groups[..0] == [];
      assert Flatten(groups[..1]) == groups[0].offers + [];
    } else {
      FlattenPrefixStep(groups[1..], i - 1);
      assert groups[..i + 1][1..] == groups[1..][..i] && groups[..i][1..] == groups[1..][..i - 1];
      var h, x, y := groups[0].offers, Flatten(groups[1..][..i - 1]), groups[i].offers;
      assert h + (x + y) == (h + x) + y;
    }
  }
}
