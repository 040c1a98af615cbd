/** What the capability registry guarantees about the offers that were declared. */
module RegistryProperties {
  import opened Sequences
  import opened StableSort
  import opened Text
  import opened SecretNames
  import opened Registry

  // ----- the groups

  /** Keys strictly ascend and every group holds only offers of its key. */
  ghost predicate Ordered(groups: seq<Group>) {
    && (forall i, j :: 0 <= i < j < |groups| ==> KeyBelow(groups[i].capId, groups[j].capId))
    && (forall i :: 0 <= i < |groups| ==> AllHaveCap(groups[i].offers, groups[i].capId))
  }

  ghost predicate KeyBelow(a: string, b: string) { StrLe(a, b) && a != b }

  ghost predicate AllHaveCap(offers: seq<Offer>, capId: string) {
    forall k :: 0 <= k < |offers| ==> offers[k].capId == capId
  }

  ghost predicate AllAbove(groups: seq<Group>, capId: string) {
    forall i :: 0 <= i < |groups| ==> KeyBelow(capId, groups[i].capId)
  }

  lemma KeyBelowTransitive(a: string, b: string, c: string)
    requires StrLe(a, b) && KeyBelow(b, c)
    ensures KeyBelow(a, c)
  {
    StrLeTransitive(a, b, c);
    if a == c {
      StrLeAntisymmetric(b, c);
    }
  }

  lemma {:induction false} PushKeepsOrdered(groups: seq<Group>, o: Offer)
    requires Ordered(groups)
    ensures Ordered(Push(groups, o))
    ensures forall c :: AllAbove(groups, c) && KeyBelow(c, o.capId) ==> AllAbove(Push(groups, o), c)
  {
    if groups == [] || groups[0].capId == o.capId {
    } else if StrLe(o.capId, groups[0].capId) {
      forall i | 0 <= i < |groups| ensures KeyBelow(o.capId, groups[i].capId) {
        if i > 0 {
          KeyBelowTransitive(o.capId, groups[0].capId, groups[i].capId);
        }
      }
    } else {
      StrLeTotal(o.capId, groups[0].capId);
      PushKeepsOrdered(groups[1..], o);
      assert AllAbove(groups[1..], groups[0].capId);
      assert AllAbove(Push(groups[1..], o), groups[0].capId);
    }
  }

  lemma {:induction false} PushLookup(groups: seq<Group>, o: Offer, c: string)
    requires Ordered(groups)
    ensures Lookup(Push(groups, o), c) == Lookup(groups, c) + if c == o.capId then [o] else []
  {
    if groups == [] || groups[0].capId == o.capId {
    } else if StrLe(o.capId, groups[0].capId) {
      if c == o.capId {
        forall i | 0 <= i < |groups| ensures KeyBelow(c, groups[i].capId) {
          if i > 0 {
            KeyBelowTransitive(o.capId, groups[0].capId, groups[i].capId);
          }
        }
        LookupAbove(groups, c);
      }
    } else {
      PushLookup(groups[1..], o, c);
    }
  }

  lemma {:induction false} LookupAbove(groups: seq<Group>, c: string)
    requires AllAbove(groups, c)
    ensures Lookup(groups, c) == []
  {
    if groups != [] {
      assert KeyBelow(c, groups[0].capId);
      LookupAbove(groups[1..], c);
    }
  }

  lemma {:induction false} PushAllGroups(offers: seq<Offer>, c: string)
    ensures Ordered(PushAll([], offers))
    ensures Lookup(PushAll([], offers), c) == Filter(offers, HasCap(c))
  {
    if offers != [] {
      var front, o := offers[..|offers| - 1], offers[|offers| - 1];
      PushAllGroups(front, c);
      PushKeepsOrdered(PushAll([], front), o);
      PushLookup(PushAll([], front), o, c);
      assert offers == front + [o];
      FilterAppend(front, o, HasCap(c));
    }
  }

  lemma {:induction false} SortGroupsLookup(groups: seq<Group>, c: string)
    ensures Lookup(SortGroups(groups), c) == Sort(Lookup(groups, c), OfferOrder())
  {
    if groups != [] {
      SortGroupsLookup(groups[1..], c);
      assert SortGroups(groups)[1..] == SortGroups(groups[1..]);
    }
  }

  lemma SortGroupsOrdered(groups: seq<Group>)
    requires Ordered(groups)
    ensures Ordered(SortGroups(groups))
  {
    var sorted := SortGroups(groups);
    forall i | 0 <= i < |sorted| ensures AllHaveCap(sorted[i].offers, sorted[i].capId) {
      SortKeepsElements(groups[i].offers, OfferOrder());
      forall k | 0 <= k < |sorted[i].offers| ensures sorted[i].offers[k].capId == sorted[i].capId {
        assert sorted[i].offers[k] in sorted[i].offers;
      }
    }
    forall i, j | 0 <= i < j < |sorted| ensures KeyBelow(sorted[i].capId, sorted[j].capId) {
      assert KeyBelow(groups[i].capId, groups[j].capId);
    }
  }

  /** A capability's group is the declared offers of that capability, stably sorted. */
  lemma {:induction false} GroupIsSortedDeclarations(packs: seq<Pack>, c: string)
    ensures Ordered(Registered(packs))
    ensures Lookup(Registered(packs), c) == Sort(Filter(Declared(packs), HasCap(c)), OfferOrder())
  {
    PushAllGroups(Declared(packs), c);
    SortGroupsLookup(PushAll([], Declared(packs)), c);
    SortGroupsOrdered(PushAll([], Declared(packs)));
  }

  lemma OfferOrderIsTotal()
    ensures TotalPreorder(OfferOrder())
  {
    forall x: Offer, y: Offer ensures OfferOrder()(x, y) || OfferOrder()(y, x) {
      StrLeTotal(x.stableId, y.stableId);
    }
    forall x: Offer, y: Offer, z: Offer | OfferOrder()(x, y) && OfferOrder()(y, z) ensures OfferOrder()(x, z) {
      if x.priority == y.priority == z.priority {
        StrLeTransitive(x.stableId, y.stableId, z.stableId);
      }
    }
  }

  // ----- default identifiers

  lemma {:induction false} DecimalInjective(m: nat, n: nat)
    requires Decimal(m) == Decimal(n)
    ensures m == n
  {
    var a, b := Decimal(m), Decimal(n);
    assert a[|a| - 1] == Digit(m % 10) && b[|b| - 1] == Digit(n % 10);
    DecimalLength(m);
    DecimalLength(n);
    if m >= 10 && n >= 10 {
      assert a[..|a| - 1] == Decimal(m / 10) && b[..|b| - 1] == Decimal(n / 10);
      DecimalInjective(m / 10, n / 10);
    }
  }

  lemma {:induction false} DecimalLength(n: nat)
    ensures |Decimal(n)| >= 1 && (n >= 10 <==> |Decimal(n)| > 1)
    ensures ':' !in Decimal(n)
  {
    if n >= 10 {
      DecimalLength(n / 10);
    }
  }

  predicate Unnamed(d: DeclaredOffer) { d.offerId.None? || IsBlank(d.offerId.value) }

  /** Offers of one pack at different places that declare no identifier, or a blank one, get different
      stable ids. */
  lemma DefaultIdsAreDistinct(packId: string, a: DeclaredOffer, b: DeclaredOffer, i: nat, j: nat)
    requires Unnamed(a) && Unnamed(b) && i != j
    ensures StableId(packId, a, i) != StableId(packId, b, j)
  {
    if StableId(packId, a, i) == StableId(packId, b, j) {
      IdEndsWithIndex(packId + "::" + a.capId + "::" + a.componentRef + "::" + a.op, i);
      IdEndsWithIndex(packId + "::" + b.capId + "::" + b.componentRef + "::" + b.op, j);
      DecimalInjective(i, j);
    }
  }

  lemma IdEndsWithIndex(base: string, i: nat)
    ensures var parts := Split(base + "::" + Decimal(i), ':'); parts[|parts| - 1] == Decimal(i)
  {
    assert base + "::" + Decimal(i) == (base + ":") + ":" + Decimal(i);
    SplitAtSeparator(base + ":", ':', Decimal(i));
    DecimalLength(i);
    SplitOfWord(Decimal(i), ':');
  }

  // ----- nothing lost, nothing invented

  lemma {:induction false} PushFlatten(groups: seq<Group>, o: Offer)
    ensures multiset(Flatten(Push(groups, o))) == multiset(Flatten(groups)) + multiset{o}
  {
    if groups == [] {
      assert Flatten(Push(groups, o)) == [o];
    } else if groups[0].capId == o.capId {
      assert Push(groups, o)[1..] == groups[1..];
    } else if StrLe(o.capId, groups[0].capId) {
      assert Push(groups, o)[1..] == groups;
    } else {
      PushFlatten(groups[1..], o);
      assert Push(groups, o)[1..] == Push(groups[1..], o);
    }
  }

  lemma {:induction false} PushAllFlatten(offers: seq<Offer>)
    ensures multiset(Flatten(PushAll([], offers))) == multiset(offers)
  {
    if offers != [] {
      var front, o := offers[..|offers| - 1], offers[|offers| - 1];
      PushAllFlatten(front);
      PushFlatten(PushAll([], front), o);
      assert offers == front + [o];
    }
  }

  lemma {:induction false} SortGroupsFlatten(groups: seq<Group>)
    ensures multiset(Flatten(SortGroups(groups))) == multiset(Flatten(groups))
  {
    if groups != [] {
      SortGroupsFlatten(groups[1..]);
      assert SortGroups(groups)[1..] == SortGroups(groups[1..]);
      SortKeepsElements(groups[0].offers, OfferOrder());
    }
  }

  /** Building the registry loses and invents no offer. */
  lemma RegistryKeepsOffers(packs: seq<Pack>)
    ensures multiset(Flatten(Registered(packs))) == multiset(Declared(packs))
  {
    PushAllFlatten(Declared(packs));
    SortGroupsFlatten(PushAll([], Declared(packs)));
  }

  // ----- resolving

  /** `offers[k]` has the capability and suits, no such offer has a smaller (priority, stable id),
      and none that ties with it was declared before it. */
  ghost predicate IsBestOffer(
      offers: seq<Offer>, capId: string, minVersion: Option<string>, scope: ResolveScope, op: Option<string>, k: nat)
  {
    IsFirstLeast(offers, OfferOrder(), Both(HasCap(capId), Suits(minVersion, scope, op)), k)
  }

  lemma ResolveInDeclared(
      packs: seq<Pack>, capId: string, minVersion: Option<string>, scope: ResolveScope, op: Option<string>)
    ensures Resolve(Registered(packs), capId, minVersion, scope, op)
         == First(Sort(Declared(packs), OfferOrder()), Both(HasCap(capId), Suits(minVersion, scope, op)))
  {
    var suits := Suits(minVersion, scope, op);
    var sorted := Sort(Declared(packs), OfferOrder());
    OfferOrderIsTotal();
    GroupIsSortedDeclarations(packs, capId);
    SortCommutesWithFilter(Declared(packs), OfferOrder(), HasCap(capId));
    FilterTwice(sorted, HasCap(capId), suits, Both(HasCap(capId), suits));
    FirstIsHeadOfFilter(Filter(sorted, HasCap(capId)), suits);
    FirstIsHeadOfFilter(sorted, Both(HasCap(capId), suits));
  }

  /** Resolving finds the best declared offer, or nothing when no declared offer suits. */
  lemma ResolveFindsTheBest(
      packs: seq<Pack>, capId: string, minVersion: Option<string>, scope: ResolveScope, op: Option<string>)
    ensures var found := Resolve(Registered(packs), capId, minVersion, scope, op);
            var offers := Declared(packs);
            && (found.None? <==>
                  forall o :: o in offers && o.capId == capId ==> !Suits(minVersion, scope, op)(o))
            && (found.Some? ==> exists k: nat :: IsBestOffer(offers, capId, minVersion, scope, op, k)
                                                 && offers[k] == found.value)
  {
    var offers, wanted := Declared(packs), Both(HasCap(capId), Suits(minVersion, scope, op));
    ResolveInDeclared(packs, capId, minVersion, scope, op);
    OfferOrderIsTotal();
    SortKeepsElements(offers, OfferOrder());
    if First(offers, wanted).Some? {
      var k := FirstOfSort(offers, OfferOrder(), wanted);
      assert IsBestOffer(offers, capId, minVersion, scope, op, k);
    }
  }

  lemma {:induction false} FilterFlattenByCap(groups: seq<Group>, c: string)
    requires Ordered(groups)
    ensures Filter(Flatten(groups), HasCap(c)) == Lookup(groups, c)
  {
    if groups != [] {
      FilterFlattenByCap(groups[1..], c);
      var head := groups[0].offers;
      assert AllHaveCap(head, groups[0].capId);
      FilterConcat(head, Flatten(groups[1..]), HasCap(c));
      if groups[0].capId == c {
        FilterAll(head, HasCap(c));
        assert AllAbove(groups[1..], c);
        LookupAbove(groups[1..], c);
        assert head + [] == head;
      } else {
        FilterNone(head, HasCap(c));
        assert [] + Lookup(groups[1..], c) == Lookup(groups[1..], c);
      }
    }
  }

  lemma {:induction false} FilterOfSorted<T(!new)>(s: seq<T>, le: (T, T) -> bool, p: T -> bool)
    requires Sorted(s, le)
    ensures Sorted(Filter(s, p), le)
  {
    if s != [] {
      FilterOfSorted(s[1..], le, p);
      FilterMembers(s[1..], p);
      forall j | 0 <= j < |Filter(s[1..], p)| ensures le(s[0], Filter(s[1..], p)[j]) {
        assert Filter(s[1..], p)[j] in s[1..];
      }
    }
  }

  /** The per-capability index and the globally sorted view agree, ties included: what is resolved
      without a version is the first entry of the view that has the capability (and allows the op). */
  lemma ResolveIsFirstInScope(packs: seq<Pack>, capId: string, scope: ResolveScope, op: Option<string>)
    ensures Resolve(Registered(packs), capId, None, scope, op)
         == First(OffersInScope(Registered(packs), scope), Both(HasCap(capId), Suits(None, scope, op)))
  {
    var groups, suits := Registered(packs), Suits(None, scope, op);
    var group, flat := Lookup(groups, capId), Flatten(groups);
    var wanted := Both(HasCap(capId), suits);
    OfferOrderIsTotal();
    GroupIsSortedDeclarations(packs, capId);
    SortCommutesWithFilter(Filter(flat, InScope(scope)), OfferOrder(), wanted);
    FilterTwice(flat, InScope(scope), wanted, wanted);
    FilterTwice(flat, HasCap(capId), suits, wanted);
    FilterFlattenByCap(groups, capId);
    SortSorts(Filter(Declared(packs), HasCap(capId)), OfferOrder());
    FilterOfSorted(group, OfferOrder(), suits);
    SortOfSorted(Filter(group, suits), OfferOrder());
    FirstIsHeadOfFilter(group, suits);
    FirstIsHeadOfFilter(OffersInScope(groups, scope), wanted);
  }

  /** The offers that require setup are those of the view in scope, in the same order. */
  lemma RequiringSetupIsFilteredView(packs: seq<Pack>, scope: ResolveScope)
    ensures OffersRequiringSetup(Registered(packs), scope)
         == Filter(OffersInScope(Registered(packs), scope), NeedsSetup())
  {
    var flat := Flatten(Registered(packs));
    OfferOrderIsTotal();
    SortCommutesWithFilter(Filter(flat, InScope(scope)), OfferOrder(), NeedsSetup());
    FilterTwice(flat, InScope(scope), NeedsSetup(), Both(NeedsSetup(), InScope(scope)));
  }

  /** A hook chain is every declared offer of the stage that applies to the op, stably sorted;
      it ignores scope and version. */
  lemma HookChainIsSortedDeclarations(packs: seq<Pack>, stage: HookStage, opName: string)
    ensures HookChain(Registered(packs), stage, opName)
         == Sort(Filter(Declared(packs), Both(HasCap(HookCap(stage)), HookApplies(opName))), OfferOrder())
  {
    var cap := HookCap(stage);
    OfferOrderIsTotal();
    GroupIsSortedDeclarations(packs, cap);
    SortCommutesWithFilter(Filter(Declared(packs), HasCap(cap)), OfferOrder(), HookApplies(opName));
    FilterTwice(Declared(packs), HasCap(cap), HookApplies(opName), Both(HasCap(cap), HookApplies(opName)));
  }

  // ----- the order of the global view

  function FullOrder(): (Offer, Offer) -> bool {
    (a: Offer, b: Offer) => OfferOrder()(a, b) && (OfferOrder()(b, a) ==> StrLe(a.capId, b.capId))
  }

  function CapOrder(): (Offer, Offer) -> bool { (a: Offer, b: Offer) => StrLe(a.capId, b.capId) }

  lemma FullOrderIsTotal()
    ensures TotalPreorder(FullOrder())
  {
    OfferOrderIsTotal();
    forall x: Offer, y: Offer ensures FullOrder()(x, y) || FullOrder()(y, x) {
      assert OfferOrder()(x, y) || OfferOrder()(y, x);
      StrLeTotal(x.capId, y.capId);
    }
    forall x: Offer, y: Offer, z: Offer | FullOrder()(x, y) && FullOrder()(y, z) ensures FullOrder()(x, z) {
      assert OfferOrder()(x, z);
      if OfferOrder()(z, x) {
        assert OfferOrder()(y, x) && OfferOrder()(z, y);
        StrLeTransitive(x.capId, y.capId, z.capId);
      }
    }
  }

  lemma {:induction false} SortedFilterOrdersPairs<T(!new)>(
      s: seq<T>, p: T -> bool, le: (T, T) -> bool, i: nat, j: nat)
    requires Sorted(Filter(s, p), le) && i < j < |s| && p(s[i]) && p(s[j])
    ensures le(s[i], s[j])
  {
    var rest := Filter(s[1..], p);
    if i == 0 {
      FilterMembers(s[1..], p);
      assert s[j] == s[1..][j - 1];
      var m :| 0 <= m < |rest| && rest[m] == s[j];
      assert Filter(s, p)[0] == s[0] && Filter(s, p)[m + 1] == s[j];
    } else {
      if p(s[0]) {
        assert Filter(s, p)[1..] == rest;
      }
      SortedFilterOrdersPairs(s[1..], p, le, i - 1, j - 1);
    }
  }

  lemma {:induction false} FlattenAscends(groups: seq<Group>)
    requires Ordered(groups)
    ensures Sorted(Flatten(groups), CapOrder())
    ensures forall c :: AllAbove(groups, c) ==> AllOffersAbove(Flatten(groups), c)
  {
    if groups != [] {
      FlattenAscends(groups[1..]);
      var head, rest, c := groups[0].offers, Flatten(groups[1..]), groups[0].capId;
      assert AllHaveCap(head, c);
      assert AllAbove(groups[1..], c);
      assert AllOffersAbove(rest, c);
      forall i, j | 0 <= i < j < |head + rest| ensures CapOrder()((head + rest)[i], (head + rest)[j]) {
        StrLeTotal(c, c);
        if i >= |head| {
          assert CapOrder()(rest[i - |head|], rest[j - |head|]);
        }
      }
      forall d | AllAbove(groups, d) ensures AllOffersAbove(head + rest, d) {
        assert KeyBelow(d, c) && AllAbove(groups[1..], d);
        assert AllOffersAbove(rest, d);
      }
    }
  }

  ghost predicate AllOffersAbove(offers: seq<Offer>, c: string) {
    forall k :: 0 <= k < |offers| ==> KeyBelow(c, offers[k].capId)
  }

  /** Sorting offers that already ascend by capability sorts them by (priority, stable id, capability). */
  lemma SortedViewIsFullySorted(ascending: seq<Offer>)
    requires Sorted(ascending, CapOrder())
    ensures Sorted(Sort(ascending, OfferOrder()), FullOrder())
  {
    var r := Sort(ascending, OfferOrder());
    OfferOrderIsTotal();
    SortSorts(ascending, OfferOrder());
    forall i, j | 0 <= i < j < |r| ensures FullOrder()(r[i], r[j]) {
      assert OfferOrder()(r[i], r[j]);
      if OfferOrder()(r[j], r[i]) {
        var ties := TiesWith(OfferOrder(), r[i]);
        SortIsStable(ascending, OfferOrder(), r[i]);
        FilterOfSorted(ascending, CapOrder(), ties);
        assert OfferOrder()(r[i], r[i]);
        SortedFilterOrdersPairs(r, ties, CapOrder(), i, j);
      }
    }
  }

  /** Elements that all tie are left alone by a sort. */
  lemma SortOfTies(offers: seq<Offer>, p: Offer -> bool, x: Offer)
    requires forall o :: p(o) ==> TiesWith(OfferOrder(), x)(o)
    ensures Filter(Sort(offers, OfferOrder()), p) == Filter(offers, p)
  {
    OfferOrderIsTotal();
    SortCommutesWithFilter(offers, OfferOrder(), p);
    FilterMembers(offers, p);
    var kept := Filter(offers, p);
    forall i, j | 0 <= i < j < |kept| ensures OfferOrder()(kept[i], kept[j]) {
      assert p(kept[i]) && p(kept[j]);
      assert OfferOrder()(kept[i], x) && OfferOrder()(x, kept[j]);
    }
    SortOfSorted(kept, OfferOrder());
  }

  lemma ViewTies(packs: seq<Pack>, scope: ResolveScope, x: Offer)
    ensures Filter(OffersInScope(Registered(packs), scope), TiesWith(FullOrder(), x))
         == Filter(Filter(Declared(packs), InScope(scope)), TiesWith(FullOrder(), x))
  {
    var ties := TiesWith(FullOrder(), x);
    var flat, declared := Flatten(Registered(packs)), Declared(packs);
    var hasCap, inScope := HasCap(x.capId), InScope(scope);
    var both := Both(inScope, ties);
    forall o | ties(o) ensures hasCap(o) && TiesWith(OfferOrder(), x)(o) {
      StrLeAntisymmetric(o.capId, x.capId);
    }
    SortOfTies(Filter(flat, inScope), ties, x);
    FilterTwice(flat, inScope, ties, both);
    FilterTwice(flat, hasCap, both, both);
    GroupIsSortedDeclarations(packs, x.capId);
    FilterFlattenByCap(Registered(packs), x.capId);
    SortOfTies(Filter(declared, hasCap), both, x);
    FilterTwice(declared, hasCap, both, both);
    FilterTwice(declared, inScope, ties, both);
  }

  /** The view in scope is the declared offers in scope, stably sorted by (priority, stable id,
      capability): only offers that tie in all three keep their declaration order. */
  lemma ViewIsSortedDeclarations(packs: seq<Pack>, scope: ResolveScope)
    ensures OffersInScope(Registered(packs), scope)
         == Sort(Filter(Declared(packs), InScope(scope)), FullOrder())
  {
    var flat := Flatten(Registered(packs));
    FullOrderIsTotal();
    GroupIsSortedDeclarations(packs, "");
    FlattenAscends(Registered(packs));
    FilterOfSorted(flat, CapOrder(), InScope(scope));
    SortedViewIsFullySorted(Filter(flat, InScope(scope)));
    forall x: Offer
      ensures Filter(OffersInScope(Registered(packs), scope), TiesWith(FullOrder(), x))
           == Filter(Filter(Declared(packs), InScope(scope)), TiesWith(FullOrder(), x))
    {
      ViewTies(packs, scope, x);
    }
    StableSortIsUnique(Filter(Declared(packs), InScope(scope)), OffersInScope(Registered(packs), scope), FullOrder());
  }

  // ----- pack order

  /** The offers of a pack that have the capability and tie with `x`. */
  function TiedOffers(capId: string, x: Offer): Pack -> seq<Offer> {
    (pack: Pack) => Filter(AllPackOffers(pack), Both(HasCap(capId), TiesWith(OfferOrder(), x)))
  }

  /** Two offers of the capability, of these two packs, tie. */
  ghost predicate TieBetween(p: Pack, q: Pack, capId: string) {
    exists o, r :: o in AllPackOffers(p) && r in AllPackOffers(q) && o.capId == capId == r.capId
                   && TiesWith(OfferOrder(), o)(r)
  }

  ghost predicate NoTiesAcross(packs: seq<Pack>, capId: string) {
    forall p, q :: p in packs && q in packs && p != q ==> !TieBetween(p, q, capId)
  }

  /** A group restricted to the offers that tie with `x` is what the packs declare of them, in order. */
  lemma GroupTies(packs: seq<Pack>, capId: string, x: Offer)
    ensures Filter(Lookup(Registered(packs), capId), TiesWith(OfferOrder(), x)) == FlatMap(packs, TiedOffers(capId, x))
  {
    var ties := TiesWith(OfferOrder(), x);
    OfferOrderIsTotal();
    GroupIsSortedDeclarations(packs, capId);
    SortIsStable(Filter(Declared(packs), HasCap(capId)), OfferOrder(), x);
    FilterTwice(Declared(packs), HasCap(capId), ties, Both(HasCap(capId), ties));
    FilterFlatMap(packs, AllPackOffers, Both(HasCap(capId), ties), TiedOffers(capId, x));
  }

  lemma TiedOffersOfTwo(p: Pack, q: Pack, capId: string, x: Offer)
    requires TiedOffers(capId, x)(p) != [] && TiedOffers(capId, x)(q) != []
    ensures TieBetween(p, q, capId)
  {
    var tied := Both(HasCap(capId), TiesWith(OfferOrder(), x));
    FilterMembers(AllPackOffers(p), tied);
    FilterMembers(AllPackOffers(q), tied);
    OfferOrderIsTotal();
    var o, r := TiedOffers(capId, x)(p)[0], TiedOffers(capId, x)(q)[0];
    assert o in TiedOffers(capId, x)(p) && r in TiedOffers(capId, x)(q);
    assert OfferOrder()(o, x) && OfferOrder()(x, r) && OfferOrder()(r, x) && OfferOrder()(x, o);
    assert TiesWith(OfferOrder(), o)(r);
  }

  lemma TiedOffersCommute(p: Pack, q: Pack, capId: string, x: Offer)
    requires p == q || !TieBetween(p, q, capId)
    ensures TiedOffers(capId, x)(p) + TiedOffers(capId, x)(q) == TiedOffers(capId, x)(q) + TiedOffers(capId, x)(p)
  {
    if p != q && TiedOffers(capId, x)(p) != [] && TiedOffers(capId, x)(q) != [] {
      TiedOffersOfTwo(p, q, capId, x);
      assert false;
    }
  }

  /** When no two offers of a capability in different packs tie, its group, and so every resolution of
      it, does not depend on the order of the packs; ties inside one pack do no harm. */
  lemma ResolveIgnoresPackOrder(
      a: seq<Pack>, b: seq<Pack>, capId: string, minVersion: Option<string>, scope: ResolveScope, op: Option<string>)
    requires multiset(a) == multiset(b) && NoTiesAcross(a, capId)
    ensures Lookup(Registered(a), capId) == Lookup(Registered(b), capId)
    ensures Resolve(Registered(a), capId, minVersion, scope, op)
         == Resolve(Registered(b), capId, minVersion, scope, op)
  {
    forall x: Offer
      ensures Filter(Lookup(Registered(a), capId), TiesWith(OfferOrder(), x))
           == Filter(Lookup(Registered(b), capId), TiesWith(OfferOrder(), x))
    {
      forall p, q | p in a && q in a
        ensures TiedOffers(capId, x)(p) + TiedOffers(capId, x)(q) == TiedOffers(capId, x)(q) + TiedOffers(capId, x)(p)
      {
        TiedOffersCommute(p, q, capId, x);
      }
      FlatMapCommutes(a, b, TiedOffers(capId, x));
      GroupTies(a, capId, x);
      GroupTies(b, capId, x);
    }
    OfferOrderIsTotal();
    GroupIsSortedDeclarations(a, capId);
    GroupIsSortedDeclarations(b, capId);
    SortSorts(Filter(Declared(a), HasCap(capId)), OfferOrder());
    SortSorts(Filter(Declared(b), HasCap(capId)), OfferOrder());
    SameTiesSameOrder(Lookup(Registered(a), capId), Lookup(Registered(b), capId), OfferOrder());
  }

  // ----- and exactly then

  lemma {:induction false} PackOffersHavePath(pack: Pack, n: nat)
    requires pack.extension.Offers? ==> n <= |pack.extension.offers|
    ensures forall o :: o in PackOffers(pack, n) ==> o.packPath == pack.path
  {
    if pack.extension.Offers? && n > 0 {
      PackOffersHavePath(pack, n - 1);
    }
  }

  /** The tied offers of a pack that has some start with one that carries its path. */
  lemma TiedOffersStart(p: Pack, capId: string, x: Offer, o: Offer)
    requires o in AllPackOffers(p) && o.capId == capId && TiesWith(OfferOrder(), x)(o)
    ensures var tied := TiedOffers(capId, x)(p); tied != [] && tied[0].packPath == p.path
  {
    FilterMembers(AllPackOffers(p), Both(HasCap(capId), TiesWith(OfferOrder(), x)));
    PackOffersHavePath(p, if p.extension.Offers? then |p.extension.offers| else 0);
    var tied := TiedOffers(capId, x)(p);
    assert o in tied;
    assert tied[0] in tied;
  }

  /** Two packs with tied offers at the front of the index: exchanging them changes the group. */
  lemma TiedPacksInOrder(p: Pack, q: Pack, rest: seq<Pack>, capId: string)
    requires p.path != q.path && TieBetween(p, q, capId)
    ensures Lookup(Registered([p, q] + rest), capId) != Lookup(Registered([q, p] + rest), capId)
  {
    var x, r :| x in AllPackOffers(p) && r in AllPackOffers(q) && x.capId == capId == r.capId
                && TiesWith(OfferOrder(), x)(r);
    var f := TiedOffers(capId, x);
    OfferOrderIsTotal();
    assert OfferOrder()(x, x);
    TiedOffersStart(p, capId, x, x);
    TiedOffersStart(q, capId, x, r);
    GroupTies([p, q] + rest, capId, x);
    GroupTies([q, p] + rest, capId, x);
    assert ([p, q] + rest)[0] == p && ([q, p] + rest)[0] == q;
    assert FlatMap([p, q] + rest, f)[0] == f(p)[0] && FlatMap([q, p] + rest, f)[0] == f(q)[0];
  }

  /** Two elements of a sequence moved to its front. */
  lemma MoveToFront<T>(s: seq<T>, x: T, y: T) returns (rest: seq<T>)
    requires x in s && y in s && x != y
    ensures multiset([x, y] + rest) == multiset(s) == multiset([y, x] + rest)
  {
    var i :| 0 <= i < |s| && s[i] == x;
    var without := RemoveAt(s, i);
    RemoveAtMultiset(s, i);
    assert y in multiset(s) && y in multiset(without);
    var j :| 0 <= j < |without| && without[j] == y;
    rest := RemoveAt(without, j);
    RemoveAtMultiset(without, j);
    assert multiset([x, y] + rest) == multiset{x, y} + multiset(rest) == multiset([y, x] + rest);
  }

  ghost predicate DistinctPackPaths(packs: seq<Pack>) {
    forall p, q :: p in packs && q in packs && p != q ==> p.path != q.path
  }

  ghost predicate SameGroup(a: seq<Pack>, b: seq<Pack>, capId: string) {
    Lookup(Registered(a), capId) == Lookup(Registered(b), capId)
  }

  ghost predicate OrderIgnored(packs: seq<Pack>, capId: string) {
    forall b :: multiset(b) == multiset(packs) ==> SameGroup(b, packs, capId)
  }

  lemma TieBreaksOrder(packs: seq<Pack>, p: Pack, q: Pack, capId: string)
    requires p in packs && q in packs && p.path != q.path && TieBetween(p, q, capId)
    ensures !OrderIgnored(packs, capId)
  {
    var rest := MoveToFront(packs, p, q);
    var a, b := [p, q] + rest, [q, p] + rest;
    TiedPacksInOrder(p, q, rest, capId);
    assert !SameGroup(a, packs, capId) || !SameGroup(b, packs, capId);
  }

  /** The index is a map from paths, so packs differ in their paths.  Exactly when no two offers of a
      capability in different packs tie, its group is the same for every order of the packs. */
  lemma PackOrderIgnoredIff(packs: seq<Pack>, capId: string)
    requires DistinctPackPaths(packs)
    ensures OrderIgnored(packs, capId) <==> NoTiesAcross(packs, capId)
  {
    if NoTiesAcross(packs, capId) {
      forall b | multiset(b) == multiset(packs) ensures SameGroup(b, packs, capId) {
        ResolveIgnoresPackOrder(packs, b, capId, None, ResolveScope(None, None, None), None);
      }
    } else {
      var p, q :| p in packs && q in packs && p != q && TieBetween(p, q, capId);
      TieBreaksOrder(packs, p, q, capId);
    }
  }

  // ----- the bindings handed out

  /** What a caller gets for an operation: the binding of the best declared offer, or nothing. */
  lemma ResolveForOpBindsTheBest(
      registry: CapabilityRegistry, packs: seq<Pack>, capId: string, minVersion: Option<string>, scope: ResolveScope,
      op: Option<string>)
    requires registry.byCapId == Registered(packs)
    ensures var binding := registry.ResolveForOp(capId, minVersion, scope, op);
            var offers := Declared(packs);
            && (binding.None? <==>
                  forall o :: o in offers && o.capId == capId ==> !Suits(minVersion, scope, op)(o))
            && (binding.Some? ==> exists k: nat :: IsBestOffer(offers, capId, minVersion, scope, op, k)
                                                   && BindingOf(offers[k]) == binding.value)
  {
    ResolveFindsTheBest(packs, capId, minVersion, scope, op);
  }

  lemma {:induction false} CollectBindings(offers: seq<Offer>)
    ensures |Collect(offers, SomeBinding())| == |offers|
    ensures forall i :: 0 <= i < |offers| ==> Collect(offers, SomeBinding())[i] == BindingOf(offers[i])
  {
    if offers != [] {
      CollectBindings(offers[1..]);
    }
  }

  /** The hook chain a caller gets: the bindings of the declared hooks that apply, one for one and in
      (priority, stable id) order. */
  lemma HookChainBindsSortedDeclarations(
      registry: CapabilityRegistry, packs: seq<Pack>, stage: HookStage, opName: string)
    requires registry.byCapId == Registered(packs)
    ensures var chain := registry.ResolveHookChain(stage, opName);
            var hooks := Sort(
              Filter(Declared(packs), Both(HasCap(HookCap(stage)), HookApplies(opName))), OfferOrder());
            |chain| == |hooks| && forall i :: 0 <= i < |hooks| ==> chain[i] == BindingOf(hooks[i])
  {
    HookChainIsSortedDeclarations(packs, stage, opName);
    CollectBindings(HookChain(Registered(packs), stage, opName));
  }
}
