/** What every history of publishes and replays keeps, and what a replay reaches. */
module EventHistory {
  import opened Sequences
  import opened EventBus

  // ----- the retry loop

  /** `d` records what the runner did from its call `start` on for the subscription `s`: the attempt
      count is the position of the first success, or the maximum when every attempt failed. */
  ghost predicate Faithful(world: World, start: nat, e: Envelope, s: Subscription, d: Delivery) {
    && d.eventId == e.eventId && d.subscriptionId == s.id
    && d.capabilityId == s.capabilityId && d.op == s.op
    && SchemaPasses(world, s.packPath, s.schemaRef, e.payload)
    && 1 <= d.attempts <= MaxAttempts(s)
    && (forall k :: start <= k < start + d.attempts - 1 ==> FailedReply(world.runner(k)))
    && var last := world.runner(start + d.attempts - 1);
       if d.ok then last.Outcome? && last.success && d.error.None?
       else FailedReply(last) && d.attempts == MaxAttempts(s) && d.error == Some(ErrorText(last))
  }

  lemma {:induction false} RetryMeaning(runner: nat -> Reply, start: nat, max: nat, done: nat, lastError: string)
    requires done <= max
    requires forall k :: start <= k < start + done ==> FailedReply(runner(k))
    requires done > 0 ==> lastError == ErrorText(runner(start + done - 1))
    ensures match Retry(runner, start, max, done, lastError)
            case Delivered(n) =>
              && done < n <= max && runner(start + n - 1).Outcome? && runner(start + n - 1).success
              && forall k :: start <= k < start + n - 1 ==> FailedReply(runner(k))
            case Broke(n) =>
              && done < n <= max && runner(start + n - 1).Broken?
              && forall k :: start <= k < start + n - 1 ==> FailedReply(runner(k))
            case Exhausted(error) =>
              && (forall k :: start <= k < start + max ==> FailedReply(runner(k)))
              && (max > 0 ==> error == ErrorText(runner(start + max - 1)))
    decreases max - done
  {
    if done < max && FailedReply(runner(start + done)) {
      RetryMeaning(runner, start, max, done + 1, ErrorText(runner(start + done)));
    }
  }

  // ----- what a run adds to the delivery log

  function TotalAttempts(ds: seq<Delivery>): nat {
    if ds == [] then 0 else ds[0].attempts + TotalAttempts(ds[1..])
  }

  function Successes(ds: seq<Delivery>): nat {
    if ds == [] then 0 else (if ds[0].ok then 1 else 0) + Successes(ds[1..])
  }

  /** One faithful record for each subscription, in order, the runner calls following one another. */
  ghost predicate FaithfulAll(world: World, start: nat, e: Envelope, subs: seq<Subscription>, ds: seq<Delivery>)
    decreases |subs|
  {
    |subs| == |ds| &&
    (subs != [] ==>
      Faithful(world, start, e, subs[0], ds[0]) &&
      FaithfulAll(world, start + ds[0].attempts, e, subs[1..], ds[1..]))
  }

  /** One delivery adds at most one record, and that one is faithful: none when it is aborted before
      the record is written, exactly one when it succeeds or only the dead letter is lost. */
  lemma DeliverAddsAtMostOneRecord(world: World, bus: Bus, e: Envelope, s: Subscription)
    ensures var (next, result) := Deliver(world, bus, e, s);
            if result.Ok? || result.failure.DeadLetterNotWritten? then
              && |next.deliveries| == |bus.deliveries| + 1
              && var d := next.deliveries[|bus.deliveries|];
                 && next.deliveries == bus.deliveries + [d]
                 && Faithful(world, bus.calls, e, s, d)
                 && d.ok == (result.Ok? && result.value)
                 && next.calls == bus.calls + d.attempts
            else next.deliveries == bus.deliveries && next.deadLetters == bus.deadLetters
  {
    RetryMeaning(world.runner, bus.calls, MaxAttempts(s), 0, "");
  }

  /** Whatever the result, the records gained are faithful and for the first matched subscriptions in
      order: for all of them on Ok, and only for those before the aborted one otherwise (a lost dead
      letter still has its record). */
  lemma {:induction false} DeliverAllRecordsAPrefix(
      world: World, bus: Bus, e: Envelope, subs: seq<Subscription>, report: Report)
    ensures var (next, result) := DeliverAll(world, bus, e, subs, report);
            && bus.deliveries <= next.deliveries
            && var gained := next.deliveries[|bus.deliveries|..];
               && |gained| <= |subs|
               && FaithfulAll(world, bus.calls, e, subs[..|gained|], gained)
               && (result.Ok? ==> |gained| == |subs|)
               && (result.Err? && !result.failure.DeadLetterNotWritten? ==> |gained| < |subs|)
    decreases |subs|
  {
    if subs != [] {
      DeliverAddsAtMostOneRecord(world, bus, e, subs[0]);
      var (mid, result) := Deliver(world, bus, e, subs[0]);
      if result.Ok? {
        var d := mid.deliveries[|bus.deliveries|];
        DeliverAllRecordsAPrefix(world, mid, e, subs[1..], Count(report, result.value));
        var last := DeliverAll(world, mid, e, subs[1..], Count(report, result.value)).0;
        var k := |last.deliveries| - |mid.deliveries| + 1;
        assert subs[..k][1..] == subs[1..][..k - 1];
        RecordsCons(world, bus, mid, last, e, subs[..k], d);
      } else {
        var gained := mid.deliveries[|bus.deliveries|..];
        assert subs[..1] == [subs[0]] && subs[..0] == [];
        if gained != [] {
          assert gained == [mid.deliveries[|bus.deliveries|]];
          assert gained[1..] == [] && subs[..1][1..] == [];
        }
      }
    }
  }

  /** On Ok the delivery log gained exactly one faithful record for each subscription in order, the
      report counts them, and the runner was called as often as the records say. */
  lemma {:induction false} DeliverAllAddsOneRecordEach(
      world: World, bus: Bus, e: Envelope, subs: seq<Subscription>, report: Report)
    requires DeliverAll(world, bus, e, subs, report).1.Ok?
    ensures var (next, result) := DeliverAll(world, bus, e, subs, report);
            && bus.deliveries <= next.deliveries
            && var gained := next.deliveries[|bus.deliveries|..];
               && FaithfulAll(world, bus.calls, e, subs, gained)
               && next.calls == bus.calls + TotalAttempts(gained)
               && result.value.matched == report.matched
               && result.value.successful == report.successful + Successes(gained)
               && result.value.successful + result.value.failed == report.successful + report.failed + |subs|
    decreases |subs|
  {
    if subs != [] {
      DeliverAddsAtMostOneRecord(world, bus, e, subs[0]);
      var (mid, result) := Deliver(world, bus, e, subs[0]);
      DeliverAllAddsOneRecordEach(world, mid, e, subs[1..], Count(report, result.value));
      var last := DeliverAll(world, mid, e, subs[1..], Count(report, result.value)).0;
      RecordsCons(world, bus, mid, last, e, subs, mid.deliveries[|bus.deliveries|]);
    }
  }

  /** One more record in front of those of the remaining subscriptions. */
  lemma {:induction false} RecordsCons(
      world: World, bus: Bus, mid: Bus, last: Bus, e: Envelope, subs: seq<Subscription>, d: Delivery)
    requires subs != [] && mid.deliveries == bus.deliveries + [d] && mid.deliveries <= last.deliveries
    requires Faithful(world, bus.calls, e, subs[0], d) && mid.calls == bus.calls + d.attempts
    requires FaithfulAll(world, mid.calls, e, subs[1..], last.deliveries[|mid.deliveries|..])
    ensures var gained, rest := last.deliveries[|bus.deliveries|..], last.deliveries[|mid.deliveries|..];
            && bus.deliveries <= last.deliveries
            && FaithfulAll(world, bus.calls, e, subs, gained)
            && TotalAttempts(gained) == d.attempts + TotalAttempts(rest)
            && Successes(gained) == (if d.ok then 1 else 0) + Successes(rest)
  {
    var rest := last.deliveries[|mid.deliveries|..];
    var gained := last.deliveries[|bus.deliveries|..];
    assert gained == [d] + rest;
    assert gained[1..] == rest;
  }

  /** The bus once a publish has taken its event identifier. */
  function Numbered(bus: Bus, replayOf: Option<nat>): Bus {
    if replayOf.Some? then bus else bus.(issued := bus.issued + 1)
  }

  /** The bus after the event is appended. */
  function Begun(bus: Bus, e: Envelope): Bus { bus.(writes := bus.writes + 1, events := bus.events + [e]) }

  predicate Accepted(world: World, topics: seq<Topic>, request: Request) {
    var found := First(topics, NamesTopic(request));
    found.Some? && SchemaPasses(world, found.value.packPath, found.value.schemaRef, request.payload)
  }

  /** The envelope of an accepted publish. */
  function NewEvent(bus: Bus, topics: seq<Topic>, request: Request, replayOf: Option<nat>): Envelope
    requires First(topics, NamesTopic(request)).Some?
  {
    EnvelopeFor(First(topics, NamesTopic(request)).value, request, NewEventId(bus, replayOf))
  }

  /** The three ways a publish goes: rejected, not written, or delivered to the matched subscriptions. */
  lemma PublishCases(
      world: World, bus: Bus, topics: seq<Topic>, subs: seq<Subscription>, request: Request,
      only: Option<string>, replayOf: Option<nat>)
    ensures var (next, result) := Publish(world, bus, topics, subs, request, only, replayOf);
            if !Accepted(world, topics, request) then
              next == bus
              && result == Err(if First(topics, NamesTopic(request)).None? then TopicUndefined else PayloadRejected)
            else if !world.disk(bus.writes) then
              next == Numbered(bus, replayOf).(writes := bus.writes + 1) && result == Err(EventNotWritten)
            else
              var e := NewEvent(bus, topics, request, replayOf);
              var matched := Filter(subs, Matches(world, e, only));
              (next, result)
              == DeliverAll(world, Begun(Numbered(bus, replayOf), e), e, matched, Report(|matched|, 0, 0))
  {
  }

  /** An event is logged exactly when its topic is defined, the topic's schema accepts the payload and
      the append succeeds; the two rejections leave every log and supply as it was. */
  lemma PublishLogsTheEventIff(
      world: World, bus: Bus, topics: seq<Topic>, subs: seq<Subscription>, request: Request,
      only: Option<string>, replayOf: Option<nat>)
    ensures var (next, result) := Publish(world, bus, topics, subs, request, only, replayOf);
            var found := First(topics, NamesTopic(request));
            var accepted := found.Some?
              && SchemaPasses(world, found.value.packPath, found.value.schemaRef, request.payload);
            && (!accepted ==>
                  next == bus && result == Err(if found.None? then TopicUndefined else PayloadRejected))
            && (accepted && world.disk(bus.writes) ==>
                  && |next.events| == |bus.events| + 1 && bus.events <= next.events
                  && var e := next.events[|bus.events|];
                     e.topic == request.topic && e.eventType == found.value.eventType
                     && e.payload == request.payload && e.correlationId == request.correlationId
                     && e.source == request.source)
            && (accepted && !world.disk(bus.writes) ==>
                  next.events == bus.events && next.deliveries == bus.deliveries && result == Err(EventNotWritten))
  {
    PublishCases(world, bus, topics, subs, request, only, replayOf);
    if Accepted(world, topics, request) {
      var e := NewEvent(bus, topics, request, replayOf);
      var matched := Filter(subs, Matches(world, e, only));
      DeliverAllKeepsEvents(world, Begun(Numbered(bus, replayOf), e), e, matched, Report(|matched|, 0, 0));
    }
  }

  /** A successful publish: every matched subscription got one record, and every runner call is
      accounted for by the attempts those records name. */
  lemma {:induction false} PublishAccounting(
      world: World, bus: Bus, topics: seq<Topic>, subs: seq<Subscription>, request: Request,
      only: Option<string>, replayOf: Option<nat>)
    requires Publish(world, bus, topics, subs, request, only, replayOf).1.Ok?
    ensures var (next, result) := Publish(world, bus, topics, subs, request, only, replayOf);
            && |next.events| == |bus.events| + 1 && bus.events <= next.events
            && bus.deliveries <= next.deliveries
            && var e := next.events[|bus.events|];
               var matched := Filter(subs, Matches(world, e, only));
               var gained := next.deliveries[|bus.deliveries|..];
               && FaithfulAll(world, bus.calls, e, matched, gained)
               && next.calls - bus.calls == TotalAttempts(gained)
               && result.value.matched == |matched| == result.value.successful + result.value.failed
               && result.value.successful == Successes(gained)
  {
    PublishCases(world, bus, topics, subs, request, only, replayOf);
    var e := NewEvent(bus, topics, request, replayOf);
    var begun := Begun(Numbered(bus, replayOf), e);
    var matched := Filter(subs, Matches(world, e, only));
    DeliverAllAddsOneRecordEach(world, begun, e, matched, Report(|matched|, 0, 0));
    DeliverAllKeepsEvents(world, begun, e, matched, Report(|matched|, 0, 0));
  }

  lemma {:induction false} DeliverAllKeepsEvents(
      world: World, bus: Bus, e: Envelope, subs: seq<Subscription>, report: Report)
    ensures DeliverAll(world, bus, e, subs, report).0.events == bus.events
    decreases |subs|
  {
    if subs != [] {
      var (mid, result) := Deliver(world, bus, e, subs[0]);
      if result.Ok? {
        DeliverAllKeepsEvents(world, mid, e, subs[1..], Count(report, result.value));
      }
    }
  }

  // ----- the invariant over histories

  /** The delivery record a dead letter stands for. */
  function Shadow(r: DeadLetter): Delivery {
    Delivery(r.deliveryId, r.event.eventId, r.subscriptionId, r.capabilityId, r.op, false, r.attempts, Some(r.error))
  }

  function EventIds(events: seq<Envelope>): seq<EventId> {
    seq(|events|, i requires 0 <= i < |events| => events[i].eventId)
  }

  function LetterIds(letters: seq<DeadLetter>): seq<nat> {
    seq(|letters|, i requires 0 <= i < |letters| => letters[i].deliveryId)
  }

  lemma LoggedId(events: seq<Envelope>, e: Envelope)
    requires e in events
    ensures e.eventId in EventIds(events)
  {
    var i :| 0 <= i < |events| && events[i] == e;
    assert EventIds(events)[i] == e.eventId;
  }

  lemma IssuedId(letters: seq<DeadLetter>, r: DeadLetter)
    requires r in letters
    ensures r.deliveryId in LetterIds(letters)
  {
    var i :| 0 <= i < |letters| && letters[i] == r;
    assert LetterIds(letters)[i] == r.deliveryId;
  }

  /** Every delivery names a logged event; identifiers are issued in order. */
  ghost predicate DeliveriesLinked(events: seq<Envelope>, deliveries: seq<Delivery>, issued: nat) {
    && (forall i :: 0 <= i < |deliveries| ==>
          DeliveryLinked(events, deliveries[i], issued))
    && (forall i, j :: 0 <= i < j < |deliveries| ==> deliveries[i].id < deliveries[j].id)
  }

  ghost predicate DeliveryLinked(events: seq<Envelope>, d: Delivery, issued: nat) {
    d.eventId in EventIds(events) && d.id < issued && d.attempts >= 1 && d.ok == d.error.None?
  }

  /** Every dead letter holds a logged event and has an err delivery with the same identifier,
      subscription, attempts and error. */
  ghost predicate LettersLinked(
      events: seq<Envelope>, deliveries: seq<Delivery>, letters: seq<DeadLetter>, issued: nat)
  {
    && (forall i :: 0 <= i < |letters| ==>
          LetterLinked(events, deliveries, letters[i], issued))
    && (forall i, j :: 0 <= i < j < |letters| ==> letters[i].deliveryId < letters[j].deliveryId)
  }

  ghost predicate LetterLinked(
      events: seq<Envelope>, deliveries: seq<Delivery>, r: DeadLetter, issued: nat)
  {
    Shadow(r) in deliveries && r.event in events && r.deliveryId < issued
  }

  /** Event identifiers are issued, or name the dead letter that was replayed. */
  ghost predicate EventsLinked(events: seq<Envelope>, letters: seq<DeadLetter>, issued: nat) {
    forall i :: 0 <= i < |events| ==> IdLinked(events[i].eventId, letters, issued)
  }

  ghost predicate IdLinked(id: EventId, letters: seq<DeadLetter>, issued: nat) {
    match id
    case Uuid(n) => n < issued
    case ReplayOf(delivery) => delivery in LetterIds(letters)
  }

  ghost predicate Linked(bus: Bus) {
    && DeliveriesLinked(bus.events, bus.deliveries, bus.issued)
    && LettersLinked(bus.events, bus.deliveries, bus.deadLetters, bus.issued)
    && EventsLinked(bus.events, bus.deadLetters, bus.issued)
  }

  /** The logs only grow. */
  ghost predicate Extends(a: Bus, b: Bus) {
    a.events <= b.events && a.deliveries <= b.deliveries && a.deadLetters <= b.deadLetters
    && a.issued <= b.issued && a.calls <= b.calls
  }

  /** Using up identifiers, runner replies and appends keeps the links. */
  lemma CountersKeepLinks(bus: Bus, issued: nat, calls: nat, writes: nat)
    requires Linked(bus) && bus.issued <= issued && bus.calls <= calls
    ensures var next := bus.(issued := issued, calls := calls, writes := writes); Linked(next) && Extends(bus, next)
  {
  }

  lemma DeliveryAppendLinked(bus: Bus, d: Delivery)
    requires Linked(bus)
    requires d.eventId in EventIds(bus.events) && d.id == bus.issued && d.attempts >= 1 && d.ok == d.error.None?
    ensures Linked(bus.(deliveries := bus.deliveries + [d], issued := bus.issued + 1))
  {
    CountersKeepLinks(bus, bus.issued + 1, bus.calls, bus.writes);
  }

  lemma LetterAppendLinked(bus: Bus, r: DeadLetter)
    requires Linked(bus) && LetterLinked(bus.events, bus.deliveries, r, bus.issued)
    requires forall i :: 0 <= i < |bus.deadLetters| ==> bus.deadLetters[i].deliveryId < r.deliveryId
    ensures Linked(bus.(deadLetters := bus.deadLetters + [r]))
  {
    var letters := bus.deadLetters + [r];
    forall i | 0 <= i < |bus.events| ensures IdLinked(bus.events[i].eventId, letters, bus.issued) {
      var id := bus.events[i].eventId;
      assert IdLinked(id, bus.deadLetters, bus.issued);
      if id.ReplayOf? {
        assert LetterIds(letters) == LetterIds(bus.deadLetters) + [r.deliveryId];
      }
    }
  }

  lemma EventAppendLinked(bus: Bus, e: Envelope)
    requires Linked(bus) && IdLinked(e.eventId, bus.deadLetters, bus.issued)
    ensures Linked(bus.(events := bus.events + [e]))
  {
    var events := bus.events + [e];
    forall i | 0 <= i < |bus.deliveries| ensures DeliveryLinked(events, bus.deliveries[i], bus.issued) {
      assert EventIds(bus.events + [e]) == EventIds(bus.events) + [e.eventId];
    }
    forall i | 0 <= i < |bus.deadLetters|
      ensures LetterLinked(events, bus.deliveries, bus.deadLetters[i], bus.issued)
    {
      assert LetterLinked(bus.events, bus.deliveries, bus.deadLetters[i], bus.issued);
    }
  }

  lemma LogSuccessLinked(world: World, bus: Bus, e: Envelope, s: Subscription, attempts: nat)
    requires Linked(bus) && e in bus.events && attempts >= 1
    ensures Linked(LogSuccess(world, bus, e, s, attempts).0)
    ensures Extends(bus, LogSuccess(world, bus, e, s, attempts).0)
  {
    LoggedId(bus.events, e);
    CountersKeepLinks(bus, bus.issued + 1, bus.calls, bus.writes);
    DeliveryAppendLinked(bus, OkDelivery(bus.issued, e, s, attempts));
  }

  /** A failed delivery and its dead letter. */
  lemma FailureAppendLinked(bus: Bus, d: Delivery, r: DeadLetter)
    requires Linked(bus) && r.event in bus.events && r.deliveryId == bus.issued && r.attempts >= 1 && d == Shadow(r)
    ensures var second := bus.(deliveries := bus.deliveries + [d], issued := bus.issued + 1);
            Linked(second) && Linked(second.(deadLetters := bus.deadLetters + [r]))
  {
    LoggedId(bus.events, r.event);
    DeliveryAppendLinked(bus, d);
    assert forall i :: 0 <= i < |bus.deadLetters| ==>
        LetterLinked(bus.events, bus.deliveries, bus.deadLetters[i], bus.issued);
    LetterAppendLinked(bus.(deliveries := bus.deliveries + [d], issued := bus.issued + 1), r);
  }

  lemma LogFailureLinked(world: World, bus: Bus, e: Envelope, s: Subscription, error: string)
    requires Linked(bus) && e in bus.events
    ensures Linked(LogFailure(world, bus, e, s, error).0)
    ensures Extends(bus, LogFailure(world, bus, e, s, error).0)
  {
    if world.disk(bus.writes) {
      FailureAppendLinked(
        bus, ErrDelivery(bus.issued, e, s, MaxAttempts(s), error), Letter(bus.issued, e, s, MaxAttempts(s), error));
    } else {
      CountersKeepLinks(bus, bus.issued + 1, bus.calls, bus.writes);
    }
  }

  /** Where one delivery ends: schema rejection, a runner error, a logged success or a logged failure. */
  lemma DeliverCases(world: World, bus: Bus, e: Envelope, s: Subscription)
    ensures var next := Deliver(world, bus, e, s).0;
            var a := Attempts(world, bus.calls, s);
            var called := bus.(calls := bus.calls + AttemptCount(a, MaxAttempts(s)));
            || next == bus
            || (a.Broke? && next == called)
            || (a.Delivered? && a.attempts >= 1 && next == LogSuccess(world, called, e, s, a.attempts).0)
            || (a.Exhausted? && next == LogFailure(world, called, e, s, a.error).0)
  {
    RetryMeaning(world.runner, bus.calls, MaxAttempts(s), 0, "");
  }

  lemma DeliverLinked(world: World, bus: Bus, e: Envelope, s: Subscription)
    requires Linked(bus) && e in bus.events
    ensures Linked(Deliver(world, bus, e, s).0)
    ensures Extends(bus, Deliver(world, bus, e, s).0)
  {
    var next := Deliver(world, bus, e, s).0;
    var a := Attempts(world, bus.calls, s);
    var called := bus.(calls := bus.calls + AttemptCount(a, MaxAttempts(s)));
    CountersKeepLinks(bus, bus.issued, called.calls, bus.writes);
    DeliverCases(world, bus, e, s);
    if a.Delivered? && a.attempts >= 1 && next == LogSuccess(world, called, e, s, a.attempts).0 {
      LogSuccessLinked(world, called, e, s, a.attempts);
      ExtendsTransitive(bus, called, next);
    } else if a.Exhausted? && next == LogFailure(world, called, e, s, a.error).0 {
      LogFailureLinked(world, called, e, s, a.error);
      ExtendsTransitive(bus, called, next);
    }
  }

  lemma ExtendsTransitive(a: Bus, b: Bus, c: Bus)
    requires Extends(a, b) && Extends(b, c)
    ensures Extends(a, c)
  {
  }

  lemma {:induction false} DeliverAllLinked(
      world: World, bus: Bus, e: Envelope, subs: seq<Subscription>, report: Report)
    requires Linked(bus) && e in bus.events
    ensures Linked(DeliverAll(world, bus, e, subs, report).0)
    ensures Extends(bus, DeliverAll(world, bus, e, subs, report).0)
    decreases |subs|
  {
    if subs != [] {
      DeliverLinked(world, bus, e, subs[0]);
      var (mid, result) := Deliver(world, bus, e, subs[0]);
      assert mid.events == bus.events;
      if result.Ok? {
        DeliverAllLinked(world, mid, e, subs[1..], Count(report, result.value));
        ExtendsTransitive(bus, mid, DeliverAll(world, mid, e, subs[1..], Count(report, result.value)).0);
      }
    }
  }

  lemma BeginLinked(bus: Bus, e: Envelope)
    requires Linked(bus) && IdLinked(e.eventId, bus.deadLetters, bus.issued)
    ensures Linked(Begun(bus, e)) && e in Begun(bus, e).events && Extends(bus, Begun(bus, e))
  {
    EventAppendLinked(bus, e);
    CountersKeepLinks(bus.(events := bus.events + [e]), bus.issued, bus.calls, bus.writes + 1);
  }

  lemma PublishLinked(
      world: World, bus: Bus, topics: seq<Topic>, subs: seq<Subscription>, request: Request,
      only: Option<string>, replayOf: Option<nat>)
    requires Linked(bus)
    requires replayOf.Some? ==> replayOf.value in LetterIds(bus.deadLetters)
    ensures var next := Publish(world, bus, topics, subs, request, only, replayOf).0;
            Linked(next) && Extends(if Accepted(world, topics, request) then Numbered(bus, replayOf) else bus, next)
  {
    PublishCases(world, bus, topics, subs, request, only, replayOf);
    if Accepted(world, topics, request) {
      var e, numbered := NewEvent(bus, topics, request, replayOf), Numbered(bus, replayOf);
      CountersKeepLinks(bus, numbered.issued, bus.calls, bus.writes);
      if world.disk(bus.writes) {
        var matched := Filter(subs, Matches(world, e, only));
        var report := Report(|matched|, 0, 0);
        BeginLinked(numbered, e);
        DeliverAllLinked(world, Begun(numbered, e), e, matched, report);
        ExtendsTransitive(
          numbered, Begun(numbered, e), DeliverAll(world, Begun(numbered, e), e, matched, report).0);
      } else {
        CountersKeepLinks(numbered, numbered.issued, bus.calls, bus.writes + 1);
      }
    }
  }

  lemma ExecuteLinked(world: World, bus: Bus, c: Command)
    requires Linked(bus)
    ensures Linked(Execute(world, bus, c).0)
    ensures Extends(bus, Execute(world, bus, c).0)
  {
    match c
    case PublishCommand(topics, subs, request) =>
      PublishLinked(world, bus, topics, subs, request, None, None);
    case ReplayCommand(topics, subs, eventId, deliveryId) =>
      if deliveryId.Some? {
        var letter := First(bus.deadLetters, HasDeliveryId(deliveryId.value));
        if letter.Some? {
          var r := letter.value;
          IssuedId(bus.deadLetters, r);
          PublishLinked(world, bus, topics, subs, RequestOf(r.event), Some(r.subscriptionId), Some(r.deliveryId));
        }
      } else if eventId.Some? {
        var event := First(bus.events, HasEventId(eventId.value));
        if event.Some? {
          PublishLinked(world, bus, topics, subs, RequestOf(event.value), None, None);
        }
      }
  }

  /** Over every history, aborted runs included, the logs only grow and stay linked. */
  lemma {:induction false} HistoryLinked(world: World, bus: Bus, commands: seq<Command>)
    requires Linked(bus)
    ensures Linked(ExecuteAll(world, bus, commands))
    ensures Extends(bus, ExecuteAll(world, bus, commands))
    decreases |commands|
  {
    if commands != [] {
      var next := Execute(world, bus, commands[0]).0;
      ExecuteLinked(world, bus, commands[0]);
      HistoryLinked(world, next, commands[1..]);
      ExtendsTransitive(bus, next, ExecuteAll(world, next, commands[1..]));
    }
  }

  /** The invariant in plain terms. */
  lemma LinkedMeaning(bus: Bus)
    requires Linked(bus)
    ensures forall d :: d in bus.deliveries ==> exists e :: e in bus.events && e.eventId == d.eventId
    ensures forall r :: r in bus.deadLetters ==> r.event in bus.events && Shadow(r) in bus.deliveries
    ensures forall id :: ReplayOf(id) in EventIds(bus.events) ==>
              exists r :: r in bus.deadLetters && r.deliveryId == id
  {
    forall d | d in bus.deliveries ensures exists e :: e in bus.events && e.eventId == d.eventId {
      assert DeliveryLinked(bus.events, d, bus.issued);
      var i :| 0 <= i < |bus.events| && EventIds(bus.events)[i] == d.eventId;
      assert bus.events[i] in bus.events;
    }
    forall r | r in bus.deadLetters ensures r.event in bus.events && Shadow(r) in bus.deliveries {
      assert LetterLinked(bus.events, bus.deliveries, r, bus.issued);
    }
    forall id | ReplayOf(id) in EventIds(bus.events)
      ensures exists r :: r in bus.deadLetters && r.deliveryId == id
    {
      var i :| 0 <= i < |bus.events| && EventIds(bus.events)[i] == ReplayOf(id);
      assert IdLinked(bus.events[i].eventId, bus.deadLetters, bus.issued);
      var k :| 0 <= k < |bus.deadLetters| && LetterIds(bus.deadLetters)[k] == id;
      assert bus.deadLetters[k] in bus.deadLetters;
    }
  }

  // ----- failed deliveries and dead letters in step

  function ShadowOf(): DeadLetter -> Option<Delivery> { r => Some(Shadow(r)) }

  function IsFailed(): Delivery -> bool { (d: Delivery) => !d.ok }

  /** The dead letters are, one for one and in order, the failed deliveries. */
  ghost predicate InStep(bus: Bus) {
    Collect(bus.deadLetters, ShadowOf()) == Filter(bus.deliveries, IsFailed())
  }

  function Surplus(bus: Bus): int { |Filter(bus.deliveries, IsFailed())| - |bus.deadLetters| }

  function Lost(result: Failure): nat { if result.DeadLetterNotWritten? then 1 else 0 }

  function LostBy<T>(result: Result<T>): nat { if result.Err? then Lost(result.failure) else 0 }

  /** A call that ends in `result` keeps the logs in step unless it lost a dead letter, and then
      leaves one failed delivery more. */
  ghost predicate Balanced<T>(bus: Bus, next: Bus, result: Result<T>) {
    && Surplus(next) == Surplus(bus) + LostBy(result)
    && (InStep(bus) && LostBy(result) == 0 ==> InStep(next))
  }

  lemma DeliverLedger(world: World, bus: Bus, e: Envelope, s: Subscription)
    ensures Balanced(bus, Deliver(world, bus, e, s).0, Deliver(world, bus, e, s).1)
  {
    var (next, result) := Deliver(world, bus, e, s);
    if |next.deliveries| > |bus.deliveries| {
      var d := next.deliveries[|bus.deliveries|];
      assert next.deliveries == bus.deliveries + [d];
      FilterAppend(bus.deliveries, d, IsFailed());
      if |next.deadLetters| > |bus.deadLetters| {
        var r := next.deadLetters[|bus.deadLetters|];
        assert next.deadLetters == bus.deadLetters + [r];
        CollectAppend(bus.deadLetters, r, ShadowOf());
      }
    }
  }

  lemma {:induction false} DeliverAllLedger(
      world: World, bus: Bus, e: Envelope, subs: seq<Subscription>, report: Report)
    ensures Balanced(bus, DeliverAll(world, bus, e, subs, report).0, DeliverAll(world, bus, e, subs, report).1)
    decreases |subs|
  {
    if subs != [] {
      DeliverLedger(world, bus, e, subs[0]);
      var (mid, result) := Deliver(world, bus, e, subs[0]);
      if result.Ok? {
        DeliverAllLedger(world, mid, e, subs[1..], Count(report, result.value));
      }
    }
  }

  lemma PublishLedger(
      world: World, bus: Bus, topics: seq<Topic>, subs: seq<Subscription>, request: Request,
      only: Option<string>, replayOf: Option<nat>)
    ensures var (next, result) := Publish(world, bus, topics, subs, request, only, replayOf);
            Balanced(bus, next, result)
  {
    PublishCases(world, bus, topics, subs, request, only, replayOf);
    if Accepted(world, topics, request) && world.disk(bus.writes) {
      var e := NewEvent(bus, topics, request, replayOf);
      var matched := Filter(subs, Matches(world, e, only));
      DeliverAllLedger(world, Begun(Numbered(bus, replayOf), e), e, matched, Report(|matched|, 0, 0));
    }
  }

  lemma ExecuteLedger(world: World, bus: Bus, c: Command)
    ensures Balanced(bus, Execute(world, bus, c).0, Execute(world, bus, c).1)
  {
    match c
    case PublishCommand(topics, subs, request) =>
      PublishLedger(world, bus, topics, subs, request, None, None);
    case ReplayCommand(topics, subs, eventId, deliveryId) =>
      if deliveryId.Some? {
        var letter := First(bus.deadLetters, HasDeliveryId(deliveryId.value));
        if letter.Some? {
          var r := letter.value;
          PublishLedger(world, bus, topics, subs, RequestOf(r.event), Some(r.subscriptionId), Some(r.deliveryId));
        }
      } else if eventId.Some? {
        var event := First(bus.events, HasEventId(eventId.value));
        if event.Some? {
          PublishLedger(world, bus, topics, subs, RequestOf(event.value), None, None);
        }
      }
  }

  /** How many commands of a history ended because a dead letter could not be written. */
  function LostLetters(world: World, bus: Bus, commands: seq<Command>): nat
    decreases |commands|
  {
    if commands == [] then 0
    else
      var (next, result) := Execute(world, bus, commands[0]);
      LostBy(result) + LostLetters(world, next, commands[1..])
  }

  lemma {:induction false} HistoryLedgerStep(world: World, bus: Bus, commands: seq<Command>)
    ensures var last := ExecuteAll(world, bus, commands);
            && Surplus(last) == Surplus(bus) + LostLetters(world, bus, commands)
            && (InStep(bus) && LostLetters(world, bus, commands) == 0 ==> InStep(last))
    decreases |commands|
  {
    if commands != [] {
      ExecuteLedger(world, bus, commands[0]);
      HistoryLedgerStep(world, Execute(world, bus, commands[0]).0, commands[1..]);
    }
  }

  lemma {:induction false} ShadowsLength(letters: seq<DeadLetter>)
    ensures |Collect(letters, ShadowOf())| == |letters|
  {
    if letters != [] {
      ShadowsLength(letters[1..]);
    }
  }

  /** Over every history from empty logs, the dead letters are one for one and in order the failed
      deliveries exactly when no command ended with an unwritten dead letter; otherwise there are
      that many more failed deliveries. */
  lemma {:induction false} HistoryLedger(world: World, commands: seq<Command>)
    ensures var last := ExecuteAll(world, EMPTY, commands);
            && (InStep(last) <==> LostLetters(world, EMPTY, commands) == 0)
            && |Filter(last.deliveries, IsFailed())| == |last.deadLetters| + LostLetters(world, EMPTY, commands)
  {
    HistoryLedgerStep(world, EMPTY, commands);
    ShadowsLength(ExecuteAll(world, EMPTY, commands).deadLetters);
  }

  ghost predicate DiskWorks(world: World) { forall n :: world.disk(n) }

  lemma {:induction false} DeliverAllLosesNothing(
      world: World, bus: Bus, e: Envelope, subs: seq<Subscription>, report: Report)
    requires DiskWorks(world)
    ensures LostBy(DeliverAll(world, bus, e, subs, report).1) == 0
    decreases |subs|
  {
    if subs != [] {
      var (mid, result) := Deliver(world, bus, e, subs[0]);
      if result.Ok? {
        DeliverAllLosesNothing(world, mid, e, subs[1..], Count(report, result.value));
      }
    }
  }

  lemma ExecuteLosesNothing(world: World, bus: Bus, c: Command)
    requires DiskWorks(world)
    ensures LostBy(Execute(world, bus, c).1) == 0
  {
    forall b: Bus, e: Envelope, subs: seq<Subscription>, report: Report
      ensures LostBy(DeliverAll(world, b, e, subs, report).1) == 0
    {
      DeliverAllLosesNothing(world, b, e, subs, report);
    }
  }

  lemma {:induction false} HistoryLosesNothing(world: World, bus: Bus, commands: seq<Command>)
    requires DiskWorks(world)
    ensures LostLetters(world, bus, commands) == 0
    decreases |commands|
  {
    if commands != [] {
      ExecuteLosesNothing(world, bus, commands[0]);
      HistoryLosesNothing(world, Execute(world, bus, commands[0]).0, commands[1..]);
    }
  }

  /** When every append succeeds, dead letters and failed deliveries are in step over every history,
      whatever the runner and the schemas do. */
  lemma WorkingDiskKeepsInStep(world: World, commands: seq<Command>)
    requires DiskWorks(world)
    ensures InStep(ExecuteAll(world, EMPTY, commands))
  {
    HistoryLosesNothing(world, EMPTY, commands);
    HistoryLedger(world, commands);
  }

  /** From empty logs every history is linked. */
  lemma {:induction false} EveryHistoryIsLinked(world: World, before: seq<Command>, after: seq<Command>)
    ensures Linked(ExecuteAll(world, EMPTY, before + after))
    ensures Extends(ExecuteAll(world, EMPTY, before), ExecuteAll(world, EMPTY, before + after))
  {
    HistoryLinked(world, EMPTY, before);
    ExecuteAllConcat(world, EMPTY, before, after);
    HistoryLinked(world, ExecuteAll(world, EMPTY, before), after);
  }

  lemma {:induction false} ExecuteAllConcat(world: World, bus: Bus, a: seq<Command>, b: seq<Command>)
    ensures ExecuteAll(world, bus, a + b) == ExecuteAll(world, ExecuteAll(world, bus, a), b)
    decreases |a|
  {
    if a == [] {
      assert a + b == b;
    } else {
      ExecuteAllConcat(world, Execute(world, bus, a[0]).0, a[1..], b);
      assert (a + b)[1..] == a[1..] + b;
    }
  }

  // ----- event identifiers

  /** The identifier of the event the command logs, if it logs one. */
  function CommandEventId(bus: Bus, c: Command): EventId {
    if c.ReplayCommand? && c.deliveryId.Some? then ReplayOf(c.deliveryId.value) else Uuid(bus.issued)
  }

  predicate Logs(world: World, bus: Bus, c: Command) { |Execute(world, bus, c).0.events| > |bus.events| }

  /** How many commands of a history replay this dead letter and log the event. */
  function ReplaysLogged(world: World, bus: Bus, commands: seq<Command>, letter: nat): nat
    decreases |commands|
  {
    if commands == [] then 0
    else
      var c := commands[0];
      (if c.ReplayCommand? && c.deliveryId == Some(letter) && Logs(world, bus, c) then 1 else 0)
      + ReplaysLogged(world, Execute(world, bus, c).0, commands[1..], letter)
  }

  lemma PublishLogsOne(
      world: World, bus: Bus, topics: seq<Topic>, subs: seq<Subscription>, request: Request,
      only: Option<string>, replayOf: Option<nat>)
    requires Linked(bus) && (replayOf.Some? ==> replayOf.value in LetterIds(bus.deadLetters))
    ensures var next := Publish(world, bus, topics, subs, request, only, replayOf).0;
            && |bus.events| <= |next.events|
            && (|next.events| > |bus.events| ==>
                  EventIds(next.events) == EventIds(bus.events) + [NewEventId(bus, replayOf)]
                  && (replayOf.None? ==> bus.issued < next.issued))
  {
    PublishCases(world, bus, topics, subs, request, only, replayOf);
    if Accepted(world, topics, request) && world.disk(bus.writes) {
      var e, numbered := NewEvent(bus, topics, request, replayOf), Numbered(bus, replayOf);
      PublishLinked(world, bus, topics, subs, request, only, replayOf);
      var matched := Filter(subs, Matches(world, e, only));
      DeliverAllKeepsEvents(world, Begun(numbered, e), e, matched, Report(|matched|, 0, 0));
      assert EventIds(bus.events + [e]) == EventIds(bus.events) + [e.eventId];
    }
  }

  lemma ExecuteLogsOne(world: World, bus: Bus, c: Command)
    requires Linked(bus)
    ensures var next := Execute(world, bus, c).0;
            && (!Logs(world, bus, c) ==> next.events == bus.events)
            && (Logs(world, bus, c) ==>
                  EventIds(next.events) == EventIds(bus.events) + [CommandEventId(bus, c)]
                  && (CommandEventId(bus, c).Uuid? ==> bus.issued < next.issued))
  {
    ExecuteLinked(world, bus, c);
    match c
    case PublishCommand(topics, subs, request) =>
      PublishLogsOne(world, bus, topics, subs, request, None, None);
    case ReplayCommand(topics, subs, eventId, deliveryId) =>
      if deliveryId.Some? {
        var letter := First(bus.deadLetters, HasDeliveryId(deliveryId.value));
        if letter.Some? {
          var r := letter.value;
          IssuedId(bus.deadLetters, r);
          PublishLogsOne(world, bus, topics, subs, RequestOf(r.event), Some(r.subscriptionId), Some(r.deliveryId));
        }
      } else if eventId.Some? {
        var event := First(bus.events, HasEventId(eventId.value));
        if event.Some? {
          PublishLogsOne(world, bus, topics, subs, RequestOf(event.value), None, None);
        }
      }
  }

  function IdCount(events: seq<Envelope>, id: EventId): nat { multiset(EventIds(events))[id] }

  lemma UnissuedIdIsAbsent(bus: Bus, n: nat)
    requires Linked(bus) && bus.issued <= n
    ensures IdCount(bus.events, Uuid(n)) == 0
  {
    forall i | 0 <= i < |bus.events| ensures EventIds(bus.events)[i] != Uuid(n) {
      assert IdLinked(bus.events[i].eventId, bus.deadLetters, bus.issued);
    }
  }

  /** A random identifier is logged at most once, a replay identifier once for each logged replay. */
  lemma {:induction false} IdCounts(world: World, bus: Bus, commands: seq<Command>, id: EventId)
    requires Linked(bus) && (id.Uuid? ==> IdCount(bus.events, id) <= 1)
    ensures var last := ExecuteAll(world, bus, commands);
            match id
            case Uuid(_) => IdCount(last.events, id) <= 1
            case ReplayOf(letter) =>
              IdCount(last.events, id) == IdCount(bus.events, id) + ReplaysLogged(world, bus, commands, letter)
    decreases |commands|
  {
    if commands != [] {
      var c := commands[0];
      var next := Execute(world, bus, c).0;
      ExecuteLinked(world, bus, c);
      ExecuteLogsOne(world, bus, c);
      if Logs(world, bus, c) {
        assert IdCount(next.events, id) == IdCount(bus.events, id) + if id == CommandEventId(bus, c) then 1 else 0;
        UnissuedIdIsAbsent(bus, bus.issued);
      }
      IdCounts(world, next, commands[1..], id);
    }
  }

  ghost predicate Distinct<T>(s: seq<T>) { forall i, j :: 0 <= i < j < |s| ==> s[i] != s[j] }

  lemma {:induction false} DistinctIffCounts<T(!new)>(s: seq<T>)
    ensures Distinct(s) <==> forall x :: multiset(s)[x] <= 1
  {
    if s != [] {
      var front, last := s[..|s| - 1], s[|s| - 1];
      DistinctIffCounts(front);
      assert s == front + [last];
      assert Distinct(s) <==> Distinct(front) && last !in front;
      assert last in front <==> multiset(front)[last] > 0;
      if forall x :: multiset(s)[x] <= 1 {
        assert forall x :: multiset(front)[x] <= multiset(s)[x];
        assert multiset(s)[last] == multiset(front)[last] + 1;
      }
    }
  }

  /** Over every history from empty logs, event identifiers are unique exactly when no dead letter's
      replay was logged twice. */
  lemma {:induction false} EventIdsUniqueIff(world: World, commands: seq<Command>)
    ensures Distinct(EventIds(ExecuteAll(world, EMPTY, commands).events)) <==>
            forall letter: nat :: ReplaysLogged(world, EMPTY, commands, letter) <= 1
  {
    var last := ExecuteAll(world, EMPTY, commands);
    DistinctIffCounts(EventIds(last.events));
    if forall letter: nat :: ReplaysLogged(world, EMPTY, commands, letter) <= 1 {
      forall id: EventId ensures multiset(EventIds(last.events))[id] <= 1 {
        IdCounts(world, EMPTY, commands, id);
      }
    } else {
      var letter: nat :| ReplaysLogged(world, EMPTY, commands, letter) > 1;
      IdCounts(world, EMPTY, commands, ReplayOf(letter));
      assert multiset(EventIds(last.events))[ReplayOf(letter)] > 1;
    }
  }

  // ----- a dead letter replayed twice

  /** A dead letter whose event's topic is still defined and accepted is logged again by a replay. */
  lemma ReplayLogs(world: World, bus: Bus, topics: seq<Topic>, subs: seq<Subscription>, r: DeadLetter)
    requires Linked(bus) && r in bus.deadLetters && world.disk(bus.writes)
    requires Accepted(world, topics, RequestOf(r.event))
    ensures var next := Execute(world, bus, ReplayCommand(topics, subs, None, Some(r.deliveryId))).0;
            EventIds(next.events) == EventIds(bus.events) + [ReplayOf(r.deliveryId)]
            && Linked(next) && r in next.deadLetters
  {
    var c := ReplayCommand(topics, subs, None, Some(r.deliveryId));
    var next := Execute(world, bus, c).0;
    var i :| 0 <= i < |bus.deadLetters| && bus.deadLetters[i] == r;
    LetterFound(bus.deadLetters, i);
    PublishLogsTheEventIff(
      world, bus, topics, subs, RequestOf(r.event), Some(r.subscriptionId), Some(r.deliveryId));
    ExecuteLogsOne(world, bus, c);
    ExecuteLinked(world, bus, c);
    assert next.deadLetters[i] == r;
  }

  /** Replaying such a letter twice logs two events with one identifier. */
  lemma {:induction false} ReplayedTwice(
      world: World, bus: Bus, topics: seq<Topic>, subs: seq<Subscription>, r: DeadLetter)
    requires Linked(bus) && r in bus.deadLetters && DiskWorks(world)
    requires Accepted(world, topics, RequestOf(r.event))
    ensures var c := ReplayCommand(topics, subs, None, Some(r.deliveryId));
            !Distinct(EventIds(ExecuteAll(world, bus, [c, c]).events))
  {
    var c := ReplayCommand(topics, subs, None, Some(r.deliveryId));
    var once := Execute(world, bus, c).0;
    ReplayLogs(world, bus, topics, subs, r);
    ReplayLogs(world, once, topics, subs, r);
    ExecuteTwo(world, bus, c, c);
    NotDistinctTwice(EventIds(bus.events), ReplayOf(r.deliveryId));
  }

  lemma NotDistinctTwice<T>(s: seq<T>, x: T)
    ensures !Distinct(s + [x] + [x])
  {
    var t := s + [x] + [x];
    assert t[|s|] == t[|s| + 1] == x;
  }

  lemma ExecuteTwo(world: World, bus: Bus, a: Command, b: Command)
    ensures ExecuteAll(world, bus, [a, b]) == Execute(world, Execute(world, bus, a).0, b).0
  {
    var two, one := [a, b], [b];
    assert two[1..] == one && one[1..] == [];
    assert ExecuteAll(world, bus, two) == ExecuteAll(world, Execute(world, bus, a).0, one);
  }

  /** A first publish that fails: one topic, one subscription with a single attempt, a runner that
      reports failure. */
  lemma FailedPublish(world: World, t: Topic, s: Subscription, request: Request)
    requires NamesTopic(request)(t) && t.schemaRef.None?
    requires s.topic == t.topic && s.eventType == t.eventType && s.schemaRef.None? && s.filterPointer.None?
    requires s.maxAttempts == 1 && FailedReply(world.runner(0)) && world.disk(0) && world.disk(1) && world.disk(2)
    ensures var next := Execute(world, EMPTY, PublishCommand([t], [s], request)).0;
            next.deadLetters
            == [Letter(1, EnvelopeFor(t, request, Uuid(0)), s, 1, ErrorText(world.runner(0)))]
  {
    var e := EnvelopeFor(t, request, Uuid(0));
    var subs, topics := [s], [t];
    assert subs[1..] == [];
    assert Filter(subs, Matches(world, e, None)) == subs;
    assert First(topics, NamesTopic(request)) == Some(t);
    var begun := Begun(EMPTY.(issued := 1), e);
    assert Attempts(world, 0, s) == Exhausted(ErrorText(world.runner(0)));
    assert Deliver(world, begun, e, s) == LogFailure(world, begun.(calls := 1), e, s, ErrorText(world.runner(0)));
    assert DeliverAll(world, begun, e, subs, Report(1, 0, 0)).0 == Deliver(world, begun, e, s).0;
  }

  /** A history whose event identifiers are not unique: publish to a failing subscription, then replay
      its dead letter twice. */
  lemma IdsCanRepeat(world: World, t: Topic, s: Subscription, request: Request)
    requires NamesTopic(request)(t) && t.schemaRef.None?
    requires s.topic == t.topic && s.eventType == t.eventType && s.schemaRef.None? && s.filterPointer.None?
    requires s.maxAttempts == 1 && FailedReply(world.runner(0)) && DiskWorks(world)
    ensures var publish, replay := PublishCommand([t], [s], request), ReplayCommand([t], [s], None, Some(1));
            !Distinct(EventIds(ExecuteAll(world, EMPTY, [publish] + [replay, replay]).events))
  {
    var publish, replay := PublishCommand([t], [s], request), ReplayCommand([t], [s], None, Some(1));
    var after := Execute(world, EMPTY, publish).0;
    var r := Letter(1, EnvelopeFor(t, request, Uuid(0)), s, 1, ErrorText(world.runner(0)));
    FailedPublish(world, t, s, request);
    ExecuteLinked(world, EMPTY, publish);
    assert r == after.deadLetters[0];
    assert First([t], NamesTopic(RequestOf(r.event))) == Some(t);
    ReplayedTwice(world, after, [t], [s], r);
    ExecuteAllConcat(world, EMPTY, [publish], [replay, replay]);
    assert [publish][1..] == [];
    assert ExecuteAll(world, EMPTY, [publish]) == after;
  }

  /** With unique identifiers a replay by event identifier replays the event that has it. */
  lemma {:induction false} UniqueIdFindsTheEvent(events: seq<Envelope>, i: nat)
    requires i < |events| && Distinct(EventIds(events))
    ensures First(events, HasEventId(events[i].eventId)) == Some(events[i])
  {
    if i > 0 {
      assert EventIds(events)[0] != EventIds(events)[i];
      assert EventIds(events)[1..] == EventIds(events[1..]);
      UniqueIdFindsTheEvent(events[1..], i - 1);
    }
  }

  // ----- what a replay of a dead letter reaches

  function HasId(id: string): Subscription -> bool { (s: Subscription) => s.id == id }

  lemma {:induction false} NewLettersComeFromMatches(
      world: World, bus: Bus, e: Envelope, subs: seq<Subscription>, report: Report, i: nat)
    requires |bus.deadLetters| <= i < |DeliverAll(world, bus, e, subs, report).0.deadLetters|
    ensures var r := DeliverAll(world, bus, e, subs, report).0.deadLetters[i];
            r.event == e && exists s :: s in subs && s.id == r.subscriptionId
    decreases |subs|
  {
    var (mid, result) := Deliver(world, bus, e, subs[0]);
    assert subs[0] in subs;
    if result.Ok? {
      if i >= |mid.deadLetters| {
        var r := DeliverAll(world, bus, e, subs, report).0.deadLetters[i];
        NewLettersComeFromMatches(world, mid, e, subs[1..], Count(report, result.value), i);
        var s :| s in subs[1..] && s.id == r.subscriptionId;
        assert s in subs;
      } else {
        DeliverAllKeepsLetters(world, mid, e, subs[1..], Count(report, result.value));
      }
    }
  }

  lemma {:induction false} DeliverAllKeepsLetters(
      world: World, bus: Bus, e: Envelope, subs: seq<Subscription>, report: Report)
    ensures bus.deadLetters <= DeliverAll(world, bus, e, subs, report).0.deadLetters
    decreases |subs|
  {
    if subs != [] {
      var (mid, result) := Deliver(world, bus, e, subs[0]);
      if result.Ok? {
        DeliverAllKeepsLetters(world, mid, e, subs[1..], Count(report, result.value));
      }
    }
  }

  /** Naming the event type of the topic that was found finds the same topic again. */
  lemma {:induction false} SameTopicAgain(topics: seq<Topic>, request: Request, again: Request)
    requires First(topics, NamesTopic(request)).Some?
    requires var t := First(topics, NamesTopic(request)).value;
             again.topic == t.topic && again.eventType == Some(t.eventType)
    ensures First(topics, NamesTopic(again)) == First(topics, NamesTopic(request))
  {
    if !NamesTopic(request)(topics[0]) {
      SameTopicAgain(topics[1..], request, again);
    }
  }

  /**
   A dead letter left by a publish or an earlier replay, replayed at any later time against the same
   topics and subscriptions, is found, resolves to the very topic record of the first publish, passes
   its schema, and matches exactly the subscriptions matched then that have its subscription
   identifier: at least one, and no others.
   */
  lemma ReplayReachesTheSameSubscriptions(
      world: World, bus: Bus, topics: seq<Topic>, subs: seq<Subscription>, request: Request,
      only: Option<string>, replayOf: Option<nat>, later: Bus, i: nat, eventId: Option<EventId>)
    requires var after := Publish(world, bus, topics, subs, request, only, replayOf).0;
             |bus.deadLetters| <= i < |after.deadLetters| && after.deadLetters <= later.deadLetters
    requires Linked(later)
    ensures var r := later.deadLetters[i];
            var topic := First(topics, NamesTopic(request));
            var matchedThen := Filter(subs, Matches(world, r.event, only));
            var again := EnvelopeFor(topic.value, RequestOf(r.event), ReplayOf(r.deliveryId));
            && topic.Some?
            && First(topics, NamesTopic(RequestOf(r.event))) == topic
            && again == r.event.(eventId := ReplayOf(r.deliveryId))
            && Replay(world, later, topics, subs, eventId, Some(r.deliveryId))
               == PublishEnvelope(world, later, subs, again, Some(r.subscriptionId))
            && Filter(subs, Matches(world, again, Some(r.subscriptionId)))
               == Filter(matchedThen, HasId(r.subscriptionId)) != []
  {
    var r := later.deadLetters[i];
    NewLetterOfPublish(world, bus, topics, subs, request, only, replayOf, i);
    SameTopicAgain(topics, request, RequestOf(r.event));
    LetterFound(later.deadLetters, i);
    MatchedAgain(world, subs, r.event, r.event.(eventId := ReplayOf(r.deliveryId)), only, r.subscriptionId);
  }

  /** A dead letter left by a publish holds that publish's envelope and names a matched subscription. */
  lemma NewLetterOfPublish(
      world: World, bus: Bus, topics: seq<Topic>, subs: seq<Subscription>, request: Request,
      only: Option<string>, replayOf: Option<nat>, i: nat)
    requires |bus.deadLetters| <= i
    requires i < |Publish(world, bus, topics, subs, request, only, replayOf).0.deadLetters|
    ensures var r := Publish(world, bus, topics, subs, request, only, replayOf).0.deadLetters[i];
            var topic := First(topics, NamesTopic(request));
            && topic.Some?
            && SchemaPasses(world, topic.value.packPath, topic.value.schemaRef, request.payload)
            && r.event == EnvelopeFor(topic.value, request, NewEventId(bus, replayOf))
            && exists s :: s in Filter(subs, Matches(world, r.event, only)) && s.id == r.subscriptionId
  {
    PublishCases(world, bus, topics, subs, request, only, replayOf);
    assert Accepted(world, topics, request);
    var e := NewEvent(bus, topics, request, replayOf);
    var matched := Filter(subs, Matches(world, e, only));
    NewLettersComeFromMatches(
      world, Begun(Numbered(bus, replayOf), e), e, matched, Report(|matched|, 0, 0), i);
  }

  lemma {:induction false} LetterFound(letters: seq<DeadLetter>, i: nat)
    requires i < |letters|
    requires forall j, k :: 0 <= j < k < |letters| ==> letters[j].deliveryId < letters[k].deliveryId
    ensures First(letters, HasDeliveryId(letters[i].deliveryId)) == Some(letters[i])
  {
    if i > 0 {
      assert letters[0].deliveryId < letters[i].deliveryId;
      LetterFound(letters[1..], i - 1);
    }
  }

  lemma MatchedAgain(
      world: World, subs: seq<Subscription>, e: Envelope, again: Envelope, only: Option<string>, id: string)
    requires again == e.(eventId := again.eventId)
    requires exists s :: s in Filter(subs, Matches(world, e, only)) && s.id == id
    ensures Filter(subs, Matches(world, again, Some(id)))
         == Filter(Filter(subs, Matches(world, e, only)), HasId(id)) != []
  {
    var matched := Filter(subs, Matches(world, e, only));
    var s :| s in matched && s.id == id;
    FilterMembers(subs, Matches(world, e, only));
    FilterMembers(matched, HasId(id));
    assert only.Some? ==> only.value == id;
    FilterTwice(subs, Matches(world, e, only), HasId(id), Matches(world, again, Some(id)));
    assert s in Filter(matched, HasId(id));
  }
}
