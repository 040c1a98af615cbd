/**
 The capability event bus: publish with retries, a delivery log, a dead-letter log, and replay.

 Everything outside the bus is an oracle: whether a schema accepts a payload, what a JSON pointer
 finds, how the runner answers its n-th invocation, and whether the n-th log append succeeds.
 Random identifiers come from a supply of fresh numbers.  An append that fails leaves no record.
 */
module EventBus {
  import opened Sequences

  type Payload = string

  datatype Topic = Topic(
    topic: string, eventType: string, packId: string, packPath: string, schemaRef: Option<string>)

  datatype Subscription = Subscription(
    id: string, topic: string, eventType: string, packPath: string, capabilityId: string, op: string,
    schemaRef: Option<string>, filterPointer: Option<string>, filterEquals: Option<string>, maxAttempts: nat)

  datatype Request = Request(
    topic: string, eventType: Option<string>, payload: Payload,
    correlationId: Option<string>, source: Option<string>)

  /** A replay of a dead letter names its event after the delivery it replays. */
  datatype EventId = Uuid(n: nat) | ReplayOf(delivery: nat)

  datatype Envelope = Envelope(
    eventId: EventId, topic: string, eventType: string, payload: Payload,
    correlationId: Option<string>, source: Option<string>)

  datatype Delivery = Delivery(
    id: nat, eventId: EventId, subscriptionId: string, capabilityId: string, op: string,
    ok: bool, attempts: nat, error: Option<string>)

  datatype DeadLetter = DeadLetter(
    deliveryId: nat, event: Envelope, subscriptionId: string, capabilityId: string, op: string,
    attempts: nat, error: string)

  datatype Report = Report(matched: nat, successful: nat, failed: nat)

  datatype Failure =
    | TopicUndefined | PayloadRejected | SubscriptionPayloadRejected | RunnerFailed
    | EventNotWritten | DeliveryNotWritten | DeadLetterNotWritten
    | DeadLetterNotFound | EventNotFound | NothingToReplay

  datatype Result<+T> = Ok(value: T) | Err(failure: Failure)

  /** The runner's answer to one invocation: an error, or an outcome. */
  datatype Reply = Broken | Outcome(success: bool, error: Option<string>)

  datatype World = World(
    accepts: (string, string, Payload) -> bool,
    pointer: (Payload, string) -> Option<string>,
    runner: nat -> Reply,
    disk: nat -> bool)

  /** The three logs, and how far the supplies of identifiers, runner replies and appends are used. */
  datatype Bus = Bus(
    events: seq<Envelope>, deliveries: seq<Delivery>, deadLetters: seq<DeadLetter>,
    issued: nat, calls: nat, writes: nat)

  // ----- selecting the topic and the subscriptions

  function NamesTopic(request: Request): Topic -> bool {
    (t: Topic) => t.topic == request.topic && (request.eventType.Some? ==> request.eventType.value == t.eventType)
  }

  predicate MatchesFilter(world: World, s: Subscription, payload: Payload) {
    s.filterPointer.None? || s.filterEquals.None? ||
    world.pointer(payload, s.filterPointer.value) == Some(s.filterEquals.value)
  }

  function Matches(world: World, e: Envelope, only: Option<string>): Subscription -> bool {
    (s: Subscription) => s.topic == e.topic && s.eventType == e.eventType
         && (only.Some? ==> only.value == s.id)
         && MatchesFilter(world, s, e.payload)
  }

  predicate SchemaPasses(world: World, packPath: string, schemaRef: Option<string>, payload: Payload) {
    schemaRef.Some? ==> world.accepts(packPath, schemaRef.value, payload)
  }

  // ----- the retry loop

  datatype Attempt = Delivered(attempts: nat) | Exhausted(error: string) | Broke(attempts: nat)

  const DEFAULT_ERROR := "capability invocation failed"

  function ErrorText(reply: Reply): string {
    if reply.Outcome? && reply.error.Some? then reply.error.value else DEFAULT_ERROR
  }

  predicate FailedReply(reply: Reply) { reply.Outcome? && !reply.success }

  /** The rest of the retry loop after `done` failed attempts. */
  function Retry(runner: nat -> Reply, start: nat, max: nat, done: nat, lastError: string): Attempt
    requires done <= max
    decreases max - done
  {
    if done == max then Exhausted(lastError)
    else
      var reply := runner(start + done);
      if reply.Broken? then Broke(done + 1)
      else if reply.success then Delivered(done + 1)
      else Retry(runner, start, max, done + 1, ErrorText(reply))
  }

  function MaxAttempts(s: Subscription): nat { if s.maxAttempts < 1 then 1 else s.maxAttempts }

  function Attempts(world: World, start: nat, s: Subscription): Attempt {
    Retry(world.runner, start, MaxAttempts(s), 0, "")
  }

  function AttemptCount(a: Attempt, max: nat): nat {
    match a
    case Delivered(n) => n
    case Broke(n) => n
    case Exhausted(_) => max
  }

  // ----- delivering one event

  function OkDelivery(id: nat, e: Envelope, s: Subscription, attempts: nat): Delivery {
    Delivery(id, e.eventId, s.id, s.capabilityId, s.op, true, attempts, None)
  }

  function ErrDelivery(id: nat, e: Envelope, s: Subscription, attempts: nat, error: string): Delivery {
    Delivery(id, e.eventId, s.id, s.capabilityId, s.op, false, attempts, Some(error))
  }

  function Letter(id: nat, e: Envelope, s: Subscription, attempts: nat, error: string): DeadLetter {
    DeadLetter(id, e, s.id, s.capabilityId, s.op, attempts, error)
  }

  function LogSuccess(world: World, bus: Bus, e: Envelope, s: Subscription, attempts: nat): (Bus, Result<bool>) {
    var next := bus.(issued := bus.issued + 1, writes := bus.writes + 1);
    if !world.disk(bus.writes) then (next, Err(DeliveryNotWritten))
    else (next.(deliveries := bus.deliveries + [OkDelivery(bus.issued, e, s, attempts)]), Ok(true))
  }

  function LogFailure(world: World, bus: Bus, e: Envelope, s: Subscription, error: string): (Bus, Result<bool>) {
    var max := MaxAttempts(s);
    var first := bus.(issued := bus.issued + 1, writes := bus.writes + 1);
    if !world.disk(bus.writes) then (first, Err(DeliveryNotWritten))
    else
      var second := first.(
        deliveries := bus.deliveries + [ErrDelivery(bus.issued, e, s, max, error)], writes := bus.writes + 2);
      if !world.disk(bus.writes + 1) then (second, Err(DeadLetterNotWritten))
      else (second.(deadLetters := bus.deadLetters + [Letter(bus.issued, e, s, max, error)]), Ok(false))
  }

  /** One matched subscription: Ok(true) when delivered, Ok(false) when dead-lettered. */
  function Deliver(world: World, bus: Bus, e: Envelope, s: Subscription): (Bus, Result<bool>) {
    if !SchemaPasses(world, s.packPath, s.schemaRef, e.payload) then (bus, Err(SubscriptionPayloadRejected))
    else
      var a := Attempts(world, bus.calls, s);
      var called := bus.(calls := bus.calls + AttemptCount(a, MaxAttempts(s)));
      match a
      case Broke(_) => (called, Err(RunnerFailed))
      case Delivered(n) => LogSuccess(world, called, e, s, n)
      case Exhausted(error) => LogFailure(world, called, e, s, error)
  }

  function Count(report: Report, delivered: bool): Report {
    if delivered then report.(successful := report.successful + 1) else report.(failed := report.failed + 1)
  }

  function DeliverAll(world: World, bus: Bus, e: Envelope, subs: seq<Subscription>, report: Report)
    : (Bus, Result<Report>)
    decreases |subs|
  {
    if subs == [] then (bus, Ok(report))
    else
      var (next, result) := Deliver(world, bus, e, subs[0]);
      if result.Err? then (next, Err(result.failure))
      else DeliverAll(world, next, e, subs[1..], Count(report, result.value))
  }

  // ----- publish and replay

  function EnvelopeFor(t: Topic, request: Request, id: EventId): Envelope {
    Envelope(id, t.topic, t.eventType, request.payload, request.correlationId, request.source)
  }

  function PublishEnvelope(
      world: World, bus: Bus, subs: seq<Subscription>, e: Envelope, only: Option<string>): (Bus, Result<Report>)
  {
    var written := bus.(writes := bus.writes + 1);
    if !world.disk(bus.writes) then (written, Err(EventNotWritten))
    else
      var matched := Filter(subs, Matches(world, e, only));
      DeliverAll(world, written.(events := bus.events + [e]), e, matched, Report(|matched|, 0, 0))
  }

  function NewEventId(bus: Bus, replayOf: Option<nat>): EventId {
    if replayOf.Some? then ReplayOf(replayOf.value) else Uuid(bus.issued)
  }

  function Publish(
      world: World, bus: Bus, topics: seq<Topic>, subs: seq<Subscription>, request: Request,
      only: Option<string>, replayOf: Option<nat>): (Bus, Result<Report>)
  {
    var found := First(topics, NamesTopic(request));
    if found.None? then (bus, Err(TopicUndefined))
    else if !SchemaPasses(world, found.value.packPath, found.value.schemaRef, request.payload) then
      (bus, Err(PayloadRejected))
    else
      var e := EnvelopeFor(found.value, request, NewEventId(bus, replayOf));
      var numbered := if replayOf.Some? then bus else bus.(issued := bus.issued + 1);
      PublishEnvelope(world, numbered, subs, e, only)
  }

  function HasDeliveryId(id: nat): DeadLetter -> bool { (r: DeadLetter) => r.deliveryId == id }

  function HasEventId(id: EventId): Envelope -> bool { (e: Envelope) => e.eventId == id }

  function RequestOf(e: Envelope): Request {
    Request(e.topic, Some(e.eventType), e.payload, e.correlationId, e.source)
  }

  function Replay(
      world: World, bus: Bus, topics: seq<Topic>, subs: seq<Subscription>,
      eventId: Option<EventId>, deliveryId: Option<nat>): (Bus, Result<Report>)
  {
    if deliveryId.Some? then
      var letter := First(bus.deadLetters, HasDeliveryId(deliveryId.value));
      if letter.None? then (bus, Err(DeadLetterNotFound))
      else
        var r := letter.value;
        Publish(world, bus, topics, subs, RequestOf(r.event), Some(r.subscriptionId), Some(r.deliveryId))
    else if eventId.Some? then
      var event := First(bus.events, HasEventId(eventId.value));
      if event.None? then (bus, Err(EventNotFound))
      else Publish(world, bus, topics, subs, RequestOf(event.value), None, None)
    else (bus, Err(NothingToReplay))
  }

  /** One call of the bus; topics and subscriptions may differ from call to call. */
  datatype Command =
    | PublishCommand(topics: seq<Topic>, subs: seq<Subscription>, request: Request)
    | ReplayCommand(topics: seq<Topic>, subs: seq<Subscription>, eventId: Option<EventId>, deliveryId: Option<nat>)

  function Execute(world: World, bus: Bus, c: Command): (Bus, Result<Report>) {
    match c
    case PublishCommand(topics, subs, request) => Publish(world, bus, topics, subs, request, None, None)
    case ReplayCommand(topics, subs, eventId, deliveryId) =>
      Replay(world, bus, topics, subs, eventId, deliveryId)
  }

  function ExecuteAll(world: World, bus: Bus, commands: seq<Command>): Bus
    decreases |commands|
  {
    if commands == [] then bus else ExecuteAll(world, Execute(world, bus, commands[0]).0, commands[1..])
  }

  const EMPTY := Bus([], [], [], 0, 0, 0)

  // ----- the implementation: logs updated in place

  class EventLogs {
    const world: World
    var events: seq<Envelope>
    var deliveries: seq<Delivery>
    var deadLetters: seq<DeadLetter>
    var issued: nat
    var calls: nat
    var writes: nat

    constructor (world: World)
      ensures this.world == world && State() == EMPTY
    {
      this.world := world;
      events, deliveries, deadLetters := [], [], [];
      issued, calls, writes := 0, 0, 0;
    }

    function State(): Bus
      reads this
    {
      Bus(events, deliveries, deadLetters, issued, calls, writes)
    }

    method AppendEvent(e: Envelope) returns (written: bool)
      modifies this`events, this`writes
      ensures writes == old(writes) + 1 && written == world.disk(old(writes))
      ensures events == if written then old(events) + [e] else old(events)
    {
      written := world.disk(writes);
      writes := writes + 1;
      if written {
        events := events + [e];
      }
    }

    method AppendDelivery(d: Delivery) returns (written: bool)
      modifies this`deliveries, this`writes
      ensures writes == old(writes) + 1 && written == world.disk(old(writes))
      ensures deliveries == if written then old(deliveries) + [d] else old(deliveries)
    {
      written := world.disk(writes);
      writes := writes + 1;
      if written {
        deliveries := deliveries + [d];
      }
    }

    method AppendDeadLetter(r: DeadLetter) returns (written: bool)
      modifies this`deadLetters, this`writes
      ensures writes == old(writes) + 1 && written == world.disk(old(writes))
      ensures deadLetters == if written then old(deadLetters) + [r] else old(deadLetters)
    {
      written := world.disk(writes);
      writes := writes + 1;
      if written {
        deadLetters := deadLetters + [r];
      }
    }

    method FreshId() returns (id: nat)
      modifies this`issued
      ensures id == old(issued) && issued == old(issued) + 1
    {
      id := issued;
      issued := issued + 1;
    }

    method InvokeCapability() returns (reply: Reply)
      modifies this`calls
      ensures reply == world.runner(old(calls)) && calls == old(calls) + 1
    {
      reply := world.runner(calls);
      calls := calls + 1;
    }

    /** The body of the delivery loop for one matched subscription. */
    method DeliverTo(e: Envelope, s: Subscription) returns (result: Result<bool>)
      modifies this
      ensures (State(), result) == Deliver(world, old(State()), e, s)
    {
      if s.schemaRef.Some? {
        if !world.accepts(s.packPath, s.schemaRef.value, e.payload) {
          return Err(SubscriptionPayloadRejected);
        }
      }
      var attempts := 0;
      var finalError: Option<string> := None;
      var maxAttempts := MaxAttempts(s);
      ghost var start := calls;
      while attempts < maxAttempts
        invariant attempts <= maxAttempts
        invariant State() == old(State()).(calls := start + attempts)
        invariant attempts > 0 ==> finalError.Some?
        invariant Attempts(world, start, s)
               == Retry(world.runner, start, maxAttempts, attempts, if attempts == 0 then "" else finalError.value)
      {
        attempts := attempts + 1;
        var reply := InvokeCapability();
        match reply {
          case Broken =>
            return Err(RunnerFailed);
          case Outcome(success, error) =>
            if success {
              var id := FreshId();
              var written := AppendDelivery(OkDelivery(id, e, s, attempts));
              if !written {
                return Err(DeliveryNotWritten);
              }
              return Ok(true);
            }
            finalError := Some(if error.Some? then error.value else DEFAULT_ERROR);
        }
      }
      var id := FreshId();
      var written := AppendDelivery(ErrDelivery(id, e, s, maxAttempts, finalError.value));
      if !written {
        return Err(DeliveryNotWritten);
      }
      written := AppendDeadLetter(Letter(id, e, s, maxAttempts, finalError.value));
      if !written {
        return Err(DeadLetterNotWritten);
      }
      return Ok(false);
    }

    /** The delivery loop. */
    method DeliverMatched(e: Envelope, matched: seq<Subscription>) returns (result: Result<Report>)
      modifies this
      ensures (State(), result) == DeliverAll(world, old(State()), e, matched, Report(|matched|, 0, 0))
    {
      var report := Report(|matched|, 0, 0);
      ghost var goal := DeliverAll(world, State(), e, matched, report);
      for i := 0 to |matched|
        invariant DeliverAll(world, State(), e, matched[i..], report) == goal
      {
        assert matched[i..][1..] == matched[i + 1..];
        var delivered := DeliverTo(e, matched[i]);
        if delivered.Err? {
          return Err(delivered.failure);
        }
        if delivered.value {
          report := report.(successful := report.successful + 1);
        } else {
          report := report.(failed := report.failed + 1);
        }
      }
      return Ok(report);
    }

    method PublishEventInternal(
        topics: seq<Topic>, subs: seq<Subscription>, request: Request,
        only: Option<string>, replayOf: Option<nat>) returns (result: Result<Report>)
      modifies this
      ensures (State(), result) == Publish(world, old(State()), topics, subs, request, only, replayOf)
    {
      var found := First(topics, NamesTopic(request));
      if found.None? {
        return Err(TopicUndefined);
      }
      var topic := found.value;
      if topic.schemaRef.Some? {
        if !world.accepts(topic.packPath, topic.schemaRef.value, request.payload) {
          return Err(PayloadRejected);
        }
      }
      var id;
      if replayOf.Some? {
        id := ReplayOf(replayOf.value);
      } else {
        var n := FreshId();
        id := Uuid(n);
      }
      var envelope := EnvelopeFor(topic, request, id);
      var written := AppendEvent(envelope);
      if !written {
        return Err(EventNotWritten);
      }
      result := DeliverMatched(envelope, Filter(subs, Matches(world, envelope, only)));
    }

    method PublishEvent(topics: seq<Topic>, subs: seq<Subscription>, request: Request)
      returns (result: Result<Report>)
      modifies this
      ensures (State(), result) == Execute(world, old(State()), PublishCommand(topics, subs, request))
    {
      result := PublishEventInternal(topics, subs, request, None, None);
    }

    method ReplayEvent(
        topics: seq<Topic>, subs: seq<Subscription>, eventId: Option<EventId>, deliveryId: Option<nat>)
      returns (result: Result<Report>)
      modifies this
      ensures (State(), result) == Execute(world, old(State()), ReplayCommand(topics, subs, eventId, deliveryId))
    {
      var envelope;
      var only: Option<string>, replayOf: Option<nat> := None, None;
      if deliveryId.Some? {
        var letter := First(deadLetters, HasDeliveryId(deliveryId.value));
        if letter.None? {
          return Err(DeadLetterNotFound);
        }
        envelope := letter.value.event;
        only, replayOf := Some(letter.value.subscriptionId), Some(letter.value.deliveryId);
      } else if eventId.Some? {
        var event := First(events, HasEventId(eventId.value));
        if event.None? {
          return Err(EventNotFound);
        }
        envelope := event.value;
      } else {
        return Err(NothingToReplay);
      }
      result := PublishEventInternal(topics, subs, RequestOf(envelope), only, replayOf);
    }
  }
}
