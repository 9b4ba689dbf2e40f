/** Tiered retries over RabbitMQ (internal/events/rabbitmq.go): a failed delivery is
    acknowledged and re-published to the retry tier named by its header, whose queue hands it
    back after its delay; after the last tier it goes to the dead-letter exchange. */
module RabbitRetry {

  const RETRY_COUNT_HEADER := "x-retry-count"

  datatype HeaderValue = Int64(n: int) | Int32(n: int) | Int(n: int) | Text(s: string)

  // The AMQP header table of a delivery; NoTable when there is none.
  datatype Headers = NoTable | Table(values: map<string, HeaderValue>)

  function GetRetryCount(headers: Headers): int {
    match headers
    case NoTable => 0
    case Table(values) =>
      if RETRY_COUNT_HEADER !in values then 0
      else
        match values[RETRY_COUNT_HEADER]
        case Int64(n) => n
        case Int32(n) => n
        case Int(n) => n
        case Text(_) => 0
  }

  // Where a message is.  Lost: it was acknowledged, but publishing it onwards failed.
  datatype Place = Main | Tier(n: int) | DeadLettered | Succeeded | Discarded | Lost

  // A published event with what has happened to it: the handler's replies, the tiers it was
  // sent to, and how often it was sent to the dead-letter exchange.
  datatype Message = Message(place: Place, headers: Headers, replies: seq<bool>, tiers: seq<int>, deadLetters: nat)

  datatype Step =
    | Publish
    | Deliver(i: nat, parses: bool, ok: bool, publishOk: bool)
    | Expire(i: nat, headers: Headers)  // a tier's delay is over; the broker may add headers

  const NEW_MESSAGE := Message(Main, NoTable, [], [], 0)

  predicate Enabled(ms: seq<Message>, step: Step) {
    match step
    case Publish => true
    case Deliver(i, _, _, _) => i < |ms| && ms[i].place == Main
    case Expire(i, headers) => i < |ms| && ms[i].place.Tier? && Carries(headers, ms[i].place.n)
  }

  // The broker hands the count back as an integer of some width, among other headers.
  predicate Carries(headers: Headers, n: int) {
    headers.Table? && RETRY_COUNT_HEADER in headers.values
    && headers.values[RETRY_COUNT_HEADER] in {Int64(n), Int32(n), Int(n)}
  }

  // One delivery with maxRetries tiers configured.
  function Delivered(maxRetries: nat, m: Message, parses: bool, ok: bool, publishOk: bool): Message {
    if !parses then m.(place := Discarded)
    else
      var m1 := m.(replies := m.replies + [ok]);
      if ok then m1.(place := Succeeded)
      else
        var retryCount := GetRetryCount(m.headers);
        if retryCount < maxRetries then
          var tierNum := retryCount + 1;
          if !publishOk then m1.(place := Lost)
          else m1.(place := Tier(tierNum), tiers := m1.tiers + [tierNum],
                   headers := Table(map[RETRY_COUNT_HEADER := Int64(tierNum)]))
        else if !publishOk then m1.(place := Lost)
        else m1.(place := DeadLettered, deadLetters := m1.deadLetters + 1)
  }

  function Next(maxRetries: nat, ms: seq<Message>, step: Step): seq<Message>
    requires Enabled(ms, step)
  {
    match step
    case Publish => ms + [NEW_MESSAGE]
    case Deliver(i, parses, ok, publishOk) => ms[i := Delivered(maxRetries, ms[i], parses, ok, publishOk)]
    case Expire(i, headers) => ms[i := ms[i].(place := Main, headers := headers)]
  }

  function Run(maxRetries: nat, ms: seq<Message>, steps: seq<Step>): seq<Message>
    decreases |steps|
  {
    if steps == [] then ms
    else Run(maxRetries, if Enabled(ms, steps[0]) then Next(maxRetries, ms, steps[0]) else ms, steps[1..])
  }

  // ----- the life of one message ----------------------------------------------------------

  function Failures(replies: seq<bool>): nat {
    if replies == [] then 0
    else Failures(replies[..|replies| - 1]) + if replies[|replies| - 1] then 0 else 1
  }

  lemma FailuresSnoc(replies: seq<bool>, ok: bool)
    ensures Failures(replies + [ok]) == Failures(replies) + if ok then 0 else 1
  {
    assert (replies + [ok])[..|replies|] == replies;
  }

  ghost predicate LifeOK(maxRetries: nat, m: Message) {
    && |m.tiers| <= maxRetries
    && (forall k :: 0 <= k < |m.tiers| ==> m.tiers[k] == k + 1)
    && GetRetryCount(m.headers) == |m.tiers|
    && |m.replies| == Failures(m.replies) + (if m.place == Succeeded then 1 else 0)
    && (m.place in {Main, Succeeded, Discarded} ==> Failures(m.replies) == |m.tiers|)
    && (m.place.Tier? ==> m.place.n == |m.tiers| >= 1 && Failures(m.replies) == |m.tiers|)
    && (m.place in {DeadLettered, Lost} ==> Failures(m.replies) == |m.tiers| + 1)
    && (m.place == DeadLettered ==> |m.tiers| == maxRetries)
    && m.deadLetters == if m.place == DeadLettered then 1 else 0
  }

  lemma DeliveredOK(maxRetries: nat, m: Message, parses: bool, ok: bool, publishOk: bool)
    requires LifeOK(maxRetries, m) && m.place == Main
    ensures LifeOK(maxRetries, Delivered(maxRetries, m, parses, ok, publishOk))
  {
    FailuresSnoc(m.replies, ok);
    hide Failures;
  }

  lemma {:induction false} RunKeepsLife(maxRetries: nat, ms: seq<Message>, steps: seq<Step>)
    requires forall m :: m in ms ==> LifeOK(maxRetries, m)
    ensures forall m :: m in Run(maxRetries, ms, steps) ==> LifeOK(maxRetries, m)
    decreases |steps|
  {
    if steps != [] {
      var step := steps[0];
      if Enabled(ms, step) {
        if step.Deliver? {
          DeliveredOK(maxRetries, ms[step.i], step.parses, step.ok, step.publishOk);
        } else if step.Expire? {
          assert LifeOK(maxRetries, ms[step.i]);
          assert LifeOK(maxRetries, Next(maxRetries, ms, step)[step.i]);
        } else {
          assert LifeOK(maxRetries, NEW_MESSAGE);
        }
        hide LifeOK, Delivered;
        RunKeepsLife(maxRetries, Next(maxRetries, ms, step), steps[1..]);
      } else {
        RunKeepsLife(maxRetries, ms, steps[1..]);
      }
    }
  }

  // Every interleaving of publishing, deliveries and expiring delays: a message's handler runs
  // at most maxRetries + 1 times, its tiers are 1, 2, ... without gap or repetition, and it is
  // dead-lettered at most once, after exactly maxRetries + 1 failures.
  lemma RetriesAreTieredAndBounded(maxRetries: nat, steps: seq<Step>, m: Message)
    requires m in Run(maxRetries, [], steps)
    ensures |m.replies| <= maxRetries + 1
    ensures |m.tiers| <= maxRetries && forall k :: 0 <= k < |m.tiers| ==> m.tiers[k] == k + 1
    ensures m.deadLetters <= 1
    ensures m.deadLetters == 1 ==> |m.replies| == maxRetries + 1 == Failures(m.replies)
    ensures m.place == Succeeded ==> Failures(m.replies) == |m.tiers| == |m.replies| - 1
  {
    RunKeepsLife(maxRetries, [], steps);
    assert LifeOK(maxRetries, m);
  }

  // ----- nothing is lost unless publishing fails ------------------------------------------

  // Where a delivery leaves a message, by the failures so far and what happens now.
  lemma DeliveryIff(maxRetries: nat, m: Message, parses: bool, ok: bool, publishOk: bool)
    requires LifeOK(maxRetries, m) && m.place == Main
    ensures var m', failures := Delivered(maxRetries, m, parses, ok, publishOk), Failures(m.replies);
      && (m'.place == Discarded <==> !parses)
      && (m'.place == Succeeded <==> parses && ok)
      && (m'.place == Lost <==> parses && !ok && !publishOk)
      && (m'.place == Tier(failures + 1) <==> parses && !ok && publishOk && failures < maxRetries)
      && (m'.place == DeadLettered <==> parses && !ok && publishOk && failures == maxRetries)
      && m'.replies == m.replies + if parses then [ok] else []
  {
  }

  ghost predicate AllWorks(step: Step) {
    step.Deliver? ==> step.parses && step.publishOk
  }

  ghost predicate Kept(m: Message) {
    m.place != Lost && m.place != Discarded
  }

  lemma {:induction false} RunKeepsMessages(maxRetries: nat, ms: seq<Message>, steps: seq<Step>)
    requires forall step :: step in steps ==> AllWorks(step)
    requires forall m :: m in ms ==> LifeOK(maxRetries, m) && Kept(m)
    ensures forall m :: m in Run(maxRetries, ms, steps) ==> Kept(m)
    decreases |steps|
  {
    if steps != [] {
      var step := steps[0];
      assert AllWorks(step);
      assert forall x :: x in steps[1..] ==> x in steps;
      if Enabled(ms, step) {
        var ms' := Next(maxRetries, ms, step);
        RunKeepsLife(maxRetries, ms, [step]);
        assert Run(maxRetries, ms, [step]) == ms' by {
          assert [step][1..] == [];
        }
        hide LifeOK, AllWorks;
        RunKeepsMessages(maxRetries, ms', steps[1..]);
      } else {
        RunKeepsMessages(maxRetries, ms, steps[1..]);
      }
    }
  }

  function Published(steps: seq<Step>): nat {
    if steps == [] then 0 else (if steps[0].Publish? then 1 else 0) + Published(steps[1..])
  }

  lemma {:induction false} RunKeepsCount(maxRetries: nat, ms: seq<Message>, steps: seq<Step>)
    ensures |Run(maxRetries, ms, steps)| == |ms| + Published(steps)
    decreases |steps|
  {
    if steps != [] {
      var ms' := if Enabled(ms, steps[0]) then Next(maxRetries, ms, steps[0]) else ms;
      assert |ms'| == |ms| + if steps[0].Publish? then 1 else 0;
      hide Next, Enabled;
      RunKeepsCount(maxRetries, ms', steps[1..]);
    }
  }

  // With parsable events and a broker that takes every message, each published event is there
  // once the broker is at rest: handled after as many failures as it used tiers, or in the
  // dead-letter queue after failing on every attempt.
  lemma AtRestAllIsAccountedFor(maxRetries: nat, steps: seq<Step>)
    requires forall step :: step in steps ==> AllWorks(step)
    ensures var ms := Run(maxRetries, [], steps);
      && |ms| == Published(steps)
      && (LeftAll(maxRetries, ms) == 0 <==> forall m :: m in ms ==> m.place in {Succeeded, DeadLettered})
      && forall m :: m in ms && m.place == DeadLettered ==> Failures(m.replies) == |m.replies| == maxRetries + 1
  {
    RunKeepsLife(maxRetries, [], steps);
    RunKeepsMessages(maxRetries, [], steps);
    RunKeepsCount(maxRetries, [], steps);
    var ms := Run(maxRetries, [], steps);
    LeftNonNegative(maxRetries, ms);
    forall m | m in ms ensures m.place in {Succeeded, DeadLettered} <==> !m.place.Main? && !m.place.Tier? {
      assert Kept(m);
    }
    forall m | m in ms && m.place == DeadLettered ensures Failures(m.replies) == |m.replies| == maxRetries + 1 {
      RetriesAreTieredAndBounded(maxRetries, steps, m);
      assert LifeOK(maxRetries, m);
    }
  }

  // ----- termination ----------------------------------------------------------------------

  // What the header's count leaves to do.
  function Left(maxRetries: nat, m: Message): int {
    match m.place
    case Main => 2 * (maxRetries - GetRetryCount(m.headers)) + 1
    case Tier(_) => 2 * (maxRetries - GetRetryCount(m.headers)) + 2
    case _ => 0
  }

  function LeftAll(maxRetries: nat, ms: seq<Message>): int {
    if ms == [] then 0 else Left(maxRetries, ms[0]) + LeftAll(maxRetries, ms[1..])
  }

  lemma {:induction false} LeftUpdate(maxRetries: nat, ms: seq<Message>, i: nat, m: Message)
    requires i < |ms|
    ensures LeftAll(maxRetries, ms[i := m]) == LeftAll(maxRetries, ms) - Left(maxRetries, ms[i]) + Left(maxRetries, m)
  {
    if i == 0 {
      assert ms[i := m][1..] == ms[1..];
    } else {
      assert ms[i := m][1..] == ms[1..][i - 1 := m];
      LeftUpdate(maxRetries, ms[1..], i - 1, m);
    }
  }

  lemma {:induction false} LeftNonNegative(maxRetries: nat, ms: seq<Message>)
    requires forall m :: m in ms ==> LifeOK(maxRetries, m)
    ensures LeftAll(maxRetries, ms) >= 0
    ensures LeftAll(maxRetries, ms) == 0 <==> forall m :: m in ms ==> !m.place.Main? && !m.place.Tier?
  {
    if ms != [] {
      assert LifeOK(maxRetries, ms[0]);
      LeftNonNegative(maxRetries, ms[1..]);
      assert ms == [ms[0]] + ms[1..];
    }
  }

  // Deliveries and expiries that a schedule really takes.
  function Moves(maxRetries: nat, ms: seq<Message>, steps: seq<Step>): nat
    decreases |steps|
  {
    if steps == [] then 0
    else if !Enabled(ms, steps[0]) then Moves(maxRetries, ms, steps[1..])
    else (if steps[0].Publish? then 0 else 1) + Moves(maxRetries, Next(maxRetries, ms, steps[0]), steps[1..])
  }

  // Without new events the broker comes to rest: every schedule takes at most LeftAll steps.
  lemma {:induction false} RetriesComeToRest(maxRetries: nat, ms: seq<Message>, steps: seq<Step>)
    requires forall m :: m in ms ==> LifeOK(maxRetries, m)
    requires forall step :: step in steps ==> !step.Publish?
    ensures Moves(maxRetries, ms, steps) + LeftAll(maxRetries, Run(maxRetries, ms, steps)) <= LeftAll(maxRetries, ms)
    ensures Moves(maxRetries, ms, steps) <= LeftAll(maxRetries, ms)
    decreases |steps|
  {
    LeftNonNegative(maxRetries, ms);
    if steps != [] {
      var step := steps[0];
      assert step in steps;
      if Enabled(ms, step) {
        var ms' := Next(maxRetries, ms, step);
        RunKeepsLife(maxRetries, ms, [step]);
        assert Run(maxRetries, ms, [step]) == ms' by {
          assert [step][1..] == [];
        }
        assert LifeOK(maxRetries, ms[step.i]);
        LeftUpdate(maxRetries, ms, step.i, ms'[step.i]);
        RetriesComeToRest(maxRetries, ms', steps[1..]);
      } else {
        RetriesComeToRest(maxRetries, ms, steps[1..]);
      }
    }
  }

  // ----- the bus object -------------------------------------------------------------------

  class RabbitMQEventBus {
    const maxRetries: nat  // the number of retry delays
    var messages: seq<Message>
    var closed: bool

    ghost predicate Valid()
      reads this
    {
      forall m :: m in messages ==> LifeOK(maxRetries, m)
    }

    // Without configured delays there are three.
    constructor (retryDelays: nat)
      ensures Valid() && messages == [] && !closed
      ensures maxRetries == if retryDelays == 0 then 3 else retryDelays
    {
      maxRetries := if retryDelays == 0 then 3 else retryDelays;
      messages, closed := [], false;
    }

    // The event is dropped when the bus is closed or it cannot be marshalled or published.
    method PublishEvent(marshalOk: bool, publishOk: bool)
      requires Valid()
      modifies this`messages
      ensures Valid()
      ensures messages == if !closed && marshalOk && publishOk
                          then Next(maxRetries, old(messages), Publish) else old(messages)
    {
      if closed {
        return;
      }
      if !marshalOk {
        return;
      }
      if !publishOk {
        return;
      }
      assert LifeOK(maxRetries, NEW_MESSAGE);
      messages := messages + [NEW_MESSAGE];
    }

    // The first part of Close, up to its unlock.
    method BeginClose()
      modifies this`closed
      ensures closed
    {
      closed := true;
    }

    method HandleDelivery(i: nat, parses: bool, ok: bool, publishOk: bool)
      requires Valid() && Enabled(messages, Deliver(i, parses, ok, publishOk))
      modifies this`messages
      ensures Valid() && messages == Next(maxRetries, old(messages), Deliver(i, parses, ok, publishOk))
    {
      assert messages[i] in messages;
      DeliveredOK(maxRetries, messages[i], parses, ok, publishOk);
      hide LifeOK, Failures, GetRetryCount;
      var m := messages[i];
      if !parses {
        messages := messages[i := m.(place := Discarded)];
        return;
      }
      m := m.(replies := m.replies + [ok]);
      if ok {
        messages := messages[i := m.(place := Succeeded)];
        return;
      }
      var retryCount := GetRetryCount(m.headers);
      if retryCount < maxRetries {
        var tierNum := retryCount + 1;
        m := if publishOk then
               m.(place := Tier(tierNum), tiers := m.tiers + [tierNum],
                  headers := Table(map[RETRY_COUNT_HEADER := Int64(tierNum)]))
             else m.(place := Lost);
        messages := messages[i := m];
        return;
      }
      m := if publishOk then m.(place := DeadLettered, deadLetters := m.deadLetters + 1) else m.(place := Lost);
      messages := messages[i := m];
    }
  }
}
