/** The payment status machine (internal/core/payments/service.go): intents, confirmation and
    refunds around database writes and provider calls that may fail. */
module Payments {
  import opened Common

  datatype PaymentStatus = Pending | Succeeded | Failed | Refunded | RefundFailed | Other(text: string)

  datatype Payment = Payment(orderID: string, amount: real, provider: string, intentID: string,
                             status: PaymentStatus, createdAt: int)

  // The stored payments by ID, what the provider has refunded for each of them, and how many
  // of these refunds it reported as errors and were then written back as failed.
  datatype State = State(payments: map<string, Payment>, refunds: map<string, seq<real>>, reopened: map<string, nat>)

  const CONFIRM_WINDOW := 86_400  // seconds

  function RefundsOf(s: State, id: string): seq<real> {
    if id in s.refunds then s.refunds[id] else []
  }

  function ReopenedOf(s: State, id: string): nat {
    if id in s.reopened then s.reopened[id] else 0
  }

  // A database lookup; Found names one of the matching records.
  datatype Lookup = Found(id: string) | Missing | ReadError

  datatype RefundReply = Done | Refused | DoneButLost  // the last: refunded, yet an error came back

  datatype Answer = Stored(id: string) | Rejected

  datatype Call =
    | Create(orderID: string, customerID: string, found: Lookup, order: Option<(real, string)>,
             provider: string, defaultProvider: string, providers: set<string>,
             intent: Option<(string, PaymentStatus)>,
             newID: Option<string>, writeOk: bool, now: int)
    | Confirm(provider: string, intentID: string, found: Lookup, providers: set<string>,
              confirmOk: bool, writeOk: bool, now: int)
    | Refund(orderID: string, found: Lookup, amount: Option<real>, providers: set<string>,
             writeOk: bool, reply: RefundReply, rollbackOk: bool)

  ghost predicate Truthful(s: State, call: Call) {
    call.found.Found? ==>
      && call.found.id in s.payments
      && var p := s.payments[call.found.id];
         match call
         case Create(orderID, _, _, _, _, _, _, _, _, _, _) => p.orderID == orderID
         case Confirm(provider, intentID, _, _, _, _, _) => p.provider == provider && p.intentID == intentID
         case Refund(orderID, _, _, _, _, _, _) => p.orderID == orderID
  }

  function SetStatus(s: State, id: string, status: PaymentStatus): State
    requires id in s.payments
  {
    s.(payments := s.payments[id := s.payments[id].(status := status)])
  }

  // The configured default stands in for an empty provider name.
  function ProviderOf(call: Call): string
    requires call.Create?
  {
    if call.provider == "" then call.defaultProvider else call.provider
  }

  function CreateStep(s: State, call: Call): (Answer, State)
    requires call.Create? && (call.found.Found? ==> call.found.id in s.payments)
  {
    if call.orderID == "" || call.customerID == "" then (Rejected, s)
    else if call.found.Found? && s.payments[call.found.id].status in {Succeeded, Pending} then
        (Stored(call.found.id), s)
    else if call.found.ReadError? || call.order.None? || call.order.value.1 != "pending" then (Rejected, s)
    else if ProviderOf(call) !in call.providers || call.intent.None? || call.newID.None? then (Rejected, s)
    else if !call.writeOk || call.newID.value in s.payments then (Rejected, s)
    else
      var (intentID, status) := call.intent.value;
      (Stored(call.newID.value),
       s.(payments := s.payments[call.newID.value :=
            Payment(call.orderID, call.order.value.0, ProviderOf(call), intentID, status, call.now)]))
  }

  function ConfirmStep(s: State, call: Call): (Answer, State)
    requires call.Confirm? && (call.found.Found? ==> call.found.id in s.payments)
  {
    if call.provider == "" || call.intentID == "" || !call.found.Found? then (Rejected, s)
    else
      var id := call.found.id;
      var p := s.payments[id];
      if p.status in {Succeeded, Refunded} then (Stored(id), s)
      else if p.status == Failed then (Rejected, s)
      else if call.now - p.createdAt > CONFIRM_WINDOW then
        (Rejected, if call.writeOk then SetStatus(s, id, Failed) else s)
      else if call.provider !in call.providers then (Rejected, s)
      else if !call.confirmOk then (Rejected, if call.writeOk then SetStatus(s, id, Failed) else s)
      else if !call.writeOk then (Rejected, s)
      else (Stored(id), SetStatus(s, id, Succeeded))
  }

  function RefundAmount(p: Payment, amount: Option<real>): real {
    if amount.Some? then amount.value else p.amount
  }

  function RefundStep(s: State, call: Call): (Answer, State)
    requires call.Refund? && (call.found.Found? ==> call.found.id in s.payments)
  {
    if call.orderID == "" || !call.found.Found? then (Rejected, s)
    else
      var id := call.found.id;
      var p := s.payments[id];
      if p.status == Refunded then (Stored(id), s)
      else if p.status !in {Succeeded, RefundFailed} then (Rejected, s)
      else if call.amount.Some? && (call.amount.value <= 0.0 || call.amount.value > p.amount) then (Rejected, s)
      else if p.provider !in call.providers then (Rejected, s)
      else if !call.writeOk then (Rejected, s)
      else
        var s1 := SetStatus(s, id, Refunded);
        var s2 := if call.reply == Refused then s1
                  else s1.(refunds := s1.refunds[id := RefundsOf(s1, id) + [RefundAmount(p, call.amount)]]);
        if call.reply == Done then (Stored(id), s2)
        else
          var s3 := if call.reply == DoneButLost && call.rollbackOk
                    then s2.(reopened := s2.reopened[id := ReopenedOf(s2, id) + 1]) else s2;
          (Rejected, if call.rollbackOk then SetStatus(s3, id, RefundFailed) else s3)
  }

  function Step(s: State, call: Call): (Answer, State)
    requires call.found.Found? ==> call.found.id in s.payments
  {
    match call
    case Create(_, _, _, _, _, _, _, _, _, _, _) => CreateStep(s, call)
    case Confirm(_, _, _, _, _, _, _) => ConfirmStep(s, call)
    case Refund(_, _, _, _, _, _, _) => RefundStep(s, call)
  }

  // A serialised run; a call whose lookup does not match the database does not happen.
  ghost function Run(s: State, calls: seq<Call>): State
    decreases |calls|
  {
    if calls == [] then s
    else Run(if Truthful(s, calls[0]) then Step(s, calls[0]).1 else s, calls[1..])
  }

  // ----- the invariant --------------------------------------------------------------------

  // A refund is spent when the provider has done it and the record was not reopened since.
  ghost predicate Spent(s: State, id: string) {
    |RefundsOf(s, id)| == ReopenedOf(s, id) + 1
  }

  // At most one refund more than were reopened; a spent payment is stored as refunded; no
  // refund exceeds the amount.
  ghost predicate SoundFor(s: State, id: string) {
    && |RefundsOf(s, id)| <= ReopenedOf(s, id) + 1
    && (Spent(s, id) ==> id in s.payments && s.payments[id].status == Refunded)
    && (RefundsOf(s, id) != [] ==> id in s.payments)
    && (forall k :: 0 <= k < |RefundsOf(s, id)| ==> RefundsOf(s, id)[k] <= s.payments[id].amount)
  }

  ghost predicate Sound(s: State) {
    forall id :: SoundFor(s, id)
  }

  lemma StepKeepsSound(s: State, call: Call)
    requires Sound(s) && Truthful(s, call)
    ensures Sound(Step(s, call).1)
  {
    forall id ensures SoundFor(Step(s, call).1, id) {
      assert SoundFor(s, id);
      hide Sound;
      if call.Refund? {
        RefundKeepsSound(s, call, id);
        hide *;
      } else if call.Confirm? {
        ConfirmKeepsSound(s, call, id);
        hide *;
      } else {
        CreateKeepsSound(s, call, id);
        hide *;
      }
    }
  }

  lemma CreateKeepsSound(s: State, call: Call, id: string)
    requires SoundFor(s, id) && Truthful(s, call) && call.Create?
    ensures SoundFor(Step(s, call).1, id)
  {
  }

  lemma ConfirmKeepsSound(s: State, call: Call, id: string)
    requires SoundFor(s, id) && Truthful(s, call) && call.Confirm?
    ensures SoundFor(Step(s, call).1, id)
  {
  }

  lemma RefundKeepsSound(s: State, call: Call, id: string)
    requires SoundFor(s, id) && Truthful(s, call) && call.Refund?
    ensures SoundFor(Step(s, call).1, id)
  {
  }

  lemma {:induction false} RunKeepsSound(s: State, calls: seq<Call>)
    requires Sound(s)
    ensures Sound(Run(s, calls))
    decreases |calls|
  {
    if calls != [] {
      if Truthful(s, calls[0]) {
        StepKeepsSound(s, calls[0]);
        RunKeepsSound(Step(s, calls[0]).1, calls[1..]);
      } else {
        RunKeepsSound(s, calls[1..]);
      }
    }
  }

  // Whatever the database and the provider do: at most one refund per payment more than were
  // misreported and then written back as failed, none above the amount, and without such a
  // write-back a refunded payment is stored as refunded.
  lemma RefundedAtMostOnce(calls: seq<Call>, id: string)
    ensures var s := Run(State(map[], map[], map[]), calls);
      && |RefundsOf(s, id)| <= 1 + ReopenedOf(s, id)
      && (ReopenedOf(s, id) == 0 && RefundsOf(s, id) != [] ==> id in s.payments && s.payments[id].status == Refunded)
      && forall k :: 0 <= k < |RefundsOf(s, id)| ==> id in s.payments && RefundsOf(s, id)[k] <= s.payments[id].amount
  {
    RunKeepsSound(State(map[], map[], map[]), calls);
    var s := Run(State(map[], map[], map[]), calls);
    assert SoundFor(s, id);
  }

  // ----- terminal statuses ----------------------------------------------------------------

  predicate Terminal(status: PaymentStatus) {
    status == Failed || status == Refunded
  }

  lemma StepKeepsTerminal(s: State, call: Call, id: string)
    requires Truthful(s, call) && id in s.payments && Terminal(s.payments[id].status)
    ensures var s' := Step(s, call).1;
      && id in s'.payments && s'.payments[id] == s.payments[id]
      && RefundsOf(s', id) == RefundsOf(s, id)
  {
  }

  // Once a call has left a payment failed or refunded, no later call changes the record or
  // refunds it.
  lemma {:induction false} FailedAndRefundedAreFinal(s: State, calls: seq<Call>, id: string)
    requires id in s.payments && Terminal(s.payments[id].status)
    ensures var s' := Run(s, calls);
      && id in s'.payments && s'.payments[id] == s.payments[id]
      && RefundsOf(s', id) == RefundsOf(s, id)
    decreases |calls|
  {
    if calls != [] {
      if Truthful(s, calls[0]) {
        StepKeepsTerminal(s, calls[0], id);
        FailedAndRefundedAreFinal(Step(s, calls[0]).1, calls[1..], id);
      } else {
        FailedAndRefundedAreFinal(s, calls[1..], id);
      }
    }
  }

  // A payment's order, amount and intent never change.
  lemma {:induction false} RecordsKeepTheirTerms(s: State, calls: seq<Call>, id: string)
    requires id in s.payments
    ensures var s' := Run(s, calls);
      id in s'.payments && s'.payments[id].(status := Pending) == s.payments[id].(status := Pending)
    decreases |calls|
  {
    if calls != [] {
      var next := if Truthful(s, calls[0]) then Step(s, calls[0]).1 else s;
      if Truthful(s, calls[0]) {
        StepKeepsTerms(s, calls[0], id);
      }
      hide Step;
      RecordsKeepTheirTerms(next, calls[1..], id);
    }
  }

  lemma StepKeepsTerms(s: State, call: Call, id: string)
    requires id in s.payments && Truthful(s, call)
    ensures var s' := Step(s, call).1;
      id in s'.payments && s'.payments[id].(status := Pending) == s.payments[id].(status := Pending)
  {
  }

  // ----- statuses follow the provider -----------------------------------------------------

  ghost predicate OnlyChanges(s: State, s': State, id: string) {
    && (forall x :: x != id ==> (x in s'.payments <==> x in s.payments))
    && (forall x :: x != id && x in s.payments ==> s'.payments[x] == s.payments[x])
    && (forall x :: x != id ==> RefundsOf(s', x) == RefundsOf(s, x))
  }

  predicate Expired(p: Payment, now: int) {
    now - p.createdAt > CONFIRM_WINDOW
  }

  // An open payment becomes succeeded exactly when the provider confirms it in time, and failed
  // exactly when the provider refuses or the time is over; the write must work for either.
  lemma ConfirmIff(s: State, call: Call)
    requires call.Confirm? && Truthful(s, call) && call.found.Found? && call.provider != "" && call.intentID != ""
    ensures var (a, s') := Step(s, call);
      var id := call.found.id;
      && id in s'.payments
      && var p, p' := s.payments[id], s'.payments[id];
         var open := p.status !in {Succeeded, Refunded, Failed};
         var asked := open && !Expired(p, call.now) && call.provider in call.providers;
         && (p'.status == Succeeded <==> p.status == Succeeded || (asked && call.confirmOk && call.writeOk))
         && (p'.status == Failed <==>
               p.status == Failed || (call.writeOk && ((open && Expired(p, call.now)) || (asked && !call.confirmOk))))
         && (p'.status !in {Succeeded, Failed} ==> p'.status == p.status)
         && (a == Stored(id) <==> p'.status == Succeeded || p.status == Refunded)
         && RefundsOf(s', id) == RefundsOf(s, id) && OnlyChanges(s, s', id)
  {
  }

  // Exactly when an intent is stored, and as what: a payment of the order's own amount in the
  // status that the provider gave it.
  lemma CreateIff(s: State, call: Call)
    requires call.Create? && Truthful(s, call)
    ensures var (a, s') := Step(s, call);
      var again := call.found.Found? && s.payments[call.found.id].status in {Succeeded, Pending};
      && (s' != s <==>
            (&& call.orderID != "" && call.customerID != "" && !again && !call.found.ReadError?
             && call.order.Some? && call.order.value.1 == "pending" && ProviderOf(call) in call.providers
             && call.intent.Some? && call.newID.Some? && call.newID.value !in s.payments && call.writeOk))
      && (s' != s ==>
            var id := call.newID.value;
            && a == Stored(id) && id in s'.payments && OnlyChanges(s, s', id)
            && var p := s'.payments[id];
               && p.orderID == call.orderID && p.amount == call.order.value.0
               && p.provider == (if call.provider != "" then call.provider else call.defaultProvider)
               && p.intentID == call.intent.value.0 && p.status == call.intent.value.1 && p.createdAt == call.now)
      && (s' == s ==> a == if call.orderID != "" && call.customerID != "" && again then Stored(call.found.id)
                            else Rejected)
  {
    var (a, s') := Step(s, call);
    if call.newID.Some? && a == Stored(call.newID.value) && call.newID.value !in s.payments {
      assert call.newID.value in s'.payments;
    }
  }

  // The call, the n-th of a run, at which a payment was paid, failed, or came to be refunded.
  ghost predicate PaidAt(calls: seq<Call>, id: string, n: nat)
    requires n < |calls|
  {
    var s, s', call := Run(EMPTY, calls[..n]), Run(EMPTY, calls[..n + 1]), calls[n];
    match call
    case Create(_, _, _, _, _, _, _, intent, _, _, _) => BornAs(s, s', call, id, {Succeeded})
    case Confirm(provider, _, found, providers, confirmOk, writeOk, now) =>
      && id in s.payments && Truthful(s, call) && found == Found(id)
      && confirmOk && writeOk && provider in providers && !Expired(s.payments[id], now)
    case Refund(_, _, _, _, _, _, _) => false
  }

  ghost predicate FailedAt(calls: seq<Call>, id: string, n: nat)
    requires n < |calls|
  {
    var s, s', call := Run(EMPTY, calls[..n]), Run(EMPTY, calls[..n + 1]), calls[n];
    match call
    case Create(_, _, _, _, _, _, _, intent, _, _, _) => BornAs(s, s', call, id, {Failed})
    case Confirm(provider, _, found, providers, confirmOk, writeOk, now) =>
      && id in s.payments && Truthful(s, call) && found == Found(id) && writeOk
      && ((!confirmOk && provider in providers) || Expired(s.payments[id], now))
    case Refund(_, _, _, _, _, _, _) => false
  }

  ghost predicate BornAs(s: State, s': State, call: Call, id: string, statuses: set<PaymentStatus>) {
    call.Create? && id !in s.payments && id in s'.payments && call.intent.Some? && call.intent.value.1 in statuses
  }

  ghost predicate BornRefunded(calls: seq<Call>, id: string, n: nat)
    requires n < |calls|
  {
    BornAs(Run(EMPTY, calls[..n]), Run(EMPTY, calls[..n + 1]), calls[n], id, {Refunded, RefundFailed})
  }

  ghost predicate Justified(calls: seq<Call>, id: string) {
    var s := Run(EMPTY, calls);
    if id !in s.payments then RefundsOf(s, id) == []
    else
      && (s.payments[id].status == Succeeded ==> exists n :: 0 <= n < |calls| && PaidAt(calls, id, n))
      && (s.payments[id].status == Failed ==> exists n :: 0 <= n < |calls| && FailedAt(calls, id, n))
      && (s.payments[id].status in {Refunded, RefundFailed} || RefundsOf(s, id) != [] ==>
            exists n :: 0 <= n < |calls| && (PaidAt(calls, id, n) || BornRefunded(calls, id, n)))
  }

  const EMPTY := State(map[], map[], map[])

  lemma {:induction false} RunSnoc(s: State, calls: seq<Call>, call: Call)
    ensures var s' := Run(s, calls); Run(s, calls + [call]) == if Truthful(s', call) then Step(s', call).1 else s'
    decreases |calls|
  {
    if calls == [] {
      assert ([] + [call])[1..] == [];
    } else {
      assert (calls + [call])[1..] == calls[1..] + [call];
      hide Step, Truthful;
      RunSnoc(if Truthful(s, calls[0]) then Step(s, calls[0]).1 else s, calls[1..], call);
    }
  }

  lemma EarlierStays(calls: seq<Call>, call: Call, id: string, n: nat)
    requires n < |calls|
    ensures PaidAt(calls, id, n) ==> PaidAt(calls + [call], id, n)
    ensures FailedAt(calls, id, n) ==> FailedAt(calls + [call], id, n)
    ensures BornRefunded(calls, id, n) ==> BornRefunded(calls + [call], id, n)
  {
    assert (calls + [call])[..n] == calls[..n] && (calls + [call])[..n + 1] == calls[..n + 1];
    hide Run, Truthful;
  }

  // What a step can change about one payment, and why.
  lemma StepReasons(s: State, call: Call, id: string)
    requires Truthful(s, call) && (id !in s.payments ==> RefundsOf(s, id) == [])
    ensures var s' := Step(s, call).1;
      if id !in s'.payments then id !in s.payments && RefundsOf(s', id) == []
      else if id !in s.payments then
        RefundsOf(s', id) == [] && BornAs(s, s', call, id, {s'.payments[id].status})
      else
        var was, now := s.payments[id].status, s'.payments[id].status;
        && (now == Succeeded && was != now ==>
              call.Confirm? && call.found == Found(id) && call.confirmOk && call.writeOk
              && call.provider in call.providers && !Expired(s.payments[id], call.now))
        && (now == Failed && was != now ==>
              call.Confirm? && call.found == Found(id) && call.writeOk
              && ((!call.confirmOk && call.provider in call.providers) || Expired(s.payments[id], call.now)))
        && (now in {Refunded, RefundFailed} || RefundsOf(s', id) != [] ==>
              was in {Succeeded, Refunded, RefundFailed} || RefundsOf(s, id) != [])
  {
  }

  // Over every run: a payment is stored as succeeded only if the provider created it so or
  // confirmed it in time, as failed only if the provider did or refused it or its time was over,
  // and refunded only if it was paid in that sense (or the provider created it as refunded).
  lemma {:induction false} StatusesFollowTheProvider(calls: seq<Call>, id: string)
    ensures Justified(calls, id)
    decreases |calls|
  {
    if calls != [] {
      var init, call := calls[..|calls| - 1], calls[|calls| - 1];
      var s, s' := Run(EMPTY, init), Run(EMPTY, calls);
      assert calls == init + [call];
      StatusesFollowTheProvider(init, id);
      RunSnoc(EMPTY, init, call);
      forall n: nat | n < |init|
        ensures PaidAt(init, id, n) ==> PaidAt(calls, id, n)
        ensures FailedAt(init, id, n) ==> FailedAt(calls, id, n)
        ensures BornRefunded(init, id, n) ==> BornRefunded(calls, id, n)
      {
        EarlierStays(init, call, id, n);
      }
      assert calls[..|init|] == init && calls[..|init| + 1] == calls;
      if Truthful(s, call) {
        StepReasons(s, call, id);
        LastReason(calls, id);
      }
      hide Run, Step, Truthful, PaidAt, FailedAt, BornRefunded, BornAs;
    }
  }

  // What the last call of a run is a reason for.
  lemma LastReason(calls: seq<Call>, id: string)
    requires calls != []
    ensures var n := |calls| - 1;
      var s, s', call := Run(EMPTY, calls[..n]), Run(EMPTY, calls), calls[n];
      && (Truthful(s, call) && id in s.payments && call.Confirm? && call.found == Found(id) && call.writeOk ==>
            && (call.confirmOk && call.provider in call.providers && !Expired(s.payments[id], call.now) ==>
                  PaidAt(calls, id, n))
            && ((!call.confirmOk && call.provider in call.providers) || Expired(s.payments[id], call.now) ==>
                  FailedAt(calls, id, n)))
      && (BornAs(s, s', call, id, {Succeeded}) ==> PaidAt(calls, id, n))
      && (BornAs(s, s', call, id, {Failed}) ==> FailedAt(calls, id, n))
      && (BornAs(s, s', call, id, {Refunded}) || BornAs(s, s', call, id, {RefundFailed}) ==>
            BornRefunded(calls, id, n))
  {
    assert calls[..|calls|] == calls;
    hide Run, Truthful;
  }

  // ----- refunds that reach the provider --------------------------------------------------

  // The refunds that get as far as the provider.
  predicate Reaches(s: State, call: Call)
    requires call.Refund? && (call.found.Found? ==> call.found.id in s.payments)
  {
    && call.orderID != "" && call.found.Found? && call.writeOk
    && var p := s.payments[call.found.id];
       && p.status in {Succeeded, RefundFailed} && p.provider in call.providers
       && (call.amount.Some? ==> 0.0 < call.amount.value <= p.amount)
  }

  // Only those change anything: the record is refunded, or written back if the provider
  // reported an error, and the provider is asked for the requested amount, by default the whole.
  lemma RefundIff(s: State, call: Call)
    requires call.Refund? && Truthful(s, call)
    ensures var (a, s') := Step(s, call);
      && (s' != s ==> Reaches(s, call))
      && (!Reaches(s, call) ==> a == if call.orderID != "" && call.found.Found?
            && s.payments[call.found.id].status == Refunded then Stored(call.found.id) else Rejected)
      && (Reaches(s, call) ==>
            var id := call.found.id;
            && (a == Stored(id) <==> call.reply == Done) && OnlyChanges(s, s', id)
            && id in s'.payments
            && s'.payments[id].status == (if call.reply != Done && call.rollbackOk then RefundFailed else Refunded)
            && RefundsOf(s', id) == RefundsOf(s, id)
                 + (if call.reply == Refused then []
                    else if call.amount.Some? then [call.amount.value] else [s.payments[id].amount]))
  {
  }

  // After a refund whose success was reported as an error, some further run refunds the payment
  // again exactly when the record could be written back as failed.
  lemma LostReplyRefundsAgainIff(s: State, call: Call)
    requires call.Refund? && call.reply == DoneButLost && Truthful(s, call) && Reaches(s, call)
    ensures var id, s' := call.found.id, Step(s, call).1;
      && RefundsOf(s', id) == RefundsOf(s, id) + [RefundAmount(s.payments[id], call.amount)]
      && ((exists calls :: RefundsOf(Run(s', calls), id) != RefundsOf(s', id)) <==> call.rollbackOk)
  {
    var id, s' := call.found.id, Step(s, call).1;
    if call.rollbackOk {
      var calls := RefundAgain(s', id);
      assert RefundsOf(Run(s', calls), id) != RefundsOf(s', id);
    } else {
      forall calls ensures RefundsOf(Run(s', calls), id) == RefundsOf(s', id) {
        FailedAndRefundedAreFinal(s', calls, id);
      }
    }
  }

  lemma RefundAgain(s: State, id: string) returns (calls: seq<Call>)
    requires id in s.payments && s.payments[id].status == RefundFailed && s.payments[id].orderID != ""
    ensures RefundsOf(Run(s, calls), id) == RefundsOf(s, id) + [s.payments[id].amount]
  {
    var p := s.payments[id];
    var retry := Refund(p.orderID, Found(id), None, {p.provider}, true, Done, true);
    calls := [retry];
    assert Truthful(s, retry);
    assert Run(s, calls) == Run(Step(s, retry).1, calls[1..]) && calls[1..] == [];
  }

  // ----- the service object ---------------------------------------------------------------

  class PaymentService {
    var payments: map<string, Payment>
    ghost var refunds: map<string, seq<real>>
    ghost var reopened: map<string, nat>

    ghost function View(): State
      reads this
    {
      State(payments, refunds, reopened)
    }

    ghost predicate Valid()
      reads this
    {
      Sound(View())
    }

    constructor ()
      ensures Valid() && View() == State(map[], map[], map[])
    {
      payments, refunds, reopened := map[], map[], map[];
    }

    method CreatePaymentIntent(call: Call) returns (a: Answer)
      requires Valid() && call.Create? && Truthful(View(), call)
      modifies this
      ensures (a, View()) == Step(old(View()), call) && Valid()
    {
      StepKeepsSound(View(), call);
      hide Sound, Truthful;
      if call.orderID == "" || call.customerID == "" {
        return Rejected;
      }
      if call.found.Found? {
        var existing := payments[call.found.id];
        if existing.status == Succeeded || existing.status == Pending {
          return Stored(call.found.id);
        }
      } else if call.found.ReadError? {
        return Rejected;
      }
      if call.order.None? || call.order.value.1 != "pending" {
        return Rejected;
      }
      var provider := call.provider;
      if provider == "" {
        provider := call.defaultProvider;
      }
      if provider !in call.providers || call.intent.None? {
        return Rejected;
      }
      if call.newID.None? {
        return Rejected;
      }
      var id := call.newID.value;
      if !call.writeOk || id in payments {
        return Rejected;
      }
      payments := payments[id := Payment(call.orderID, call.order.value.0, provider, call.intent.value.0,
                                         call.intent.value.1, call.now)];
      return Stored(id);
    }

    method UpdateStatus(id: string, status: PaymentStatus, works: bool)
      requires id in payments
      modifies this`payments
      ensures View() == if works then SetStatus(old(View()), id, status) else old(View())
    {
      if works {
        payments := payments[id := payments[id].(status := status)];
      }
    }

    method ConfirmPayment(call: Call) returns (a: Answer)
      requires Valid() && call.Confirm? && Truthful(View(), call)
      modifies this
      ensures (a, View()) == Step(old(View()), call) && Valid()
    {
      StepKeepsSound(View(), call);
      hide Sound;
      if call.provider == "" || call.intentID == "" {
        return Rejected;
      }
      if !call.found.Found? {
        return Rejected;
      }
      var id := call.found.id;
      var p := payments[id];
      if p.status == Succeeded || p.status == Refunded {
        return Stored(id);
      }
      if p.status == Failed {
        return Rejected;
      }
      if call.now - p.createdAt > CONFIRM_WINDOW {
        UpdateStatus(id, Failed, call.writeOk);
        return Rejected;
      }
      if call.provider !in call.providers {
        return Rejected;
      }
      if !call.confirmOk {
        UpdateStatus(id, Failed, call.writeOk);
        return Rejected;
      }
      UpdateStatus(id, Succeeded, call.writeOk);
      return if call.writeOk then Stored(id) else Rejected;
    }

    method RefundPayment(call: Call) returns (a: Answer)
      requires Valid() && call.Refund? && Truthful(View(), call)
      modifies this
      ensures (a, View()) == Step(old(View()), call) && Valid()
    {
      StepKeepsSound(View(), call);
      hide Sound;
      if call.orderID == "" || !call.found.Found? {
        return Rejected;
      }
      var id := call.found.id;
      var p := payments[id];
      if p.status == Refunded {
        return Stored(id);
      }
      if p.status != Succeeded && p.status != RefundFailed {
        return Rejected;
      }
      var refundAmount := p.amount;
      if call.amount.Some? {
        if call.amount.value <= 0.0 || call.amount.value > p.amount {
          return Rejected;
        }
        refundAmount := call.amount.value;
      }
      if p.provider !in call.providers {
        return Rejected;
      }
      // Written before the provider is called, so that a retry finds it.
      UpdateStatus(id, Refunded, call.writeOk);
      if !call.writeOk {
        return Rejected;
      }
      if call.reply != Refused {
        refunds := refunds[id := (if id in refunds then refunds[id] else []) + [refundAmount]];
      }
      if call.reply == Done {
        return Stored(id);
      }
      if call.reply == DoneButLost && call.rollbackOk {
        reopened := reopened[id := (if id in reopened then reopened[id] else 0) + 1];
      }
      UpdateStatus(id, RefundFailed, call.rollbackOk);
      return Rejected;
    }
  }
}
