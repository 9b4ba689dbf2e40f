/** Stock history (internal/core/inventory/features/history/service.go): the handler that turns
    stock-changed events into records, run by the concurrent workers of the in-process bus, and
    what reading the records in time order replays to. */
module History {
  import opened Common
  import opened Counting
  import opened Inventory
  import Bus = LocalBus

  // The bus hands over the payload it was given; the outbox relay hands over stored bytes.
  datatype Payload = Pointer(event: StockEvent) | Bytes

  datatype Envelope = Envelope(payload: Payload, timestamp: int)

  datatype Record = Record(event: StockEvent, changedAt: int)

  // One call of the handler: whether an ID is generated and the record is written.
  datatype Try = Try(idOk: bool, createOk: bool)

  predicate Accepts(e: Envelope, t: Try) {
    e.payload.Bytes? || (t.idOk && t.createOk)
  }

  function Recorded(e: Envelope, t: Try): seq<Record> {
    if e.payload.Pointer? && Accepts(e, t) then [Record(e.payload.event, e.timestamp)] else []
  }

  class HistoryService {
    var records: seq<Record>

    constructor ()
      ensures records == []
    {
      records := [];
    }

    method HandleStockChanged(e: Envelope, t: Try) returns (ok: bool)
      modifies this
      ensures ok == Accepts(e, t) && records == old(records) + Recorded(e, t)
    {
      if !e.payload.Pointer? {
        return true;
      }
      if !t.idOk {
        return false;
      }
      var h := Record(e.payload.event, e.timestamp);
      if !t.createOk {
        return false;
      }
      records := records + [h];
      return true;
    }
  }

  // ----- the handler among the workers of the bus -----------------------------------------

  datatype System = System(bus: Bus.Bus, records: seq<Record>)

  // Attempt: a worker calls the history handler; Other: any other step of the bus.
  datatype Step = Other(step: Bus.Step) | Attempt(i: nat, t: Try)

  // What the published events carry, by event ID, and the number of the history handler.
  datatype Setting = Setting(config: Bus.Config, carries: string -> Envelope, handler: Bus.Handler)

  predicate Possible(g: Setting, s: System, step: Step) {
    match step
    case Other(b) => Bus.Enabled(s.bus, b) && (b.Invoke? ==> s.bus.jobs[b.i].handler != g.handler)
    case Attempt(i, t) => Bus.Enabled(s.bus, Bus.Invoke(i, true)) && s.bus.jobs[i].handler == g.handler
  }

  function BusStep(g: Setting, s: System, step: Step): Bus.Step
    requires Possible(g, s, step)
  {
    match step
    case Other(b) => b
    case Attempt(i, t) => Bus.Invoke(i, Accepts(g.carries(s.bus.jobs[i].event.id), t))
  }

  function Next(g: Setting, s: System, step: Step): System
    requires Possible(g, s, step)
  {
    System(Bus.Next(g.config, s.bus, BusStep(g, s, step)),
           s.records + if step.Attempt? then Recorded(g.carries(s.bus.jobs[step.i].event.id), step.t) else [])
  }

  // A schedule is any sequence of steps; impossible entries are skipped.
  function Run(g: Setting, s: System, steps: seq<Step>): System
    decreases |steps|
  {
    if steps == [] then s
    else Run(g, if Possible(g, s, steps[0]) then Next(g, s, steps[0]) else s, steps[1..])
  }

  const IDLE := System(Bus.EMPTY_BUS, [])

  // The record a job of the bus leaves: those the history handler has handled, with a pointer.
  function RecordOf(g: Setting): Bus.Job -> Option<Record> {
    (j: Bus.Job) =>
      var e := g.carries(j.event.id);
      if j.handler == g.handler && j.outcome == Bus.Succeeded && e.payload.Pointer?
      then Some(Record(e.payload.event, e.timestamp)) else None
  }

  ghost predicate Sound(g: Setting, s: System) {
    Bus.Inv(g.config, s.bus) && multiset(s.records) == Collect(s.bus.jobs, RecordOf(g))
  }

  lemma NextKeepsSound(g: Setting, s: System, step: Step)
    requires Bus.ValidConfig(g.config) && Sound(g, s) && Possible(g, s, step)
    ensures Sound(g, Next(g, s, step))
  {
    hide Bus.Inv, Collect;
    var b := BusStep(g, s, step);
    Bus.NextKeepsInv(g.config, s.bus, b);
    if Bus.IsWorker(b) {
      Bus.PendingIsOngoing(g.config, s.bus, b.i);
      WorkerRecords(g, s, step);
    } else if b.Publish? {
      var jobs := Bus.NewJobs(g.config, b.event, Bus.Handlers(s.bus, b.event.topic));
      CollectAppend(s.bus.jobs, jobs, RecordOf(g));
      CollectNone(jobs, RecordOf(g));
    }
  }

  lemma WorkerRecords(g: Setting, s: System, step: Step)
    requires Possible(g, s, step) && Bus.IsWorker(BusStep(g, s, step))
    requires var j := s.bus.jobs[BusStep(g, s, step).i];
      j.outcome == Bus.Pending <==> j.phase in {Bus.Trying, Bus.Sleeping, Bus.Exhausted}
    requires multiset(s.records) == Collect(s.bus.jobs, RecordOf(g))
    ensures var s' := Next(g, s, step);
      multiset(s'.records) == Collect(s'.bus.jobs, RecordOf(g))
  {
    var i, j' := WorkerPicks(g, s, step);
    hide Next, RecordOf;
    if RecordOf(g)(s.bus.jobs[i]) == RecordOf(g)(j') {
      CollectKeep(s.bus.jobs, i, j', RecordOf(g));
    } else {
      CollectGain(s.bus.jobs, i, j', RecordOf(g));
    }
  }

  // What a worker's step does to its job, and to the records.
  lemma WorkerPicks(g: Setting, s: System, step: Step) returns (i: nat, j': Bus.Job)
    requires Possible(g, s, step) && Bus.IsWorker(BusStep(g, s, step))
    requires var j := s.bus.jobs[BusStep(g, s, step).i];
      j.outcome == Bus.Pending <==> j.phase in {Bus.Trying, Bus.Sleeping, Bus.Exhausted}
    ensures var s' := Next(g, s, step);
      && i < |s.bus.jobs| && s'.bus.jobs == s.bus.jobs[i := j']
      && if RecordOf(g)(s.bus.jobs[i]) == RecordOf(g)(j') then s'.records == s.records
         else RecordOf(g)(s.bus.jobs[i]).None? && multiset(s'.records) == multiset(s.records) + Picked(RecordOf(g)(j'))
  {
    hide Bus.Next;
    var b, s' := BusStep(g, s, step), Next(g, s, step);
    Bus.WorkerJob(g.config, s.bus, b);
    i, j' := b.i, s'.bus.jobs[b.i];
  }

  lemma {:induction false} RunKeepsSound(g: Setting, s: System, steps: seq<Step>)
    requires Bus.ValidConfig(g.config) && Sound(g, s)
    ensures Sound(g, Run(g, s, steps))
    decreases |steps|
  {
    if steps != [] {
      if Possible(g, s, steps[0]) {
        NextKeepsSound(g, s, steps[0]);
        hide Sound;
        RunKeepsSound(g, Next(g, s, steps[0]), steps[1..]);
      } else {
        RunKeepsSound(g, s, steps[1..]);
      }
    }
  }

  // A job of the history handler that was handled and whose event carried r.
  predicate Leaves(g: Setting, j: Bus.Job, r: Record) {
    && j.handler == g.handler && j.outcome == Bus.Succeeded
    && g.carries(j.event.id) == Envelope(Pointer(r.event), r.changedAt)
  }

  // In every interleaving of publishers, workers and retries, the records are the pointer
  // payloads of the handled events, each once, in the order in which the workers finish; and a
  // record is there if and only if some event with that pointer payload was handled.
  lemma RecordsAreHandledEvents(g: Setting, steps: seq<Step>, r: Record)
    requires Bus.ValidConfig(g.config)
    ensures var s := Run(g, IDLE, steps);
      && multiset(s.records) == Collect(s.bus.jobs, RecordOf(g))
      && (r in s.records <==> exists j :: j in s.bus.jobs && Leaves(g, j, r))
  {
    RunKeepsSound(g, IDLE, steps);
    var s := Run(g, IDLE, steps);
    CollectHas(s.bus.jobs, RecordOf(g), r);
    assert r in s.records <==> r in multiset(s.records);
    forall j | j in s.bus.jobs ensures Leaves(g, j, r) <==> RecordOf(g)(j) == Some(r) {
    }
    hide Run, Collect, Bus.Inv, Leaves, RecordOf;
  }

  // ----- reading the records in time order ------------------------------------------------

  function Events(rs: seq<Record>): (es: seq<StockEvent>)
    ensures |es| == |rs| && forall i :: 0 <= i < |rs| ==> es[i] == rs[i].event
  {
    seq(|rs|, i requires 0 <= i < |rs| => rs[i].event)
  }

  predicate TimeOrdered(rs: seq<Record>) {
    forall i, j :: 0 <= i < j < |rs| ==> rs[i].changedAt <= rs[j].changedAt
  }

  // A listing by timestamp: databases order equal timestamps as they like.
  ghost predicate IsReading(rs: seq<Record>, reading: seq<Record>) {
    multiset(reading) == multiset(rs) && TimeOrdered(reading)
  }

  // Different records of one key never share a timestamp.
  predicate TiesAgree(rs: seq<Record>) {
    forall i, j :: 0 <= i < j < |rs| && rs[i].event.key == rs[j].event.key && rs[i].changedAt == rs[j].changedAt
      ==> rs[i] == rs[j]
  }

  function Only(rs: seq<Record>, p: Record -> bool): seq<Record> {
    if rs == [] then []
    else
      var r := rs[|rs| - 1];
      Only(rs[..|rs| - 1], p) + if p(r) then [r] else []
  }

  function OfKey(key: Key): Record -> bool {
    (r: Record) => r.event.key == key
  }

  function OfVariant(variant: string): Record -> bool {
    (r: Record) => r.event.key.variant == variant
  }

  lemma {:induction false} OnlyCount(rs: seq<Record>, p: Record -> bool, r: Record)
    ensures multiset(Only(rs, p))[r] == if p(r) then multiset(rs)[r] else 0
  {
    if rs != [] {
      var init, last := rs[..|rs| - 1], rs[|rs| - 1];
      OnlyCount(init, p, r);
      assert rs == init + [last];
    }
  }

  lemma {:induction false} OnlyInherits(rs: seq<Record>, p: Record -> bool)
    requires TimeOrdered(rs)
    ensures TimeOrdered(Only(rs, p))
    ensures forall r :: r in Only(rs, p) ==> r in rs && p(r)
  {
    if rs != [] {
      OnlyInherits(rs[..|rs| - 1], p);
      assert forall r :: r in rs[..|rs| - 1] ==> r in rs && r.changedAt <= rs[|rs| - 1].changedAt;
    }
  }

  lemma OnlySame(a: seq<Record>, b: seq<Record>, p: Record -> bool)
    requires multiset(a) == multiset(b)
    ensures multiset(Only(a, p)) == multiset(Only(b, p))
  {
    forall r ensures multiset(Only(a, p))[r] == multiset(Only(b, p))[r] {
      OnlyCount(a, p, r);
      OnlyCount(b, p, r);
    }
  }

  // Replaying a key only looks at its own records.
  lemma {:induction false} ReplayOnly(rs: seq<Record>, p: Record -> bool, key: Key, q: int)
    requires forall r :: OfKey(key)(r) ==> p(r)
    ensures Chained(Events(rs), key, q) <==> Chained(Events(Only(rs, p)), key, q)
    ensures LastQuantity(Events(rs), key, q) == LastQuantity(Events(Only(rs, p)), key, q)
  {
    if rs != [] {
      var init, last := rs[..|rs| - 1], rs[|rs| - 1];
      ReplayOnly(init, p, key, q);
      assert Events(rs) == Events(init) + [last.event];
      EmitOne(Events(init), last.event, key, q);
      if p(last) {
        assert Events(Only(rs, p)) == Events(Only(init, p)) + [last.event];
        EmitOne(Events(Only(init, p)), last.event, key, q);
      } else {
        assert Only(rs, p) == Only(init, p);
        assert !OfKey(key)(last);
      }
    }
  }

  // Time order leaves one reading when equal timestamps mean equal records.
  lemma {:induction false} OneReading(a: seq<Record>, b: seq<Record>)
    requires multiset(a) == multiset(b) && TimeOrdered(a) && TimeOrdered(b) && NoTies(a)
    ensures a == b
    decreases |a|
  {
    SameLength(a, b);
    if a != [] {
      var n := |a| - 1;
      SameLast(a, b);
      SameButLast(a, b);
      PrefixOrdered(a);
      PrefixOrdered(b);
      hide TimeOrdered, NoTies;
      OneReading(a[..n], b[..n]);
      assert a == a[..n] + [a[n]] && b == b[..n] + [b[n]];
    }
  }

  predicate NoTies(rs: seq<Record>) {
    forall i, j :: 0 <= i < j < |rs| && rs[i].changedAt == rs[j].changedAt ==> rs[i] == rs[j]
  }

  lemma PrefixOrdered(rs: seq<Record>)
    requires rs != []
    ensures TimeOrdered(rs) ==> TimeOrdered(rs[..|rs| - 1])
    ensures NoTies(rs) ==> NoTies(rs[..|rs| - 1])
  {
  }

  lemma SameLast(a: seq<Record>, b: seq<Record>)
    requires multiset(a) == multiset(b) && TimeOrdered(a) && TimeOrdered(b) && NoTies(a) && |a| == |b| > 0
    ensures a[|a| - 1] == b[|b| - 1]
  {
    var x, y := a[|a| - 1], b[|b| - 1];
    assert x in multiset(b) && y in multiset(a);
    var i :| 0 <= i < |b| && b[i] == x;
    var j :| 0 <= j < |a| && a[j] == y;
  }

  lemma ReadingReplays(rs: seq<Record>, reading: seq<Record>, key: Key, q: int)
    requires TimeOrdered(rs) && IsReading(rs, reading) && TiesAgree(rs)
    ensures Chained(Events(reading), key, q) <==> Chained(Events(rs), key, q)
    ensures LastQuantity(Events(reading), key, q) == LastQuantity(Events(rs), key, q)
  {
    var p := OfKey(key);
    OnlyInherits(rs, p);
    OnlyInherits(reading, p);
    OnlySame(rs, reading, p);
    OfKeyNoTies(rs, key);
    ReplayOnly(rs, p, key, q);
    ReplayOnly(reading, p, key, q);
    hide *;
    OneReading(Only(rs, p), Only(reading, p));
  }

  lemma OfKeyNoTies(rs: seq<Record>, key: Key)
    requires TimeOrdered(rs) && TiesAgree(rs)
    ensures NoTies(Only(rs, OfKey(key)))
  {
    OnlyInherits(rs, OfKey(key));
    var a := Only(rs, OfKey(key));
    hide Only, TimeOrdered;
    forall i, j | 0 <= i < j < |a| && a[i].changedAt == a[j].changedAt ensures a[i] == a[j] {
      assert a[i] in a && a[j] in a;
      var k :| 0 <= k < |rs| && rs[k] == a[i];
      var l :| 0 <= l < |rs| && rs[l] == a[j];
    }
  }

  lemma {:induction false} ChainedAt(es: seq<StockEvent>, key: Key, q: int, k: nat)
    requires Chained(es, key, q) && k < |es| && es[k].key == key
    ensures es[k].oldQuantity == LastQuantity(es[..k], key, q)
  {
    var n := |es| - 1;
    if k < n {
      assert es[..n][..k] == es[..k];
      ChainedAt(es[..n], key, q, k);
    }
  }

  lemma {:induction false} LastIs(es: seq<StockEvent>, key: Key, q: int, i: nat)
    requires i < |es| && es[i].key == key && forall k :: i < k < |es| ==> es[k].key != key
    ensures LastQuantity(es, key, q) == es[i].newQuantity
  {
    var n := |es| - 1;
    if i < n {
      LastIs(es[..n], key, q, i);
    }
  }

  // Two different records of a key with one timestamp and none of the key in between.
  ghost predicate Neighbours(rs: seq<Record>, i: nat, j: nat) {
    && i < j < |rs| && rs[i] != rs[j]
    && rs[i].event.key == rs[j].event.key && rs[i].changedAt == rs[j].changedAt
    && forall k :: i < k < j ==> rs[k].event.key != rs[i].event.key
  }

  lemma {:induction false} FindNeighbours(rs: seq<Record>, i: nat, j: nat) returns (a: nat, b: nat)
    requires TimeOrdered(rs) && i < j < |rs| && rs[i] != rs[j]
    requires rs[i].event.key == rs[j].event.key && rs[i].changedAt == rs[j].changedAt
    ensures Neighbours(rs, a, b)
    decreases j - i
  {
    if k :| i < k < j && rs[k].event.key == rs[i].event.key {
      if rs[i] != rs[k] {
        a, b := FindNeighbours(rs, i, k);
      } else {
        a, b := FindNeighbours(rs, k, j);
      }
    } else {
      a, b := i, j;
    }
  }

  // Swapping them is another reading, which no longer chains.
  lemma SwapBreaks(rs: seq<Record>, i: nat, j: nat, q: int)
    requires TimeOrdered(rs) && Neighbours(rs, i, j) && Chained(Events(rs), rs[i].event.key, q)
    ensures var reading := rs[i := rs[j]][j := rs[i]];
      IsReading(rs, reading) && !Chained(Events(reading), rs[i].event.key, q)
  {
    var key, a, b := rs[i].event.key, rs[i].event, rs[j].event;
    var reading := rs[i := rs[j]][j := rs[i]];
    SwapIsReading(rs, i, j);
    ChainedAt(Events(rs), key, q, i);
    ChainedAt(Events(rs), key, q, j);
    LastIs(Events(rs)[..j], key, q, i);
    assert b.oldQuantity == a.newQuantity;
    if Chained(Events(reading), key, q) {
      ChainedAt(Events(reading), key, q, i);
      assert Events(reading)[..i] == Events(rs)[..i];
      ChainedAt(Events(reading), key, q, j);
      LastIs(Events(reading)[..j], key, q, i);
    }
  }

  lemma SwapIsReading(rs: seq<Record>, i: nat, j: nat)
    requires TimeOrdered(rs) && i < j < |rs| && rs[i].changedAt == rs[j].changedAt
    ensures IsReading(rs, rs[i := rs[j]][j := rs[i]])
  {
    var reading := rs[i := rs[j]][j := rs[i]];
    assert multiset(reading) == multiset(rs);
    forall k, l | 0 <= k < l < |rs| ensures reading[k].changedAt <= reading[l].changedAt {
      assert reading[k].changedAt == rs[k].changedAt && reading[l].changedAt == rs[l].changedAt;
    }
  }

  lemma UnchainedReading(rs: seq<Record>, start: Key -> int) returns (reading: seq<Record>, key: Key)
    requires TimeOrdered(rs) && !TiesAgree(rs) && forall k :: Chained(Events(rs), k, start(k))
    ensures IsReading(rs, reading) && !Chained(Events(reading), key, start(key))
    ensures exists r :: r in rs && r.event.key == key
  {
    var i, j :| 0 <= i < j < |rs| && rs[i].event.key == rs[j].event.key
      && rs[i].changedAt == rs[j].changedAt && rs[i] != rs[j];
    var a, b := FindNeighbours(rs, i, j);
    key := rs[a].event.key;
    SwapBreaks(rs, a, b, start(key));
    reading := rs[a := rs[b]][b := rs[a]];
    assert rs[a] in rs;
  }

  // ----- from the services to the history -------------------------------------------------

  function Stamped(es: seq<StockEvent>, times: seq<int>): (rs: seq<Record>)
    requires |es| == |times|
    ensures |rs| == |es| && forall i :: 0 <= i < |es| ==> rs[i] == Record(es[i], times[i])
  {
    seq(|es|, i requires 0 <= i < |es| => Record(es[i], times[i]))
  }

  function IdOf(handler: Bus.Handler): Bus.Job -> Option<string> {
    (j: Bus.Job) => if j.handler == handler then Some(j.event.id) else None
  }

  predicate CarriesAll(g: Setting, rs: seq<Record>, ids: seq<string>) {
    && |ids| == |rs|
    && forall i :: 0 <= i < |rs| ==> g.carries(ids[i]) == Envelope(Pointer(rs[i].event), rs[i].changedAt)
  }

  lemma CarriesOthers(g: Setting, rs: seq<Record>, ids: seq<string>, k: nat)
    requires CarriesAll(g, rs, ids) && k < |rs|
    ensures CarriesAll(g, rs[..k] + rs[k + 1..], ids[..k] + ids[k + 1..])
  {
    var ids', rs' := ids[..k] + ids[k + 1..], rs[..k] + rs[k + 1..];
    forall i | 0 <= i < |rs'| ensures g.carries(ids'[i]) == Envelope(Pointer(rs'[i].event), rs'[i].changedAt) {
      var m := if i < k then i else i + 1;
      assert ids'[i] == ids[m] && rs'[i] == rs[m];
    }
  }

  // The emitted events, with their timestamps and under the given IDs, were each accepted once
  // for the history handler and handled in the end.
  ghost predicate AllHandled(g: Setting, jobs: seq<Bus.Job>, rs: seq<Record>, ids: seq<string>) {
    && CarriesAll(g, rs, ids) && Collect(jobs, IdOf(g.handler)) == multiset(ids)
    && forall j :: j in jobs && j.handler == g.handler ==> j.outcome == Bus.Succeeded
  }

  lemma {:induction false} HandledAreRecorded(g: Setting, jobs: seq<Bus.Job>, rs: seq<Record>, ids: seq<string>)
    requires AllHandled(g, jobs, rs, ids)
    ensures Collect(jobs, RecordOf(g)) == multiset(rs)
    decreases |jobs|
  {
    if jobs == [] {
      assert |multiset(ids)| == |ids|;
    } else if jobs[0].handler == g.handler {
      var k := FirstHandled(g, jobs, rs, ids);
      hide AllHandled;
      HandledAreRecorded(g, jobs[1..], rs[..k] + rs[k + 1..], ids[..k] + ids[k + 1..]);
      DropAt(rs, k);
    } else {
      assert forall j :: j in jobs[1..] ==> j in jobs;
      HandledAreRecorded(g, jobs[1..], rs, ids);
    }
  }

  // The record of the first job, and what is left for the others.
  lemma FirstHandled(g: Setting, jobs: seq<Bus.Job>, rs: seq<Record>, ids: seq<string>) returns (k: nat)
    requires AllHandled(g, jobs, rs, ids) && jobs != [] && jobs[0].handler == g.handler
    ensures k < |rs| == |ids| && RecordOf(g)(jobs[0]) == Some(rs[k])
    ensures AllHandled(g, jobs[1..], rs[..k] + rs[k + 1..], ids[..k] + ids[k + 1..])
  {
    var id := jobs[0].event.id;
    CollectFirst(jobs, IdOf(g.handler));
    hide Collect;
    assert id in multiset(ids) && jobs[0] in jobs;
    k :| 0 <= k < |ids| && ids[k] == id;
    RestOfIds(jobs, ids, k, g.handler);
    CarriesOthers(g, rs, ids, k);
    assert RecordOf(g)(jobs[0]) == Some(rs[k]);
    hide CarriesAll;
    assert forall j :: j in jobs[1..] ==> j in jobs;
  }

  lemma RestOfIds(jobs: seq<Bus.Job>, ids: seq<string>, k: nat, handler: Bus.Handler)
    requires jobs != [] && jobs[0].handler == handler && k < |ids| && ids[k] == jobs[0].event.id
    requires Collect(jobs, IdOf(handler)) == multiset(ids)
    ensures Collect(jobs[1..], IdOf(handler)) == multiset(ids[..k] + ids[k + 1..])
  {
    DropAt(ids, k);
    CollectFirst(jobs, IdOf(handler));
    hide Collect;
    Cancel(Collect(jobs[1..], IdOf(handler)), multiset(ids[..k] + ids[k + 1..]), ids[k]);
  }

  // The history listed for a variant replays to the stock: every location's records chain from
  // its first quantity to the stored one.
  ghost predicate Replays(s: State, calls: seq<Call>, variant: string, reading: seq<Record>) {
    forall key: Key :: key.variant == variant ==> ReplaysKey(s, calls, reading, key)
  }

  ghost predicate ReplaysKey(s: State, calls: seq<Call>, reading: seq<Record>, key: Key) {
    && Chained(Events(reading), key, Quantity(s, key))
    && LastQuantity(Events(reading), key, Quantity(s, key)) == Quantity(Inventory.Run(s, calls), key)
  }

  // However the workers interleave: a variant's records, read in time order, replay a run to the
  // stored stock for every way of listing equal timestamps, exactly when different records of
  // one location never share a timestamp.
  lemma HistoryReplaysIff(s: State, calls: seq<Call>, times: seq<int>, ids: seq<string>, g: Setting,
                          steps: seq<Step>, variant: string)
    requires s.events == [] && forall call :: call in calls ==> Traceable(call)
    requires |times| == |Inventory.Run(s, calls).events| && TimeOrdered(Stamped(Inventory.Run(s, calls).events, times))
    requires Bus.ValidConfig(g.config)
    requires AllHandled(g, Run(g, IDLE, steps).bus.jobs, Stamped(Inventory.Run(s, calls).events, times), ids)
    ensures (forall reading :: IsReading(Only(Run(g, IDLE, steps).records, OfVariant(variant)), reading)
                               ==> Replays(s, calls, variant, reading))
      <==> TiesAgree(Only(Stamped(Inventory.Run(s, calls).events, times), OfVariant(variant)))
  {
    var rs, records := Stamped(Inventory.Run(s, calls).events, times), Run(g, IDLE, steps).records;
    RunKeepsSound(g, IDLE, steps);
    HandledAreRecorded(g, Run(g, IDLE, steps).bus.jobs, rs, ids);
    AuditReplays(s, s, calls);
    hide Run, Inventory.Run, Collect, AllHandled, Traceable, Bus.Inv;
    assert Events(rs) == Inventory.Run(s, calls).events;
    OnlySame(records, rs, OfVariant(variant));
    OnlyInherits(rs, OfVariant(variant));
    hide Audited;
    ReadingsReplayIff(s, calls, variant, rs, Only(records, OfVariant(variant)));
  }

  lemma OnlyChains(s: State, calls: seq<Call>, variant: string, rs: seq<Record>, key: Key)
    requires Audited(Inventory.Run(s, calls), s) && Events(rs) == Inventory.Run(s, calls).events && TimeOrdered(rs)
    ensures Chained(Events(Only(rs, OfVariant(variant))), key, Quantity(s, key))
    ensures key.variant == variant ==> ReplaysKey(s, calls, Only(rs, OfVariant(variant)), key)
  {
    hide Inventory.Run;
    assert Chained(Events(rs), key, Quantity(s, key));
    if key.variant == variant {
      ReplayOnly(rs, OfVariant(variant), key, Quantity(s, key));
    } else {
      var x := Only(rs, OfVariant(variant));
      OnlyInherits(rs, OfVariant(variant));
      NoneOfKey(x, key);
      ReplayOnly(x, OfKey(key), key, Quantity(s, key));
    }
  }

  lemma {:induction false} NoneOfKey(rs: seq<Record>, key: Key)
    requires forall r :: r in rs ==> r.event.key != key
    ensures Only(rs, OfKey(key)) == []
  {
    if rs != [] {
      assert forall r :: r in rs[..|rs| - 1] ==> r in rs;
      NoneOfKey(rs[..|rs| - 1], key);
    }
  }

  lemma ReadingsReplayIff(s: State, calls: seq<Call>, variant: string, rs: seq<Record>, listed: seq<Record>)
    requires Audited(Inventory.Run(s, calls), s) && Events(rs) == Inventory.Run(s, calls).events && TimeOrdered(rs)
    requires TimeOrdered(Only(rs, OfVariant(variant)))
    requires multiset(listed) == multiset(Only(rs, OfVariant(variant)))
    ensures (forall reading :: IsReading(listed, reading) ==> Replays(s, calls, variant, reading))
      <==> TiesAgree(Only(rs, OfVariant(variant)))
  {
    var x := Only(rs, OfVariant(variant));
    forall key ensures Chained(Events(x), key, Quantity(s, key))
      && (key.variant == variant ==> ReplaysKey(s, calls, x, key))
    {
      OnlyChains(s, calls, variant, rs, key);
    }
    forall reading ensures IsReading(listed, reading) <==> IsReading(x, reading) {
    }
    OnlyInherits(rs, OfVariant(variant));
    hide Audited, Inventory.Run, Chained, LastQuantity, Only, Events;
    if TiesAgree(x) {
      forall reading | IsReading(listed, reading) ensures Replays(s, calls, variant, reading) {
        forall key: Key | key.variant == variant ensures ReplaysKey(s, calls, reading, key) {
          ReadingReplays(x, reading, key, Quantity(s, key));
        }
      }
    } else {
      var reading, key := UnchainedReading(x, k => Quantity(s, k));
      assert key.variant == variant;
      assert !ReplaysKey(s, calls, reading, key);
    }
  }
}
