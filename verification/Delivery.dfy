/** From the outbox to the bus: the relay (internal/events/relay.go). */
module Delivery {
  import opened Common

  // ----- the relay ------------------------------------------------------------------------

  // published: which outbox records are marked; sent: the records handed to the bus, oldest
  // first; missed: for each record, the polls that sent it but could not mark it.
  datatype Relay = Relay(published: seq<bool>, sent: seq<nat>, missed: seq<nat>)

  // batch: what FetchUnsent returned, None when it failed.
  datatype RelayCall = Store | Poll(batch: Option<seq<nat>>, markOk: bool)

  ghost predicate FetchOK(r: Relay, limit: nat, call: RelayCall) {
    call.Poll? && call.batch.Some? ==>
      && |call.batch.value| <= limit
      && (forall k :: 0 <= k < |call.batch.value| ==>
            call.batch.value[k] < |r.published| && !r.published[call.batch.value[k]])
      && (forall j, k :: 0 <= j < k < |call.batch.value| ==> call.batch.value[j] != call.batch.value[k])
  }

  function RelayNext(r: Relay, call: RelayCall): Relay {
    match call
    case Store => Relay(r.published + [false], r.sent, r.missed + [0])
    case Poll(batch, markOk) =>
      if batch.None? || batch.value == [] then r
      else
        Relay(seq(|r.published|, i requires 0 <= i < |r.published| => r.published[i] || (markOk && i in batch.value)),
              r.sent + batch.value,
              seq(|r.missed|, i requires 0 <= i < |r.missed| =>
                r.missed[i] + if !markOk && i in batch.value then 1 else 0))
  }

  ghost predicate RelaySound(r: Relay) {
    && |r.missed| == |r.published|
    && (forall i :: i in r.sent ==> i < |r.published|)
    && forall i :: 0 <= i < |r.published| ==>
         multiset(r.sent)[i] == r.missed[i] + if r.published[i] then 1 else 0
  }

  lemma {:induction false} OnceInBatch(batch: seq<nat>, i: nat)
    requires forall j, k :: 0 <= j < k < |batch| ==> batch[j] != batch[k]
    ensures multiset(batch)[i] == if i in batch then 1 else 0
  {
    if batch != [] {
      OnceInBatch(batch[1..], i);
      assert batch == [batch[0]] + batch[1..];
    }
  }

  lemma RelayKeepsSound(r: Relay, limit: nat, call: RelayCall)
    requires RelaySound(r) && FetchOK(r, limit, call)
    ensures RelaySound(RelayNext(r, call))
  {
    var r' := RelayNext(r, call);
    if call.Store? {
      assert |r.published| !in r.sent;
    } else if call.batch.Some? && call.batch.value != [] {
      var batch := call.batch.value;
      forall i | 0 <= i < |r'.published|
        ensures multiset(r'.sent)[i] == r'.missed[i] + if r'.published[i] then 1 else 0
      {
        assert multiset(r.sent + batch) == multiset(r.sent) + multiset(batch);
        OnceInBatch(batch, i);
      }
    }
  }

  ghost function RelayRun(r: Relay, limit: nat, calls: seq<RelayCall>): Relay
    decreases |calls|
  {
    if calls == [] then r
    else RelayRun(if FetchOK(r, limit, calls[0]) then RelayNext(r, calls[0]) else r, limit, calls[1..])
  }

  // Over every run: a marked record has been sent, and a record is sent exactly once more than
  // the marks it missed (as often as that, while it is unmarked).
  lemma {:induction false} RelayMarksOnlySent(r: Relay, limit: nat, calls: seq<RelayCall>)
    requires RelaySound(r)
    ensures RelaySound(RelayRun(r, limit, calls))
    decreases |calls|
  {
    if calls != [] {
      if FetchOK(r, limit, calls[0]) {
        RelayKeepsSound(r, limit, calls[0]);
        RelayMarksOnlySent(RelayNext(r, calls[0]), limit, calls[1..]);
      } else {
        RelayMarksOnlySent(r, limit, calls[1..]);
      }
    }
  }

  // ----- every record gets out ------------------------------------------------------------

  function Unsent(published: seq<bool>): nat {
    if published == [] then 0 else (if published[0] then 0 else 1) + Unsent(published[1..])
  }

  // A poll in which everything works: the fetch returns as many unmarked records as there are,
  // up to the limit, and they are marked.
  ghost predicate Works(r: Relay, limit: nat, call: RelayCall) {
    && call.Poll? && call.markOk && call.batch.Some? && FetchOK(r, limit, call)
    && |call.batch.value| == if Unsent(r.published) < limit then Unsent(r.published) else limit
  }

  ghost predicate AllWork(r: Relay, limit: nat, calls: seq<RelayCall>)
    decreases |calls|
  {
    calls == [] || (Works(r, limit, calls[0]) && AllWork(RelayNext(r, calls[0]), limit, calls[1..]))
  }

  lemma {:induction false} MarkOne(published: seq<bool>, i: nat)
    requires i < |published| && !published[i]
    ensures Unsent(published[i := true]) == Unsent(published) - 1
  {
    if i == 0 {
      assert published[0 := true][1..] == published[1..];
    } else {
      assert published[i := true][1..] == published[1..][i - 1 := true];
      MarkOne(published[1..], i - 1);
    }
  }

  function Marked(published: seq<bool>, batch: seq<nat>): (r: seq<bool>)
    ensures |r| == |published|
    ensures forall i :: 0 <= i < |r| ==> r[i] == (published[i] || i in batch)
  {
    seq(|published|, i requires 0 <= i < |published| => published[i] || i in batch)
  }

  lemma {:induction false} MarkAll(published: seq<bool>, batch: seq<nat>)
    requires forall k :: 0 <= k < |batch| ==> batch[k] < |published| && !published[batch[k]]
    requires forall j, k :: 0 <= j < k < |batch| ==> batch[j] != batch[k]
    ensures Unsent(Marked(published, batch)) == Unsent(published) - |batch|
    decreases |batch|
  {
    if batch == [] {
      assert Marked(published, batch) == published;
    } else {
      var init, last := batch[..|batch| - 1], batch[|batch| - 1];
      MarkAll(published, init);
      var before := Marked(published, init);
      MarkOne(before, last);
      assert batch == init + [last];
      assert Marked(published, batch) == before[last := true];
    }
  }

  lemma {:induction false} NoneUnsent(published: seq<bool>)
    ensures Unsent(published) == 0 <==> forall i :: 0 <= i < |published| ==> published[i]
    decreases |published|
  {
    if published != [] {
      NoneUnsent(published[1..]);
      assert published == [published[0]] + published[1..];
    }
  }

  // What a poll does to the backlog and to the bus.
  lemma PollShrinksBacklog(r: Relay, limit: nat, call: RelayCall)
    requires FetchOK(r, limit, call) && call.Poll?
    ensures var r', n := RelayNext(r, call), if call.batch.Some? then |call.batch.value| else 0;
      && Unsent(r'.published) == Unsent(r.published) - (if call.markOk then n else 0)
      && r'.sent == r.sent + if call.batch.Some? then call.batch.value else []
  {
    if call.batch.Some? {
      var batch := call.batch.value;
      MarkAll(r.published, batch);
      if call.markOk {
        assert RelayNext(r, call).published == Marked(r.published, batch);
      } else {
        assert RelayNext(r, call).published == r.published;
      }
    }
  }

  lemma Distribute(limit: nat, n: nat)
    ensures limit * (1 + n) == limit + limit * n && limit * n >= 0
  {
  }

  lemma {:induction false} BacklogShrinks(r: Relay, limit: nat, calls: seq<RelayCall>)
    requires AllWork(r, limit, calls)
    ensures var left := Unsent(r.published) - limit * |calls|;
      Unsent(RelayRun(r, limit, calls).published) == if left > 0 then left else 0
    decreases |calls|
  {
    if calls != [] {
      var next := RelayNext(r, calls[0]);
      PollShrinksBacklog(r, limit, calls[0]);
      assert RelayRun(r, limit, calls) == RelayRun(next, limit, calls[1..]);
      hide RelayNext, FetchOK, Unsent, RelayRun;
      BacklogShrinks(next, limit, calls[1..]);
      assert |calls| == 1 + |calls[1..]|;
      Distribute(limit, |calls[1..]|);
    }
  }

  // Each working poll takes a whole batch off the backlog; after enough of them every record is
  // marked, and so has been sent.
  lemma BacklogDrains(r: Relay, limit: nat, calls: seq<RelayCall>)
    requires RelaySound(r) && AllWork(r, limit, calls)
    ensures var r', left := RelayRun(r, limit, calls), Unsent(r.published) - limit * |calls|;
      && Unsent(r'.published) == (if left > 0 then left else 0)
      && (left <= 0 ==> forall i :: 0 <= i < |r'.published| ==> r'.published[i] && i in r'.sent)
  {
    var r' := RelayRun(r, limit, calls);
    BacklogShrinks(r, limit, calls);
    RelayMarksOnlySent(r, limit, calls);
    NoneUnsent(r'.published);
    forall i | 0 <= i < |r'.published| && r'.published[i] ensures i in r'.sent {
      assert multiset(r'.sent)[i] > 0;
    }
  }

  class OutboxRelay {
    const batch: nat
    var published: seq<bool>
    var sent: seq<nat>
    ghost var missed: seq<nat>

    ghost function View(): Relay
      reads this
    {
      Relay(published, sent, missed)
    }

    constructor (batchSize: int)
      ensures View() == Relay([], [], []) && RelaySound(View())
      ensures batch == if batchSize <= 0 then 100 else batchSize
    {
      batch := if batchSize <= 0 then 100 else batchSize;
      published, sent, missed := [], [], [];
    }

    // A service stores an event.
    method StoreRecord() returns (id: nat)
      requires RelaySound(View())
      modifies this
      ensures View() == RelayNext(old(View()), Store) && RelaySound(View())
      ensures id == |old(published)|
    {
      RelayKeepsSound(View(), batch, Store);
      id := |published|;
      published, missed := published + [false], missed + [0];
    }

    method MarkPublished(ids: seq<nat>)
      requires forall k :: 0 <= k < |ids| ==> ids[k] < |published|
      modifies this`published
      ensures |published| == |old(published)|
      ensures forall i :: 0 <= i < |published| ==> published[i] == (old(published)[i] || i in ids)
    {
      for k := 0 to |ids|
        invariant |published| == |old(published)|
        invariant forall i :: 0 <= i < |published| ==> published[i] == (old(published)[i] || i in ids[..k])
      {
        assert ids[..k + 1] == ids[..k] + [ids[k]];
        published := published[ids[k] := true];
      }
      assert ids[..|ids|] == ids;
    }

    // bus.Publish for every record, collecting the IDs.
    method PublishAll(records: seq<nat>) returns (ids: seq<nat>)
      modifies this`sent
      ensures sent == old(sent) + records && ids == records
    {
      ids := [];
      for k := 0 to |records|
        invariant sent == old(sent) + records[..k] && ids == records[..k]
      {
        sent := sent + [records[k]];
        ids := ids + [records[k]];
      }
    }

    method Poll(fetched: Option<seq<nat>>, markOk: bool)
      requires RelaySound(View()) && FetchOK(View(), batch, RelayCall.Poll(fetched, markOk))
      modifies this
      ensures View() == RelayNext(old(View()), RelayCall.Poll(fetched, markOk)) && RelaySound(View())
    {
      RelayKeepsSound(View(), batch, RelayCall.Poll(fetched, markOk));
      hide RelaySound;
      if fetched.None? || |fetched.value| == 0 {
        return;
      }
      var ids := PublishAll(fetched.value);
      ghost var m := missed;
      missed := seq(|m|, i requires 0 <= i < |m| => m[i] + if !markOk && i in ids then 1 else 0);
      if markOk {
        MarkPublished(ids);
      }
      ghost var after := RelayNext(old(View()), RelayCall.Poll(fetched, markOk));
      assert published == after.published && missed == after.missed;
    }
  }
}
