/** The dynamic batching scheduler as a state machine cut at its await points, and the class
    whose methods are its steps. */
module InferenceScheduler {
  import opened Common
  import opened FairBatch
  import opened FairBatchLaws
  import opened BatchOutputs

  datatype Config = Config(maxBatch: nat, maxQueue: nat, maxWaitMs: real, asyncMaxWaitMs: real) {
    /** The constructor clamps every setting. */
    static function Of(maxBatch: int, maxWaitMs: real, asyncMaxWaitMs: real, maxQueue: int): Config {
      var wait := MaxReal(0.0, maxWaitMs);
      Config(MaxInt(1, maxBatch), MaxInt(1, maxQueue), wait, MaxReal(wait, asyncMaxWaitMs))
    }

    predicate Valid() {
      maxBatch >= 1 && maxQueue >= 1 && 0.0 <= maxWaitMs <= asyncMaxWaitMs
    }
  }

  datatype Future =
    | Pending
    | Resolved(outs: seq<Output>)
    | Failed(error: string)
    | TimedOut
    | Cancelled

  /** Where the worker is suspended. */
  datatype Phase =
    | Idle                            // between batches (or not running)
    | Batching(active: seq<Request>)  // awaiting the executor on the concatenated batch
    | Singles(active: seq<Request>)   // awaiting the executor on each remaining member

  datatype State = State(
    queue: seq<Request>, futures: map<nat, Future>, nextId: nat, last: Option<string>, phase: Phase)
  {
    function InFlight(): seq<Request> {
      if phase.Idle? then [] else phase.active
    }
  }

  const EmptyState := State([], map[], 0, None, Idle)

  // ----- discarding -----

  predicate Expired(r: Request, now: real) {
    r.deadline.Some? && now >= r.deadline.value
  }

  function StillWaiting(queue: seq<Request>, futures: map<nat, Future>, now: real): (kept: seq<Request>)
    requires forall r :: r in queue ==> r.id in futures
    ensures forall r :: r in kept <==> r in queue && !futures[r.id].Cancelled? && !Expired(r, now)
    ensures |kept| <= |queue|
  {
    if queue == [] then []
    else
      var rest := StillWaiting(queue[..|queue| - 1], futures, now);
      var r := queue[|queue| - 1];
      if futures[r.id].Cancelled? || Expired(r, now) then rest else rest + [r]
  }

  function TimeOuts(queue: seq<Request>, futures: map<nat, Future>, now: real): (f: map<nat, Future>)
    requires forall r :: r in queue ==> r.id in futures
    ensures f.Keys == futures.Keys
  {
    if queue == [] then futures
    else
      var rest := TimeOuts(queue[..|queue| - 1], futures, now);
      var r := queue[|queue| - 1];
      if !futures[r.id].Cancelled? && Expired(r, now) then rest[r.id := TimedOut] else rest
  }

  function Discarded(st: State, now: real): State
    requires forall r :: r in st.queue ==> r.id in st.futures
  {
    st.(queue := StillWaiting(st.queue, st.futures, now), futures := TimeOuts(st.queue, st.futures, now))
  }

  // ----- submitting and cancelling -----

  datatype Call = Call(input: Tensor, scope: string, priority: string, weight: int, timeout: real)

  function MakeRequest(id: nat, c: Call, now: real): Request {
    Request(id, c.input, now,
            if c.timeout > 0.0 then Some(now + c.timeout) else None,
            if c.scope == "" then "anonymous" else c.scope,
            if c.priority == "sync" then 0 else 1,
            MaxInt(1, MinInt(100, c.weight)))
  }

  function Enqueued(st: State, r: Request): State {
    st.(queue := st.queue + [r], futures := st.futures[r.id := Pending], nextId := st.nextId + 1)
  }

  /** A full queue refuses the call; otherwise it gets a pending future and joins the queue. */
  function Submitted(cfg: Config, st: State, c: Call, now: real): State
    requires forall r :: r in st.queue ==> r.id in st.futures
  {
    var kept := Discarded(st, now);
    if |kept.queue| >= cfg.maxQueue then kept
    else Enqueued(kept, MakeRequest(kept.nextId, c, now))
  }

  function Cancel(st: State, id: nat): State {
    if id in st.futures && st.futures[id].Pending? then st.(futures := st.futures[id := Cancelled]) else st
  }

  // ----- the worker -----

  /** Earliest by (priority, time of arrival); the first of equals. */
  function SeedOf(queue: seq<Request>): (seed: Request)
    requires queue != []
    ensures seed in queue
    ensures forall r :: r in queue ==>
      seed.priority < r.priority || (seed.priority == r.priority && seed.enqueuedAt <= r.enqueuedAt)
  {
    if |queue| == 1 then queue[0]
    else
      var best := SeedOf(queue[..|queue| - 1]);
      var r := queue[|queue| - 1];
      if r.priority < best.priority || (r.priority == best.priority && r.enqueuedAt < best.enqueuedAt) then r else best
  }

  function WaitSeconds(cfg: Config, seed: Request, now: real): real {
    var ms := if seed.priority == 0 then cfg.maxWaitMs else cfg.asyncMaxWaitMs;
    var at := seed.enqueuedAt + ms / 1000.0;
    var due := if seed.deadline.Some? then MinReal(at, seed.deadline.value) else at;
    MaxReal(0.0, due - now)
  }

  predicate BatchReady(cfg: Config, queue: seq<Request>, seed: Request) {
    TotalSize(Candidates(queue, seed)) >= cfg.maxBatch
  }

  /** Members of the batch whose callers are still waiting. */
  function Active(rs: seq<Request>, futures: map<nat, Future>): seq<Request>
    requires forall r :: r in rs ==> r.id in futures
  {
    if rs == [] then []
    else
      var rest := Active(rs[..|rs| - 1], futures);
      var r := rs[|rs| - 1];
      if futures[r.id].Pending? then rest + [r] else rest
  }

  function Uncancelled(rs: seq<Request>, futures: map<nat, Future>): seq<Request>
    requires forall r :: r in rs ==> r.id in futures
  {
    if rs == [] then []
    else
      var rest := Uncancelled(rs[..|rs| - 1], futures);
      var r := rs[|rs| - 1];
      if futures[r.id].Cancelled? then rest else rest + [r]
  }

  function Begin(active: seq<Request>): Phase {
    if active == [] then Idle else if |active| == 1 then Singles(active) else Batching(active)
  }

  function Taken(cfg: Config, queue: seq<Request>, last: Option<string>): (p: Pick)
    requires queue != []
    ensures forall r :: r in p.selected ==> r in queue
  {
    var seed := SeedOf(queue);
    var p := Selection(queue, seed, last, cfg.maxBatch);
    SelectionSplits(queue, seed, last, cfg.maxBatch);
    if p.selected == [] then p.(selected := [seed]) else p
  }

  /** A batch leaves the queue and goes in flight. */
  function DispatchedFrom(cfg: Config, kept: State): State
    requires kept.queue != [] && forall r :: r in kept.queue ==> r.id in kept.futures
  {
    var p := Taken(cfg, kept.queue, kept.last);
    kept.(queue := Remove(kept.queue, Ids(p.selected)), last := p.last,
          phase := Begin(Uncancelled(p.selected, kept.futures)))
  }

  /** The seed still has time, and there is room for more beside it. */
  predicate Waits(cfg: Config, queue: seq<Request>, now: real)
    requires queue != []
  {
    WaitSeconds(cfg, SeedOf(queue), now) > 0.0 && !BatchReady(cfg, queue, SeedOf(queue))
  }

  /** One turn of the worker loop: discard, then stop, wait, or dispatch a batch. */
  function Woken(cfg: Config, st: State, now: real): State
    requires forall r :: r in st.queue ==> r.id in st.futures
    requires st.phase.Idle?
  {
    var kept := Discarded(st, now);
    if kept.queue == [] || Waits(cfg, kept.queue, now) then kept else DispatchedFrom(cfg, kept)
  }

  /** Hand member i its share, unless its future is settled already. */
  function HandOut(futures: map<nat, Future>, active: seq<Request>, outs: seq<Output>, n: nat): (f: map<nat, Future>)
    requires n <= |active| && Splittable(outs, Total(Sizes(active)))
    ensures f.Keys >= futures.Keys
  {
    if n == 0 then futures
    else
      var rest := HandOut(futures, active, outs, n - 1);
      var id := active[n - 1].id;
      if id in rest && rest[id].Pending? then rest[id := Resolved(Share(outs, Sizes(active), n - 1))] else rest
  }

  function AfterSingles(rs: seq<Request>): Phase {
    if rs == [] then Idle else Singles(rs)
  }

  /** The executor answered for the batch. Any failure falls back to one execution per member. */
  function BatchFinished(st: State, reply: Reply): State
    requires st.phase.Batching? && forall r :: r in st.phase.active ==> r.id in st.futures
  {
    var active := st.phase.active;
    if Concatenate(active).Some? && reply.Outputs? && Splittable(reply.outs, Total(Sizes(active))) then
      st.(futures := HandOut(st.futures, active, reply.outs, |active|), phase := Idle)
    else st.(phase := AfterSingles(Active(active, st.futures)))
  }

  /** The executor answered for one member. */
  function OneFinished(st: State, i: nat, reply: Reply): State
    requires st.phase.Singles? && i < |st.phase.active| && st.phase.active[i].id in st.futures
  {
    var active := st.phase.active;
    var id := active[i].id;
    var answer := if reply.Outputs? then Resolved(reply.outs) else Failed(reply.error);
    st.(futures := if st.futures[id].Pending? then st.futures[id := answer] else st.futures,
        phase := AfterSingles(active[..i] + active[i + 1..]))
  }

  // ----- the invariant -----

  ghost predicate Known(st: State) {
    && (forall r :: r in st.queue ==> r.id in st.futures)
    && (forall r :: r in st.InFlight() ==> r.id in st.futures)
  }

  ghost predicate Inv(cfg: Config, st: State) {
    && cfg.Valid()
    && (forall id: nat :: id in st.futures <==> id < st.nextId)
    && Known(st)
    && DistinctIds(st.queue) && DistinctIds(st.InFlight())
    && Ids(st.queue) !! Ids(st.InFlight())
    && Weighted(st.queue)
    && |st.queue| <= cfg.maxQueue
    && (forall r :: r in st.queue ==> st.futures[r.id].Pending? || st.futures[r.id].Cancelled?)
    && (forall id :: id in st.futures && st.futures[id].Pending? ==> id in Ids(st.queue) + Ids(st.InFlight()))
    && (!st.phase.Idle? ==> st.phase.active != [])
  }

  /** A future that is settled stays as it is; ids are never reused. */
  ghost predicate Settles(before: map<nat, Future>, after: map<nat, Future>) {
    forall id :: id in before ==> id in after && (!before[id].Pending? ==> after[id] == before[id])
  }

  lemma IdIn(rs: seq<Request>, r: Request)
    requires r in rs
    ensures r.id in Ids(rs)
  {
    var i :| 0 <= i < |rs| && rs[i] == r;
  }

  lemma IdsSubset(a: seq<Request>, b: seq<Request>)
    requires forall r :: r in a ==> r in b
    ensures Ids(a) <= Ids(b)
  {
    forall id | id in Ids(a) ensures id in Ids(b) {
      var i :| 0 <= i < |a| && a[i].id == id;
      IdIn(b, a[i]);
    }
  }

  lemma {:induction false} StillWaitingDistinct(queue: seq<Request>, futures: map<nat, Future>, now: real)
    requires (forall r :: r in queue ==> r.id in futures) && DistinctIds(queue)
    ensures DistinctIds(StillWaiting(queue, futures, now))
  {
    if queue != [] {
      var init := queue[..|queue| - 1];
      LastIsNew(queue);
      assert forall r :: r in init ==> r in queue;
      StillWaitingDistinct(init, futures, now);
      DistinctSnoc(StillWaiting(init, futures, now), queue[|queue| - 1]);
    }
  }

  function Overdue(futures: map<nat, Future>, r: Request, now: real): Future
    requires r.id in futures
  {
    if !futures[r.id].Cancelled? && Expired(r, now) then TimedOut else futures[r.id]
  }

  lemma {:induction false} TimeOutsFacts(queue: seq<Request>, futures: map<nat, Future>, now: real)
    requires (forall r :: r in queue ==> r.id in futures) && DistinctIds(queue)
    ensures var after := TimeOuts(queue, futures, now);
            && (forall id :: id in futures && id !in Ids(queue) ==> after[id] == futures[id])
            && (forall r :: r in queue ==> after[r.id] == Overdue(futures, r, now))
  {
    if queue != [] {
      var init, last := queue[..|queue| - 1], queue[|queue| - 1];
      assert queue == init + [last] && last in queue;
      assert forall r :: r in init ==> r in queue;
      LastIsNew(queue);
      TimeOutsFacts(init, futures, now);
      IdsAppend(init, last);
      NotAmong(init, last.id);
      var before, after := TimeOuts(init, futures, now), TimeOuts(queue, futures, now);
      assert before[last.id] == futures[last.id];
      forall r | r in queue ensures after[r.id] == Overdue(futures, r, now) {
        if r in init {
          assert r.id != last.id && after[r.id] == before[r.id];
        }
      }
    }
  }

  lemma NotAmong(rs: seq<Request>, id: nat)
    requires forall r :: r in rs ==> r.id != id
    ensures id !in Ids(rs)
  {
    forall i | 0 <= i < |rs| ensures rs[i].id != id {
      assert rs[i] in rs;
    }
  }

  /** One more request off the front of the queue. */
  lemma DiscardStep(queue: seq<Request>, futures: map<nat, Future>, now: real, i: nat)
    requires (forall r :: r in queue ==> r.id in futures) && DistinctIds(queue) && i < |queue|
    ensures (forall r :: r in queue[..i] || r in queue[..i + 1] ==> r.id in futures) && queue[i].id in futures
    ensures TimeOuts(queue[..i], futures, now)[queue[i].id] == futures[queue[i].id]
    ensures var r, kept, f := queue[i], StillWaiting(queue[..i], futures, now), TimeOuts(queue[..i], futures, now);
            var out := futures[r.id].Cancelled? || Expired(r, now);
            && StillWaiting(queue[..i + 1], futures, now) == (if out then kept else kept + [r])
            && TimeOuts(queue[..i + 1], futures, now)
               == (if !futures[r.id].Cancelled? && Expired(r, now) then f[r.id := TimedOut] else f)
  {
    assert queue[..i + 1][..i] == queue[..i];
    assert queue[i] in queue;
    TimeOutsFacts(queue[..i], futures, now);
    assert queue[i].id !in Ids(queue[..i]);
  }

  lemma DiscardKeeps(cfg: Config, st: State, now: real)
    requires Inv(cfg, st)
    ensures Inv(cfg, Discarded(st, now)) && Settles(st.futures, Discarded(st, now).futures)
    ensures forall r :: r in Discarded(st, now).queue ==> Discarded(st, now).futures[r.id].Pending?
  {
    var next := Discarded(st, now);
    StillWaitingDistinct(st.queue, st.futures, now);
    TimeOutsFacts(st.queue, st.futures, now);
    IdsSubset(next.queue, st.queue);
    forall id | id in st.futures
      ensures !st.futures[id].Pending? ==> next.futures[id] == st.futures[id]
      ensures next.futures[id].Pending? ==> id in Ids(next.queue) + Ids(next.InFlight())
    {
      if id in Ids(st.queue) {
        var i :| 0 <= i < |st.queue| && st.queue[i].id == id;
        assert st.queue[i] in st.queue;
        if next.futures[id].Pending? {
          IdIn(next.queue, st.queue[i]);
        }
      }
    }
  }

  lemma EnqueuedKeeps(cfg: Config, st: State, r: Request)
    requires Inv(cfg, st) && |st.queue| < cfg.maxQueue && r.id == st.nextId && Weighted([r])
    ensures Inv(cfg, Enqueued(st, r)) && Settles(st.futures, Enqueued(st, r).futures)
  {
    IdsAppend(st.queue, r);
    assert [r][0] == r;
    assert forall x :: x in st.queue ==> x.id < st.nextId;
    assert forall x :: x in st.InFlight() ==> x.id < st.nextId;
    assert st.nextId !in Ids(st.InFlight());
  }

  lemma SubmitKeeps(cfg: Config, st: State, c: Call, now: real)
    requires Inv(cfg, st)
    ensures Inv(cfg, Submitted(cfg, st, c, now)) && Settles(st.futures, Submitted(cfg, st, c, now).futures)
  {
    DiscardKeeps(cfg, st, now);
    var kept := Discarded(st, now);
    if |kept.queue| < cfg.maxQueue {
      EnqueuedKeeps(cfg, kept, MakeRequest(kept.nextId, c, now));
    }
  }

  lemma CancelKeeps(cfg: Config, st: State, id: nat)
    requires Inv(cfg, st)
    ensures Inv(cfg, Cancel(st, id)) && Settles(st.futures, Cancel(st, id).futures)
  {
  }

  lemma {:induction false} UncancelledFacts(rs: seq<Request>, futures: map<nat, Future>)
    requires forall r :: r in rs ==> r.id in futures && futures[r.id].Pending?
    ensures Uncancelled(rs, futures) == rs
  {
    if rs != [] {
      var init, last := rs[..|rs| - 1], rs[|rs| - 1];
      assert rs == init + [last] && last in rs;
      assert forall r :: r in init ==> r in rs;
      UncancelledFacts(init, futures);
    }
  }

  lemma {:induction false} ActiveFacts(rs: seq<Request>, futures: map<nat, Future>)
    requires (forall r :: r in rs ==> r.id in futures) && DistinctIds(rs)
    ensures var a := Active(rs, futures);
            && DistinctIds(a) && |a| <= |rs|
            && (forall r :: r in a <==> r in rs && futures[r.id].Pending?)
  {
    if rs != [] {
      var init, last := rs[..|rs| - 1], rs[|rs| - 1];
      assert rs == init + [last] && last in rs;
      assert forall r :: r in init ==> r in rs;
      LastIsNew(rs);
      ActiveFacts(init, futures);
      DistinctSnoc(Active(init, futures), last);
    }
  }

  /** A dispatched batch leaves the queue shorter; everything in it was waiting, and all of it goes in flight. */
  lemma DispatchFacts(cfg: Config, queue: seq<Request>, last: Option<string>)
    requires cfg.Valid() && queue != [] && DistinctIds(queue) && Weighted(queue)
    ensures var batch := Taken(cfg, queue, last).selected;
            var rest := Remove(queue, Ids(batch));
            && batch == Selection(queue, SeedOf(queue), last, cfg.maxBatch).selected
            && batch != [] && |rest| + |batch| == |queue|
            && DistinctIds(batch) && DistinctIds(rest) && Ids(batch) !! Ids(rest)
            && Ids(queue) == Ids(batch) + Ids(rest)
            && (forall r :: r in batch || r in rest <==> r in queue)
  {
    var seed := SeedOf(queue);
    SelectionStarts(queue, seed, last, cfg.maxBatch);
    QueueSplits(queue, seed, last, cfg.maxBatch);
    var batch := Taken(cfg, queue, last).selected;
    var rest := Remove(queue, Ids(batch));
    IdsSubset(batch, queue);
    IdsSubset(rest, queue);
    RemoveMembers(queue, Ids(batch));
    forall id | id in Ids(queue) ensures id in Ids(batch) + Ids(rest) {
      var i :| 0 <= i < |queue| && queue[i].id == id;
      assert queue[i] in queue;
      if queue[i] in batch {
        IdIn(batch, queue[i]);
      } else {
        IdIn(rest, queue[i]);
      }
    }
    forall id | id in Ids(rest) ensures id !in Ids(batch) {
      var i :| 0 <= i < |rest| && rest[i].id == id;
      assert rest[i] in rest;
    }
  }

  lemma WakeKeeps(cfg: Config, st: State, now: real)
    requires Inv(cfg, st) && st.phase.Idle?
    ensures Inv(cfg, Woken(cfg, st, now)) && Settles(st.futures, Woken(cfg, st, now).futures)
    ensures !Woken(cfg, st, now).phase.Idle? ==>
      |Woken(cfg, st, now).queue| + |Woken(cfg, st, now).InFlight()| == |Discarded(st, now).queue|
  {
    DiscardKeeps(cfg, st, now);
    var kept, next := Discarded(st, now), Woken(cfg, st, now);
    if kept.queue != [] && !(WaitSeconds(cfg, SeedOf(kept.queue), now) > 0.0
                             && !BatchReady(cfg, kept.queue, SeedOf(kept.queue))) {
      DispatchFacts(cfg, kept.queue, kept.last);
      var batch := Taken(cfg, kept.queue, kept.last).selected;
      UncancelledFacts(batch, kept.futures);
      assert next.InFlight() == batch;
    }
  }

  function Handed(futures: map<nat, Future>, active: seq<Request>, outs: seq<Output>, i: nat): Future
    requires i < |active| && Splittable(outs, Total(Sizes(active))) && active[i].id in futures
  {
    if futures[active[i].id].Pending? then Resolved(Share(outs, Sizes(active), i)) else futures[active[i].id]
  }

  lemma {:induction false} HandOutFacts(futures: map<nat, Future>, active: seq<Request>, outs: seq<Output>, n: nat)
    requires n <= |active| && Splittable(outs, Total(Sizes(active))) && DistinctIds(active)
    requires forall r :: r in active ==> r.id in futures
    ensures var f := HandOut(futures, active, outs, n);
            && f.Keys == futures.Keys
            && (forall i :: 0 <= i < n ==> f[active[i].id] == Handed(futures, active, outs, i))
            && (forall id :: id in futures && id !in Ids(active[..n]) ==> f[id] == futures[id])
  {
    if n > 0 {
      var id := active[n - 1].id;
      HandOutFacts(futures, active, outs, n - 1);
      assert active[n - 1] in active;
      PrefixIds(active, n);
      var rest, f := HandOut(futures, active, outs, n - 1), HandOut(futures, active, outs, n);
      assert rest[id] == futures[id];
      assert f[id] == Handed(futures, active, outs, n - 1);
      assert forall other :: other in rest && other != id ==> f[other] == rest[other];
    }
  }

  lemma PrefixIds(rs: seq<Request>, n: nat)
    requires 0 < n <= |rs| && DistinctIds(rs)
    ensures Ids(rs[..n]) == Ids(rs[..n - 1]) + {rs[n - 1].id} && rs[n - 1].id !in Ids(rs[..n - 1])
  {
    assert rs[..n] == rs[..n - 1] + [rs[n - 1]];
    IdsAppend(rs[..n - 1], rs[n - 1]);
  }

  lemma BatchKeeps(cfg: Config, st: State, reply: Reply)
    requires Inv(cfg, st) && st.phase.Batching?
    ensures Inv(cfg, BatchFinished(st, reply)) && Settles(st.futures, BatchFinished(st, reply).futures)
  {
    var active, next := st.phase.active, BatchFinished(st, reply);
    if next.futures == st.futures && !next.phase.Batching? && next.phase == AfterSingles(Active(active, st.futures)) {
      ActiveFacts(active, st.futures);
      IdsSubset(next.InFlight(), active);
      forall id | id in st.futures && st.futures[id].Pending? ensures id in Ids(st.queue) + Ids(next.InFlight()) {
        if id in Ids(active) {
          var i :| 0 <= i < |active| && active[i].id == id;
          assert active[i] in active;
          IdIn(Active(active, st.futures), active[i]);
        }
      }
    } else {
      HandOutFacts(st.futures, active, reply.outs, |active|);
      assert active[..|active|] == active;
      forall id | id in st.futures
        ensures !st.futures[id].Pending? ==> next.futures[id] == st.futures[id]
        ensures next.futures[id].Pending? ==> id in Ids(st.queue)
        ensures id in Ids(st.queue) ==> next.futures[id] == st.futures[id]
      {
        if id in Ids(active) {
          var i :| 0 <= i < |active| && active[i].id == id;
          assert next.futures[active[i].id] == Handed(st.futures, active, reply.outs, i);
        }
      }
      forall r | r in st.queue ensures r.id in Ids(st.queue) {
        IdIn(st.queue, r);
      }
    }
  }

  lemma DropFacts(rs: seq<Request>, i: nat)
    requires i < |rs| && DistinctIds(rs)
    ensures var rest := rs[..i] + rs[i + 1..];
            && DistinctIds(rest) && Ids(rest) == Ids(rs) - {rs[i].id}
            && (forall r :: r in rest ==> r in rs)
  {
    var rest := rs[..i] + rs[i + 1..];
    forall id | id in Ids(rs) - {rs[i].id} ensures id in Ids(rest) {
      var j :| 0 <= j < |rs| && rs[j].id == id;
      assert rest[if j < i then j else j - 1] == rs[j];
    }
    forall id | id in Ids(rest) ensures id in Ids(rs) - {rs[i].id} {
      var j :| 0 <= j < |rest| && rest[j].id == id;
      assert rest[j] == rs[if j < i then j else j + 1];
    }
  }

  lemma OneKeeps(cfg: Config, st: State, i: nat, reply: Reply)
    requires Inv(cfg, st) && st.phase.Singles? && i < |st.phase.active|
    ensures Inv(cfg, OneFinished(st, i, reply)) && Settles(st.futures, OneFinished(st, i, reply).futures)
  {
    var active, next := st.phase.active, OneFinished(st, i, reply);
    DropFacts(active, i);
    assert active[i] in active;
    IdIn(active, active[i]);
    forall r | r in st.queue ensures r.id != active[i].id {
      IdIn(st.queue, r);
    }
    assert next.InFlight() == active[..i] + active[i + 1..];
  }
}
