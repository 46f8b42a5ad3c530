/** The scheduler object, and what holds over every run of its steps. */
module SchedulerService {
  import opened Common
  import opened FairBatch
  import opened FairBatchLaws
  import opened BatchOutputs
  import opened InferenceScheduler

  class Scheduler {
    const cfg: Config
    var queue: seq<Request>
    var futures: map<nat, Future>
    var nextId: nat
    var lastScope: Option<string>
    var phase: Phase

    ghost function State(): State
      reads this
    {
      InferenceScheduler.State.State(queue, futures, nextId, lastScope, phase)
    }

    constructor (maxBatch: int, maxWaitMs: real, asyncMaxWaitMs: real, maxQueue: int)
      ensures State() == EmptyState && cfg == Config.Of(maxBatch, maxWaitMs, asyncMaxWaitMs, maxQueue)
      ensures Inv(cfg, State())
    {
      cfg := Config.Of(maxBatch, maxWaitMs, asyncMaxWaitMs, maxQueue);
      queue, futures, nextId, lastScope, phase := [], map[], 0, None, Idle;
      new;
      EmptyInv(cfg);
    }

    /** asyncio refuses to settle a future twice: here that is a precondition, discharged at every call. */
    method Settle(id: nat, answer: Future)
      requires id in futures && futures[id].Pending? && !answer.Pending?
      modifies `futures
      ensures futures == old(futures)[id := answer]
    {
      futures := futures[id := answer];
    }

    method DiscardFinished(now: real)
      requires DistinctIds(queue) && forall r :: r in queue ==> r.id in futures
      requires forall r :: r in queue ==> futures[r.id].Pending? || futures[r.id].Cancelled?
      modifies `queue, `futures
      ensures State() == Discarded(old(State()), now)
    {
      ghost var all, before := queue, futures;
      var active: seq<Request> := [];
      ghost var i := 0;
      while queue != []
        invariant i <= |all| && queue == all[i..]
        invariant active == StillWaiting(all[..i], before, now)
        invariant futures == TimeOuts(all[..i], before, now)
        decreases |queue|
      {
        var item := queue[0];
        assert item == all[i] && item in all;
        queue := queue[1..];
        DiscardStep(all, before, now, i);
        i := i + 1;
        if futures[item.id].Cancelled? {
          continue;
        }
        if item.deadline.Some? && now >= item.deadline.value {
          Settle(item.id, TimedOut);
          continue;
        }
        active := active + [item];
      }
      assert all[..i] == all;
      queue := active;
    }

    /** Refused when the queue is full; otherwise the caller awaits the returned future. */
    method Submit(call: Call, now: real) returns (id: Option<nat>)
      requires Inv(cfg, State())
      modifies this
      ensures State() == Submitted(cfg, old(State()), call, now) && Inv(cfg, State())
      ensures id.None? <==> |Discarded(old(State()), now).queue| == cfg.maxQueue
      ensures id.Some? ==> id.value == old(nextId) && futures[id.value] == Pending
    {
      SubmitKeeps(cfg, State(), call, now);
      DiscardKeeps(cfg, State(), now);
      DiscardFinished(now);
      if |queue| >= cfg.maxQueue {
        return None;
      }
      id := Some(nextId);
      queue := queue + [MakeRequest(nextId, call, now)];
      futures := futures[nextId := Pending];
      nextId := nextId + 1;
    }

    method CancelRequest(id: nat)
      requires Inv(cfg, State())
      modifies `futures
      ensures State() == Cancel(old(State()), id) && Inv(cfg, State())
    {
      CancelKeeps(cfg, State(), id);
      if id in futures && futures[id].Pending? {
        Settle(id, Cancelled);
      }
    }

    method FindSeed() returns (seed: Request)
      requires queue != []
      ensures seed == SeedOf(queue)
    {
      seed := queue[0];
      for i := 1 to |queue|
        invariant seed == SeedOf(queue[..i])
      {
        assert queue[..i + 1][..i] == queue[..i];
        if queue[i].priority < seed.priority
          || (queue[i].priority == seed.priority && queue[i].enqueuedAt < seed.enqueuedAt) {
          seed := queue[i];
        }
      }
      assert queue[..|queue|] == queue;
    }

    method IsBatchReady(seed: Request) returns (ready: bool)
      ensures ready == BatchReady(cfg, queue, seed)
    {
      var total := 0;
      for i := 0 to |queue|
        invariant total == TotalSize(Candidates(queue[..i], seed))
      {
        assert queue[..i + 1][..i] == queue[..i];
        if queue[i].Compatible(seed) {
          TotalSizeAppend(Candidates(queue[..i], seed), queue[i]);
          total := total + queue[i].Size();
        }
      }
      assert queue[..|queue|] == queue;
      ready := total >= cfg.maxBatch;
    }

    /** One turn of the worker loop. */
    method Wake(now: real)
      requires Inv(cfg, State()) && phase.Idle?
      modifies this
      ensures State() == Woken(cfg, old(State()), now) && Inv(cfg, State())
    {
      WakeKeeps(cfg, State(), now);
      Turn(now);
    }

    method Turn(now: real)
      requires phase.Idle? && DistinctIds(queue) && forall r :: r in queue ==> r.id in futures
      requires forall r :: r in queue ==> futures[r.id].Pending? || futures[r.id].Cancelled?
      modifies this
      ensures State() == Woken(cfg, old(State()), now)
    {
      DiscardFinished(now);
      var seed := ChooseSeed(now);
      if seed.Some? {
        DispatchBatch(seed.value);
      }
    }

    /** The seed of the batch to dispatch now; none when the queue is empty or the seed should wait for more. */
    method ChooseSeed(now: real) returns (seed: Option<Request>)
      ensures seed == if queue == [] || Waits(cfg, queue, now) then None else Some(SeedOf(queue))
    {
      if queue == [] {
        return None;
      }
      var oldest := FindSeed();
      var ready := IsBatchReady(oldest);
      if WaitSeconds(cfg, oldest, now) > 0.0 && !ready {
        return None;
      }
      seed := Some(oldest);
    }

    method DispatchBatch(seed: Request)
      requires queue != [] && seed == SeedOf(queue) && forall r :: r in queue ==> r.id in futures
      modifies `queue, `lastScope, `phase
      ensures var p := Taken(cfg, old(queue), old(lastScope));
              && queue == Remove(old(queue), Ids(p.selected)) && lastScope == p.last
              && phase == Begin(Uncancelled(p.selected, futures))
    {
      ghost var p := Taken(cfg, queue, lastScope);
      var batch: seq<Request>;
      batch, queue, lastScope := TakeFairBatch(queue, seed, lastScope, cfg.maxBatch);
      assert batch == p.selected;
      StartDispatch(batch);
    }

    /** The part of a dispatch before its first await: cancelled members are dropped. */
    method StartDispatch(batch: seq<Request>)
      requires forall r :: r in batch ==> r.id in futures
      modifies `phase
      ensures phase == Begin(Uncancelled(batch, futures))
    {
      var active: seq<Request> := [];
      for i := 0 to |batch|
        invariant active == Uncancelled(batch[..i], futures)
      {
        assert batch[..i + 1][..i] == batch[..i];
        assert batch[i] in batch;
        if !futures[batch[i].id].Cancelled? {
          active := active + [batch[i]];
        }
      }
      assert batch[..|batch|] == batch;
      phase := Begin(active);
    }

    /** The executor answered for the concatenated batch (or concatenating raised). */
    method FinishBatch(reply: Reply)
      requires Inv(cfg, State()) && phase.Batching?
      modifies this
      ensures State() == BatchFinished(old(State()), reply) && Inv(cfg, State())
    {
      BatchKeeps(cfg, State(), reply);
      var active := phase.active;
      var parts: Option<seq<seq<Output>>> := None;
      if Concatenate(active).Some? && reply.Outputs? {
        parts := SplitOutputs(reply.outs, Sizes(active));
      }
      if parts.None? {
        FallBack(active);
      } else {
        HandOutParts(active, reply.outs, parts.value);
        phase := Idle;
      }
    }

    /** Each member still waiting gets its part. */
    method HandOutParts(active: seq<Request>, ghost outs: seq<Output>, parts: seq<seq<Output>>)
      requires (forall r :: r in active ==> r.id in futures) && Splittable(outs, Total(Sizes(active)))
      requires |parts| == |active| && forall i :: 0 <= i < |active| ==> parts[i] == Share(outs, Sizes(active), i)
      modifies `futures
      ensures futures == HandOut(old(futures), active, outs, |active|)
    {
      for i := 0 to |active|
        invariant futures == HandOut(old(futures), active, outs, i)
      {
        assert active[i] in active;
        if futures[active[i].id].Pending? {
          Settle(active[i].id, Resolved(parts[i]));
        }
      }
    }

    /** Each member not settled yet is executed on its own. */
    method FallBack(active: seq<Request>)
      requires forall r :: r in active ==> r.id in futures
      modifies `phase
      ensures phase == AfterSingles(Active(active, futures))
    {
      var left: seq<Request> := [];
      for i := 0 to |active|
        invariant left == Active(active[..i], futures)
      {
        assert active[..i + 1][..i] == active[..i];
        assert active[i] in active;
        if futures[active[i].id].Pending? {
          left := left + [active[i]];
        }
      }
      assert active[..|active|] == active;
      phase := AfterSingles(left);
    }

    /** The executor answered for one member on its own. */
    method FinishOne(i: nat, reply: Reply)
      requires Inv(cfg, State()) && phase.Singles? && i < |phase.active|
      modifies this
      ensures State() == OneFinished(old(State()), i, reply) && Inv(cfg, State())
    {
      OneKeeps(cfg, State(), i, reply);
      var active := phase.active;
      assert active[i] in active;
      if futures[active[i].id].Pending? {
        Settle(active[i].id, if reply.Outputs? then Resolved(reply.outs) else Failed(reply.error));
      }
      phase := AfterSingles(active[..i] + active[i + 1..]);
    }
  }

  lemma EmptyInv(cfg: Config)
    requires cfg.Valid()
    ensures Inv(cfg, EmptyState)
  {
    var st := EmptyState;
    assert st.queue == [] && st.InFlight() == [];
    assert Ids(st.queue) == {};
  }

  // ----- runs -----

  datatype Event =
    | DoSubmit(call: Call, now: real)
    | DoCancel(id: nat)
    | DoWake(now: real)
    | DoBatch(reply: Reply)
    | DoOne(i: nat, reply: Reply)

  predicate Enabled(st: State, ev: Event) {
    match ev
    case DoSubmit(_, _) => true
    case DoCancel(_) => true
    case DoWake(_) => st.phase.Idle?
    case DoBatch(_) => st.phase.Batching?
    case DoOne(i, _) => st.phase.Singles? && i < |st.phase.active|
  }

  /** One step; an event that is not enabled does nothing. */
  ghost function Next(cfg: Config, st: State, ev: Event): State {
    if !Inv(cfg, st) || !Enabled(st, ev) then st
    else match ev
      case DoSubmit(call, now) => Submitted(cfg, st, call, now)
      case DoCancel(id) => Cancel(st, id)
      case DoWake(now) => Woken(cfg, st, now)
      case DoBatch(reply) => BatchFinished(st, reply)
      case DoOne(i, reply) => OneFinished(st, i, reply)
  }

  lemma NextKeeps(cfg: Config, st: State, ev: Event)
    requires Inv(cfg, st)
    ensures Inv(cfg, Next(cfg, st, ev)) && Settles(st.futures, Next(cfg, st, ev).futures)
  {
    if Enabled(st, ev) {
      match ev
      case DoSubmit(call, now) => SubmitKeeps(cfg, st, call, now);
      case DoCancel(id) => CancelKeeps(cfg, st, id);
      case DoWake(now) => WakeKeeps(cfg, st, now);
      case DoBatch(reply) => BatchKeeps(cfg, st, reply);
      case DoOne(i, reply) => OneKeeps(cfg, st, i, reply);
    }
  }

  ghost function Run(cfg: Config, events: seq<Event>): State {
    if events == [] then EmptyState
    else Next(cfg, Run(cfg, events[..|events| - 1]), events[|events| - 1])
  }

  lemma {:induction false} RunKeeps(cfg: Config, events: seq<Event>)
    requires cfg.Valid()
    ensures Inv(cfg, Run(cfg, events))
  {
    if events == [] {
      EmptyInv(cfg);
    } else {
      RunKeeps(cfg, events[..|events| - 1]);
      NextKeeps(cfg, Run(cfg, events[..|events| - 1]), events[|events| - 1]);
    }
  }

  ghost predicate Queued(st: State, id: nat) {
    id in Ids(st.queue)
  }

  ghost predicate Dispatched(st: State, id: nat) {
    id in Ids(st.InFlight())
  }

  // ----- what is in flight is unanswered -----

  ghost predicate FlightOpen(st: State) {
    forall r :: r in st.InFlight() ==> r.id in st.futures && (st.futures[r.id].Pending? || st.futures[r.id].Cancelled?)
  }

  lemma DiscardFlight(cfg: Config, st: State, now: real)
    requires Inv(cfg, st) && FlightOpen(st)
    ensures FlightOpen(Discarded(st, now))
  {
    TimeOutsFacts(st.queue, st.futures, now);
    forall r | r in st.InFlight() ensures r.id !in Ids(st.queue) {
      IdIn(st.InFlight(), r);
    }
  }

  lemma SubmitFlight(cfg: Config, st: State, call: Call, now: real)
    requires Inv(cfg, st) && FlightOpen(st)
    ensures FlightOpen(Submitted(cfg, st, call, now))
  {
    DiscardFlight(cfg, st, now);
  }

  lemma WakeFlight(cfg: Config, st: State, now: real)
    requires Inv(cfg, st) && st.phase.Idle?
    ensures FlightOpen(Woken(cfg, st, now))
  {
    DiscardKeeps(cfg, st, now);
    var kept := Discarded(st, now);
    if kept.queue != [] {
      DispatchFacts(cfg, kept.queue, kept.last);
      UncancelledFacts(Taken(cfg, kept.queue, kept.last).selected, kept.futures);
    }
  }

  lemma BatchFlight(cfg: Config, st: State, reply: Reply)
    requires Inv(cfg, st) && st.phase.Batching?
    ensures FlightOpen(BatchFinished(st, reply))
  {
    ActiveFacts(st.phase.active, st.futures);
  }

  lemma OneFlight(cfg: Config, st: State, i: nat, reply: Reply)
    requires Inv(cfg, st) && FlightOpen(st) && st.phase.Singles? && i < |st.phase.active|
    ensures FlightOpen(OneFinished(st, i, reply))
  {
    var active := st.phase.active;
    DropFacts(active, i);
    var rest := active[..i] + active[i + 1..];
    assert OneFinished(st, i, reply).InFlight() == rest;
    forall r | r in rest ensures r.id != active[i].id && r in st.InFlight() {
      IdIn(rest, r);
    }
  }

  lemma NextFlight(cfg: Config, st: State, ev: Event)
    requires Inv(cfg, st) && FlightOpen(st)
    ensures FlightOpen(Next(cfg, st, ev))
  {
    if Enabled(st, ev) {
      match ev
      case DoSubmit(call, now) => SubmitFlight(cfg, st, call, now);
      case DoCancel(id) =>
      case DoWake(now) => WakeFlight(cfg, st, now);
      case DoBatch(reply) => BatchFlight(cfg, st, reply);
      case DoOne(i, reply) => OneFlight(cfg, st, i, reply);
    }
  }

  lemma {:induction false} RunFlight(cfg: Config, events: seq<Event>)
    requires cfg.Valid()
    ensures FlightOpen(Run(cfg, events))
  {
    if events != [] {
      var init := events[..|events| - 1];
      RunFlight(cfg, init);
      RunKeeps(cfg, init);
      NextFlight(cfg, Run(cfg, init), events[|events| - 1]);
    }
  }

  /** Exactly-once resolution: over every run, a request not yet answered is in exactly one of the
      queue and the batch in flight, a request in either place is unanswered or cancelled, and the
      queue never exceeds its bound. */
  lemma ExactlyOnePlace(cfg: Config, events: seq<Event>, id: nat)
    requires cfg.Valid()
    ensures var st := Run(cfg, events);
            && (id in st.futures <==> id < st.nextId)
            && !(Queued(st, id) && Dispatched(st, id))
            && (id in st.futures && st.futures[id].Pending? ==> Queued(st, id) || Dispatched(st, id))
            && (Queued(st, id) || Dispatched(st, id) ==>
                  id in st.futures && (st.futures[id].Pending? || st.futures[id].Cancelled?))
            && |st.queue| <= cfg.maxQueue
  {
    RunKeeps(cfg, events);
    RunFlight(cfg, events);
    var st := Run(cfg, events);
    if Dispatched(st, id) {
      var j :| 0 <= j < |st.InFlight()| && st.InFlight()[j].id == id;
      assert st.InFlight()[j] in st.InFlight();
    }
    if Queued(st, id) {
      var j :| 0 <= j < |st.queue| && st.queue[j].id == id;
      assert st.queue[j] in st.queue;
    }
  }

  /** An answer, once given, is never changed by whatever follows. */
  lemma {:induction false} AnsweredOnce(cfg: Config, events: seq<Event>, later: seq<Event>, id: nat)
    requires cfg.Valid() && id in Run(cfg, events).futures && !Run(cfg, events).futures[id].Pending?
    ensures id in Run(cfg, events + later).futures
         && Run(cfg, events + later).futures[id] == Run(cfg, events).futures[id]
  {
    if later == [] {
      assert events + later == events;
    } else {
      var before := later[..|later| - 1];
      assert (events + later)[..|events + later| - 1] == events + before;
      AnsweredOnce(cfg, events, before, id);
      RunKeeps(cfg, events + before);
      NextKeeps(cfg, Run(cfg, events + before), later[|later| - 1]);
    }
  }

  // ----- draining -----

  lemma Matured(cfg: Config, seed: Request, now: real)
    requires now >= seed.enqueuedAt + (if seed.priority == 0 then cfg.maxWaitMs else cfg.asyncMaxWaitMs) / 1000.0
    ensures WaitSeconds(cfg, seed, now) == 0.0
  {
  }

  /** Once the seed's waiting time is over, a turn of the worker dispatches a batch. */
  lemma WakeDispatches(cfg: Config, st: State, now: real)
    requires Inv(cfg, st) && st.phase.Idle? && Discarded(st, now).queue != []
    requires var seed := SeedOf(Discarded(st, now).queue);
             now >= seed.enqueuedAt + (if seed.priority == 0 then cfg.maxWaitMs else cfg.asyncMaxWaitMs) / 1000.0
    ensures !Woken(cfg, st, now).phase.Idle? && |Woken(cfg, st, now).queue| < |st.queue|
  {
    var kept := Discarded(st, now);
    Matured(cfg, SeedOf(kept.queue), now);
    DiscardKeeps(cfg, st, now);
    WakeShrinks(cfg, st, now);
  }

  /** How many batches a run has started. */
  ghost function Started(cfg: Config, events: seq<Event>): nat {
    if events == [] then 0
    else
      var init, ev := events[..|events| - 1], events[|events| - 1];
      Started(cfg, init)
        + if ev.DoWake? && Run(cfg, init).phase.Idle? && !Run(cfg, events).phase.Idle? then 1 else 0
  }

  /** Every batch takes at least one accepted request out of the queue for good: the worker cannot spin. */
  lemma {:induction false} BatchesBounded(cfg: Config, events: seq<Event>)
    requires cfg.Valid()
    ensures Started(cfg, events) + |Run(cfg, events).queue| <= Run(cfg, events).nextId
  {
    if events != [] {
      var init, ev := events[..|events| - 1], events[|events| - 1];
      BatchesBounded(cfg, init);
      RunKeeps(cfg, init);
      var st := Run(cfg, init);
      if ev.DoWake? && Enabled(st, ev) {
        WakeShrinks(cfg, st, ev.now);
      } else {
        StepGrows(cfg, st, ev);
      }
    }
  }

  /** Without further submissions the queue drains: however cancellations, time-outs and answers fall
      in between, k dispatching turns leave at most |queue| - k requests waiting. */
  lemma {:induction false} QueueDrains(cfg: Config, events: seq<Event>, later: seq<Event>)
    requires cfg.Valid() && forall ev :: ev in later ==> !ev.DoSubmit?
    ensures |Run(cfg, events + later).queue|
         <= |Run(cfg, events).queue| - (Started(cfg, events + later) - Started(cfg, events))
  {
    if later == [] {
      assert events + later == events;
    } else {
      var init, ev := later[..|later| - 1], later[|later| - 1];
      assert (events + later)[..|events + later| - 1] == events + init;
      assert ev in later && forall e :: e in init ==> e in later;
      QueueDrains(cfg, events, init);
      RunKeeps(cfg, events + init);
      DrainStep(cfg, Run(cfg, events + init), ev);
    }
  }

  lemma DrainStep(cfg: Config, st: State, ev: Event)
    requires Inv(cfg, st) && !ev.DoSubmit?
    ensures var next := Next(cfg, st, ev);
            |next.queue| + (if ev.DoWake? && st.phase.Idle? && !next.phase.Idle? then 1 else 0) <= |st.queue|
  {
    if ev.DoWake? && Enabled(st, ev) {
      WakeShrinks(cfg, st, ev.now);
    }
  }

  lemma WakeShrinks(cfg: Config, st: State, now: real)
    requires Inv(cfg, st) && st.phase.Idle?
    ensures var next := Woken(cfg, st, now);
            && next.nextId == st.nextId
            && |next.queue| + (if next.phase.Idle? then 0 else 1) <= |st.queue|
            && (next.phase.Idle? ==> Discarded(st, now).queue == [] ||
                                     WaitSeconds(cfg, SeedOf(Discarded(st, now).queue), now) > 0.0)
  {
    WakeKeeps(cfg, st, now);
    DiscardKeeps(cfg, st, now);
    var kept := Discarded(st, now);
    if kept.queue != [] {
      DispatchFacts(cfg, kept.queue, kept.last);
      UncancelledFacts(Taken(cfg, kept.queue, kept.last).selected, kept.futures);
    }
  }

  lemma StepGrows(cfg: Config, st: State, ev: Event)
    requires Inv(cfg, st) && !(ev.DoWake? && Enabled(st, ev))
    ensures |Next(cfg, st, ev).queue| - |st.queue| <= Next(cfg, st, ev).nextId - st.nextId
  {
  }

  // ----- what is answered -----

  /** The executor's answers in this run are those of one row-wise model. */
  ghost predicate RowWiseAnswer(m: RowModel, st: State, ev: Event) {
    match ev
    case DoBatch(reply) =>
      st.phase.Batching? && Concatenate(st.phase.active).Some? ==>
        Admissible(m, Concatenate(st.phase.active).value, reply)
    case DoOne(k, reply) =>
      st.phase.Singles? && k < |st.phase.active| ==> Admissible(m, st.phase.active[k].input, reply)
    case _ => true
  }

  ghost predicate RowWiseRun(cfg: Config, m: RowModel, events: seq<Event>) {
    events == [] ||
    (RowWiseRun(cfg, m, events[..|events| - 1])
     && RowWiseAnswer(m, Run(cfg, events[..|events| - 1]), events[|events| - 1]))
  }

  /** The input each accepted request was submitted with. */
  ghost function InputsOf(cfg: Config, events: seq<Event>): map<nat, Tensor> {
    if events == [] then map[]
    else
      var init, ev := events[..|events| - 1], events[|events| - 1];
      var st := Run(cfg, init);
      if ev.DoSubmit? && Run(cfg, events).nextId > st.nextId
      then InputsOf(cfg, init)[st.nextId := ev.call.input]
      else InputsOf(cfg, init)
  }

  ghost predicate Answers(m: RowModel, inputs: map<nat, Tensor>, st: State) {
    && inputs.Keys == st.futures.Keys
    && (forall r :: r in st.queue || r in st.InFlight() ==> r.id in inputs && r.input == inputs[r.id])
    && (forall id :: id in st.futures && st.futures[id].Resolved? ==> st.futures[id].outs == Alone(m, inputs[id]))
  }

  lemma BatchAnswers(cfg: Config, m: RowModel, inputs: map<nat, Tensor>, st: State, reply: Reply)
    requires Inv(cfg, st) && Answers(m, inputs, st) && st.phase.Batching?
    requires Concatenate(st.phase.active).Some? ==> Admissible(m, Concatenate(st.phase.active).value, reply)
    ensures Answers(m, inputs, BatchFinished(st, reply))
  {
    var active, next := st.phase.active, BatchFinished(st, reply);
    if Concatenate(active).Some? && reply.Outputs? && Splittable(reply.outs, Total(Sizes(active))) {
      HandOutFacts(st.futures, active, reply.outs, |active|);
      assert active[..|active|] == active;
      forall id | id in next.futures && next.futures[id].Resolved?
        ensures next.futures[id].outs == Alone(m, inputs[id])
      {
        if id in Ids(active) {
          var i :| 0 <= i < |active| && active[i].id == id;
          ShareIsAlone(m, active, reply, i);
          assert active[i] in st.InFlight();
          assert next.futures[active[i].id] == Handed(st.futures, active, reply.outs, i);
        }
      }
    } else {
      ActiveFacts(active, st.futures);
    }
  }

  lemma WakeAnswers(cfg: Config, m: RowModel, inputs: map<nat, Tensor>, st: State, now: real)
    requires Inv(cfg, st) && Answers(m, inputs, st) && st.phase.Idle?
    ensures Answers(m, inputs, Woken(cfg, st, now))
  {
    DiscardAnswers(cfg, m, inputs, st, now);
    DiscardKeeps(cfg, st, now);
    var kept := Discarded(st, now);
    if !Woken(cfg, st, now).phase.Idle? {
      DispatchFacts(cfg, kept.queue, kept.last);
      UncancelledFacts(Taken(cfg, kept.queue, kept.last).selected, kept.futures);
    } else if kept.queue != [] {
      RemoveMembers(kept.queue, Ids(Taken(cfg, kept.queue, kept.last).selected));
    }
  }

  lemma DiscardAnswers(cfg: Config, m: RowModel, inputs: map<nat, Tensor>, st: State, now: real)
    requires Inv(cfg, st) && Answers(m, inputs, st)
    ensures Answers(m, inputs, Discarded(st, now))
  {
    var next := Discarded(st, now);
    TimeOutsFacts(st.queue, st.futures, now);
    forall id | id in next.futures && next.futures[id].Resolved?
      ensures next.futures[id] == st.futures[id]
    {
      if id in Ids(st.queue) {
        var i :| 0 <= i < |st.queue| && st.queue[i].id == id;
        assert st.queue[i] in st.queue;
      }
    }
  }

  lemma OneAnswers(cfg: Config, m: RowModel, inputs: map<nat, Tensor>, st: State, i: nat, reply: Reply)
    requires Inv(cfg, st) && Answers(m, inputs, st) && st.phase.Singles? && i < |st.phase.active|
    requires Admissible(m, st.phase.active[i].input, reply)
    ensures Answers(m, inputs, OneFinished(st, i, reply))
  {
    var active, next := st.phase.active, OneFinished(st, i, reply);
    DropFacts(active, i);
    assert active[i] in st.InFlight();
    assert next.InFlight() == active[..i] + active[i + 1..];
  }

  lemma SubmitAnswers(cfg: Config, m: RowModel, inputs: map<nat, Tensor>, st: State, c: Call, now: real)
    requires Inv(cfg, st) && Answers(m, inputs, st)
    ensures var next := Submitted(cfg, st, c, now);
            Answers(m, if next.nextId > st.nextId then inputs[st.nextId := c.input] else inputs, next)
  {
    DiscardAnswers(cfg, m, inputs, st, now);
  }

  /** Batching refines single execution, over every run: whoever gets a result gets what the model
      answers for that input alone -- batched, split, or retried one by one, with any cancellations around it. */
  lemma {:induction false} ResultsAreAlone(cfg: Config, m: RowModel, events: seq<Event>)
    requires cfg.Valid() && RowWiseRun(cfg, m, events)
    ensures Answers(m, InputsOf(cfg, events), Run(cfg, events))
  {
    if events != [] {
      var init, ev := events[..|events| - 1], events[|events| - 1];
      ResultsAreAlone(cfg, m, init);
      RunKeeps(cfg, init);
      var st, inputs := Run(cfg, init), InputsOf(cfg, init);
      if Enabled(st, ev) {
        match ev
        case DoSubmit(call, now) => SubmitAnswers(cfg, m, inputs, st, call, now);
        case DoCancel(id) =>
        case DoWake(now) => WakeAnswers(cfg, m, inputs, st, now);
        case DoBatch(reply) => BatchAnswers(cfg, m, inputs, st, reply);
        case DoOne(i, reply) => OneAnswers(cfg, m, inputs, st, i, reply);
      }
    }
  }
}
