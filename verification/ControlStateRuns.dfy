/** What a published revision holds: which operations, told by the events of the run alone, and when
    every revision is exactly one operation. */
module ControlStateRuns {
  import opened Common
  import opened ControlState
  import opened ControlStateLaws

  // ----- what a worker has not synchronised -----

  /** Thread t prefetched a newer revision than the worker's: entering replaces the cache. */
  predicate Refreshes<S, O>(k: Worker<S, O>, t: nat) {
    t in k.prefetched && k.prefetched[t].revision > k.cache.revision
  }

  /** The operations worker w ran since it last took over a snapshot or had a save accepted. */
  function Unsynced<S, O>(p: Plane<S, O>, names: set<nat>, events: seq<Event<O>>, w: nat): seq<O> {
    if events == [] then []
    else
      var init, ev := events[..|events| - 1], events[|events| - 1];
      var before, earlier := Run(p, Boot(p, names), init), Unsynced(p, names, init, w);
      if ev.w != w || !Enabled(before, ev) then earlier
      else match ev
        case Mutate(_, _, op) => earlier + [op]
        case Save(_, _, fault) =>
          if SaveAnswer(before.log, before.workers[w].cache, fault) == Saved then [] else earlier
        case Reload(_, _, broken) => if broken then earlier else []
        case Enter(_, t) => if Refreshes(before.workers[w], t) then [] else earlier
        case _ => earlier
  }

  lemma RunLast<S, O>(p: Plane<S, O>, sys: System<S, O>, events: seq<Event<O>>, ev: Event<O>)
    requires sys.log != []
    ensures Run(p, sys, events + [ev]) == Step(p, Run(p, sys, events), ev)
  {
    assert (events + [ev])[..|events|] == events;
  }

  lemma {:induction false} UnsyncedIsPending<S, O>(p: Plane<S, O>, names: set<nat>, events: seq<Event<O>>, w: nat)
    requires w in names
    ensures var sys := Run(p, Boot(p, names), events);
            w in sys.workers && sys.workers[w].cache.pending == Unsynced(p, names, events, w)
  {
    if events != [] {
      UnsyncedIsPending(p, names, events[..|events| - 1], w);
    }
  }

  /** The step writes a revision, whether or not its worker learns of it. */
  predicate Publishes<S, O>(sys: System<S, O>, ev: Event<O>) {
    ev.Save? && Enabled(sys, ev) && ev.fault != Failed && Accepts(sys.log, sys.workers[ev.w].cache)
  }

  lemma {:induction false} WorkersStay<S, O>(p: Plane<S, O>, names: set<nat>, events: seq<Event<O>>)
    ensures Run(p, Boot(p, names), events).workers.Keys == names
  {
    if events != [] {
      WorkersStay(p, names, events[..|events| - 1]);
    }
  }

  /** A revision holds exactly what its worker had not synchronised. */
  lemma RevisionIsUnsynced<S, O>(p: Plane<S, O>, names: set<nat>, events: seq<Event<O>>, ev: Event<O>)
    ensures var before, after := Run(p, Boot(p, names), events), Run(p, Boot(p, names), events + [ev]);
            if Publishes(before, ev)
            then |after.log| == |before.log| + 1 && before.log <= after.log
                 && after.log[|before.log|].ops == Unsynced(p, names, events, ev.w)
            else after.log == before.log
  {
    RunLast(p, Boot(p, names), events, ev);
    WorkersStay(p, names, events);
    if ev.w in names {
      UnsyncedIsPending(p, names, events, ev.w);
    }
  }

  predicate AllSingle<S, O>(log: seq<Commit<S, O>>) {
    forall n :: 0 < n < |log| ==> |log[n].ops| == 1
  }

  /** Every step that writes a revision finds exactly one operation of its worker not synchronised. */
  ghost predicate PublishesOnes<S, O>(p: Plane<S, O>, names: set<nat>, events: seq<Event<O>>) {
    events == [] ||
    (var init, ev := events[..|events| - 1], events[|events| - 1];
     && PublishesOnes(p, names, init)
     && (Publishes(Run(p, Boot(p, names), init), ev) ==> |Unsynced(p, names, init, ev.w)| == 1))
  }

  /** In every run whatsoever: each revision is exactly one operation if and only if each step that
      writes one finds exactly one operation of its worker not synchronised. */
  lemma {:induction false} SingleIff<S, O>(p: Plane<S, O>, names: set<nat>, events: seq<Event<O>>)
    ensures AllSingle(Run(p, Boot(p, names), events).log) <==> PublishesOnes(p, names, events)
  {
    if events != [] {
      var init, ev := events[..|events| - 1], events[|events| - 1];
      assert events == init + [ev];
      SingleIff(p, names, init);
      RevisionIsUnsynced(p, names, init, ev);
      LastSingle(Run(p, Boot(p, names), init).log, Run(p, Boot(p, names), events).log);
    }
  }

  lemma LastSingle<S, O>(log: seq<Commit<S, O>>, longer: seq<Commit<S, O>>)
    requires log != [] && log <= longer && |longer| <= |log| + 1
    ensures AllSingle(longer) <==> AllSingle(log) && (|longer| > |log| ==> |longer[|log|].ops| == 1)
  {
    assert forall n :: 0 <= n < |log| ==> longer[n] == log[n];
  }

  // ----- disciplined runs -----

  /** Worker w changed its state and has neither saved nor reloaded since. */
  function Unsaved<S, O>(p: Plane<S, O>, names: set<nat>, events: seq<Event<O>>, w: nat): bool {
    if events == [] then false
    else
      var init, ev := events[..|events| - 1], events[|events| - 1];
      if ev.w != w || !Enabled(Run(p, Boot(p, names), init), ev) then Unsaved(p, names, init, w)
      else ev.Mutate? || (!ev.Save? && !ev.Reload? && Unsaved(p, names, init, w))
  }

  /** One change, then one save that the database answers, before the lock is given back; and a reload
      that works. */
  predicate Tidy<O>(ev: Event<O>, unsaved: bool) {
    match ev
    case Mutate(_, _, _) => !unsaved
    case Save(_, _, fault) => fault == Clean && unsaved
    case Exit(_, _) => !unsaved
    case Reload(_, _, broken) => !broken
    case _ => true
  }

  ghost predicate Disciplined<S, O>(p: Plane<S, O>, names: set<nat>, events: seq<Event<O>>) {
    events == [] ||
    (var init, ev := events[..|events| - 1], events[|events| - 1];
     && Disciplined(p, names, init)
     && (Enabled(Run(p, Boot(p, names), init), ev) ==> Tidy(ev, Unsaved(p, names, init, ev.w))))
  }

  /** Between operations nothing is pending; within one, its single change until it is saved. */
  predicate TidyWorker<S, O>(k: Worker<S, O>, unsaved: bool) {
    && (!k.stale ==> |k.cache.pending| == if unsaved then 1 else 0)
    && (k.stale ==> !unsaved && k.holder.Some?)
    && (unsaved ==> k.holder.Some?)
  }

  lemma {:induction false} DisciplinedKeeps<S, O>(p: Plane<S, O>, names: set<nat>, events: seq<Event<O>>, w: nat)
    requires w in names && Disciplined(p, names, events)
    ensures var sys := Run(p, Boot(p, names), events);
            w in sys.workers && TidyWorker(sys.workers[w], Unsaved(p, names, events, w))
  {
    if events != [] {
      DisciplinedKeeps(p, names, events[..|events| - 1], w);
    }
  }

  lemma {:induction false} DisciplinedPublishesOnes<S, O>(p: Plane<S, O>, names: set<nat>, events: seq<Event<O>>)
    requires Disciplined(p, names, events)
    ensures PublishesOnes(p, names, events)
  {
    if events != [] {
      var init, ev := events[..|events| - 1], events[|events| - 1];
      DisciplinedPublishesOnes(p, names, init);
      WorkersStay(p, names, init);
      if Publishes(Run(p, Boot(p, names), init), ev) {
        DisciplinedKeeps(p, names, init, ev.w);
        UnsyncedIsPending(p, names, init, ev.w);
      }
    }
  }

  /** Each committed revision is one operation applied to the revision before it: in every interleaving
      of workers whose operations each change the state once and save once, whatever prefetches,
      conflicts, invalidations and waits happen around them. */
  lemma OneOperationEach<S(!new), O(!new)>(p: Plane<S, O>, names: set<nat>, events: seq<Event<O>>, n: nat)
    requires Disciplined(p, names, events) && 0 < n < |Run(p, Boot(p, names), events).log|
    ensures var log := Run(p, Boot(p, names), events).log;
            && |log[n].ops| == 1 && log[n].payload == p.step(log[n].ops[0], log[n].base)
            && (log[n].base == log[n - 1].payload || log[n].base == p.validate(log[n - 1].payload))
  {
    DisciplinedPublishesOnes(p, names, events);
    SingleIff(p, names, events);
    NoLostUpdate(p, names, events, n);
    var c := Run(p, Boot(p, names), events).log[n];
    FoldSnoc(p, [], c.ops[0], c.base);
    assert c.ops == [] + [c.ops[0]];
  }

  /** How an operation ends: without saving, or with a save and, after a conflict, a reload. */
  datatype Ending = Abandoned | SaveEnds(fault: Fault, broken: bool)

  function EndingEvents<S, O>(sys: System<S, O>, w: nat, t: nat, end: Ending): seq<Event<O>>
    requires w in sys.workers
  {
    match end
    case Abandoned => [] + [Exit(w, t)]
    case SaveEnds(fault, broken) =>
      if SaveAnswer(sys.log, sys.workers[w].cache, fault) == Conflict
      then [] + [Save(w, t, fault)] + [Reload(w, t, broken)] + [Exit(w, t)]
      else [] + [Save(w, t, fault)] + [Exit(w, t)]
  }

  lemma {:induction false} RunOn<S, O>(p: Plane<S, O>, sys: System<S, O>, events: seq<Event<O>>, more: seq<Event<O>>)
    requires sys.log != []
    ensures Run(p, sys, events + more) == Run(p, Run(p, sys, events), more)
  {
    if more == [] {
      assert events + more == events;
    } else {
      assert (events + more)[..|events + more| - 1] == events + more[..|more| - 1];
      RunOn(p, sys, events, more[..|more| - 1]);
    }
  }

  lemma AbandonedLeaves<S, O>(p: Plane<S, O>, sys: System<S, O>, w: nat, t: nat)
    requires sys.log != [] && Enabled(sys, Exit(w, t))
    ensures var r := Run(p, sys, EndingEvents(sys, w, t, Abandoned));
            w in r.workers && r.workers[w].cache.pending == sys.workers[w].cache.pending
  {
    RunLast(p, sys, [], Exit(w, t));
  }

  lemma SavedLeaves<S, O>(p: Plane<S, O>, sys: System<S, O>, w: nat, t: nat, fault: Fault)
    requires sys.log != [] && Enabled(sys, Exit(w, t))
    requires SaveAnswer(sys.log, sys.workers[w].cache, fault) != Conflict
    ensures var r := Run(p, sys, [] + [Save(w, t, fault)] + [Exit(w, t)]);
            w in r.workers && r.workers[w].cache.pending == if fault == Clean then [] else sys.workers[w].cache.pending
  {
    RunLast(p, sys, [], Save(w, t, fault));
    RunLast(p, sys, [] + [Save(w, t, fault)], Exit(w, t));
  }

  lemma ConflictLeaves<S, O>(p: Plane<S, O>, sys: System<S, O>, w: nat, t: nat, fault: Fault, broken: bool)
    requires sys.log != [] && Enabled(sys, Exit(w, t))
    requires SaveAnswer(sys.log, sys.workers[w].cache, fault) == Conflict
    ensures var r := Run(p, sys, [] + [Save(w, t, fault)] + [Reload(w, t, broken)] + [Exit(w, t)]);
            w in r.workers && r.workers[w].cache.pending == if broken then sys.workers[w].cache.pending else []
  {
    var saved := Step(p, sys, Save(w, t, fault));
    assert saved.workers[w] == sys.workers[w].(stale := true) && saved.log == sys.log;
    RunLast(p, sys, [], Save(w, t, fault));
    RunLast(p, sys, [] + [Save(w, t, fault)], Reload(w, t, broken));
    RunLast(p, sys, [] + [Save(w, t, fault)] + [Reload(w, t, broken)], Exit(w, t));
  }

  /** What leaves something behind: an operation that changed the state and gives the lock back leaves
      nothing if and only if the database answered its save, and a refused one could reload. */
  lemma NothingLeftIff<S, O>(
    p: Plane<S, O>, names: set<nat>, events: seq<Event<O>>, w: nat, t: nat, end: Ending)
    requires w in names && Unsynced(p, names, events, w) != []
    requires Enabled(Run(p, Boot(p, names), events), Exit(w, t))
    ensures var sys := Run(p, Boot(p, names), events);
            w in sys.workers
            && (Unsynced(p, names, events + EndingEvents(sys, w, t, end), w) == [] <==>
                  end.SaveEnds? && end.fault == Clean && (Accepts(sys.log, sys.workers[w].cache) || !end.broken))
  {
    var sys := Run(p, Boot(p, names), events);
    var more := EndingEvents(sys, w, t, end);
    UnsyncedIsPending(p, names, events, w);
    UnsyncedIsPending(p, names, events + more, w);
    RunOn(p, Boot(p, names), events, more);
    match end
    case Abandoned => AbandonedLeaves(p, sys, w, t);
    case SaveEnds(fault, broken) =>
      if SaveAnswer(sys.log, sys.workers[w].cache, fault) == Conflict {
        ConflictLeaves(p, sys, w, t, fault, broken);
      } else {
        SavedLeaves(p, sys, w, t, fault);
      }
  }

  // ----- one operation -----

  /** What is left in the cache of earlier operations once thread t has entered. */
  function Leftover<S, O>(k: Worker<S, O>, t: nat): seq<O> {
    if Refreshes(k, t) then [] else k.cache.pending
  }

  /** The system after a thread takes the lock and changes the state, with steps of other threads in between. */
  function BeforeSave<S, O>(
    p: Plane<S, O>, sys: System<S, O>, w: nat, t: nat, op: O, a: seq<Event<O>>, b: seq<Event<O>>): (r: System<S, O>)
    requires sys.log != []
    ensures r.log != []
  {
    Run(p, Step(p, Run(p, Step(p, sys, Enter(w, t)), a), Mutate(w, t, op)), b)
  }

  /** Thread t of worker w holds the lock, and these operations are in the cache. */
  predicate Holds<S, O(==)>(sys: System<S, O>, w: nat, t: nat, pending: seq<O>) {
    && w in sys.workers && sys.workers[w].holder == Some(t) && !sys.workers[w].stale
    && sys.workers[w].cache.pending == pending
  }

  lemma EnterHolds<S(!new), O(!new)>(p: Plane<S, O>, sys: System<S, O>, w: nat, t: nat)
    requires Inv(p, sys) && Enabled(sys, Enter(w, t))
    ensures Inv(p, Step(p, sys, Enter(w, t))) && sys.log <= Step(p, sys, Enter(w, t)).log
    ensures Holds(Step(p, sys, Enter(w, t)), w, t, Leftover(sys.workers[w], t))
  {
    StepKeeps(p, sys, Enter(w, t));
  }

  lemma MutateHolds<S(!new), O(!new)>(p: Plane<S, O>, sys: System<S, O>, w: nat, t: nat, op: O, pending: seq<O>)
    requires Inv(p, sys) && Holds(sys, w, t, pending)
    ensures Inv(p, Step(p, sys, Mutate(w, t, op))) && sys.log <= Step(p, sys, Mutate(w, t, op)).log
    ensures Holds(Step(p, sys, Mutate(w, t, op)), w, t, pending + [op])
  {
    StepKeeps(p, sys, Mutate(w, t, op));
  }

  /** Steps of other threads, the prefetches of the same worker's among them, leave the holder's cache alone. */
  lemma {:induction false} OthersHold<S(!new), O(!new)>(
    p: Plane<S, O>, sys: System<S, O>, others: seq<Event<O>>, w: nat, t: nat, pending: seq<O>)
    requires Inv(p, sys) && Holds(sys, w, t, pending)
    requires forall ev :: ev in others ==> ev.w != w || ev.t != t
    ensures Inv(p, Run(p, sys, others)) && sys.log <= Run(p, sys, others).log
    ensures Holds(Run(p, sys, others), w, t, pending)
  {
    RunKeeps(p, sys, others);
    if others != [] {
      var init := others[..|others| - 1];
      assert others[|others| - 1] in others && forall ev :: ev in init ==> ev in others;
      OthersHold(p, sys, init, w, t, pending);
    }
  }

  lemma BeforeSaveFacts<S(!new), O(!new)>(
    p: Plane<S, O>, sys: System<S, O>, w: nat, t: nat, op: O, a: seq<Event<O>>, b: seq<Event<O>>)
    requires Inv(p, sys) && Enabled(sys, Enter(w, t))
    requires forall ev :: (ev in a || ev in b) ==> ev.w != w || ev.t != t
    ensures var r := BeforeSave(p, sys, w, t, op, a, b);
            Inv(p, r) && sys.log <= r.log && Holds(r, w, t, Leftover(sys.workers[w], t) + [op])
  {
    var entered, left := Step(p, sys, Enter(w, t)), Leftover(sys.workers[w], t);
    EnterHolds(p, sys, w, t);
    OthersHold(p, entered, a, w, t, left);
    MutateHolds(p, Run(p, entered, a), w, t, op, left);
    OthersHold(p, Step(p, Run(p, entered, a), Mutate(w, t, op)), b, w, t, left + [op]);
  }

  lemma SaveHolds<S(!new), O(!new)>(p: Plane<S, O>, sys: System<S, O>, w: nat, t: nat, pending: seq<O>)
    requires sys.log != [] && Holds(sys, w, t, pending)
    ensures var r := Step(p, sys, Save(w, t, Clean));
            && w in r.workers
            && (r.workers[w].stale ==> r.log == sys.log)
            && (!r.workers[w].stale ==>
                  && |r.log| == |sys.log| + 1 && sys.log <= r.log && r.log[|sys.log|].ops == pending)
  {
  }

  /** An operation that saves publishes itself after whatever its worker had not synchronised when the
      operation began, unless a newer snapshot replaced that; so it publishes exactly itself if and only
      if there was nothing of the kind. Otherwise it is refused, and the log is what the others made of it. */
  lemma OperationPublishes<S(!new), O(!new)>(
    p: Plane<S, O>, names: set<nat>, events: seq<Event<O>>, w: nat, t: nat, op: O, a: seq<Event<O>>, b: seq<Event<O>>)
    requires w in names && Enabled(Run(p, Boot(p, names), events), Enter(w, t))
    requires forall ev :: (ev in a || ev in b) ==> ev.w != w || ev.t != t
    ensures var sys := Run(p, Boot(p, names), events);
            var before := BeforeSave(p, sys, w, t, op, a, b);
            var r, newer := Step(p, before, Save(w, t, Clean)), Refreshes(sys.workers[w], t);
            var left := if newer then [] else Unsynced(p, names, events, w);
            && w in r.workers
            && (r.workers[w].stale ==> r.log == before.log)
            && (!r.workers[w].stale ==>
                  && |r.log| == |before.log| + 1 && before.log <= r.log
                  && r.log[|before.log|].ops == left + [op]
                  && (r.log[|before.log|].ops == [op] <==> newer || Unsynced(p, names, events, w) == []))
  {
    var sys := Run(p, Boot(p, names), events);
    BootInv(p, names);
    RunKeeps(p, Boot(p, names), events);
    UnsyncedIsPending(p, names, events, w);
    BeforeSaveFacts(p, sys, w, t, op, a, b);
    var left := Leftover(sys.workers[w], t);
    SaveHolds(p, BeforeSave(p, sys, w, t, op, a, b), w, t, left + [op]);
    assert |left + [op]| == |left| + 1;
    assert left == [] ==> left + [op] == [op];
  }

  /** One operation fails to save without a conflict, and the same thread then runs another one. */
  function FailThenSave<S, O>(p: Plane<S, O>, sys: System<S, O>, w: nat, t: nat, op: O, next: O): System<S, O>
    requires sys.log != []
  {
    var failed := Step(p, Step(p, sys, Mutate(w, t, op)), Save(w, t, Failed));
    var again := Step(p, Step(p, Step(p, failed, Exit(w, t)), Prefetch(w, t)), Enter(w, t));
    Step(p, Step(p, again, Mutate(w, t, next)), Save(w, t, Clean))
  }

  lemma FailedSaveStays<S(!new), O(!new)>(p: Plane<S, O>, sys: System<S, O>, w: nat, t: nat, op: O)
    requires sys.log != [] && w in sys.workers
    requires sys.workers[w].holder == Some(t) && !sys.workers[w].stale && sys.workers[w].cache.revision == |sys.log| - 1
    ensures var failed := Step(p, Step(p, sys, Mutate(w, t, op)), Save(w, t, Failed));
            var again := Step(p, Step(p, Step(p, failed, Exit(w, t)), Prefetch(w, t)), Enter(w, t));
            && again.log == sys.log && w in again.workers
            && again.workers[w].holder == Some(t) && !again.workers[w].stale
            && again.workers[w].cache == Mutated(p, sys.workers[w].cache, op)
  {
  }

  /** A save that failed without a conflict is not undone in the cache: although the first operation
      was refused, the next one publishes both, whenever the worker was up to date. */
  lemma FailedSaveLeaks<S(!new), O(!new)>(p: Plane<S, O>, sys: System<S, O>, w: nat, t: nat, op: O, next: O)
    requires sys.log != [] && w in sys.workers
    requires sys.workers[w].holder == Some(t) && !sys.workers[w].stale && sys.workers[w].cache.revision == |sys.log| - 1
    ensures var c := Mutated(p, Mutated(p, sys.workers[w].cache, op), next);
            FailThenSave(p, sys, w, t, op, next).log == sys.log + [Commit(c.state, c.base, c.pending)]
  {
    FailedSaveStays(p, sys, w, t, op);
  }

  /** The same on a fresh store: the only revision published holds both operations. */
  lemma FailedSaveLeaksAtBoot(first: nat, second: nat)
    ensures var journal := Plane([], (s: seq<nat>) => s, (op: nat, s: seq<nat>) => s + [op]);
            var entered := Step(journal, Step(journal, Boot(journal, {0}), Prefetch(0, 0)), Enter(0, 0));
            FailThenSave(journal, entered, 0, 0, first, second).log
              == [Commit([], [], []), Commit([first, second], [], [first, second])]
  {
    var journal := Plane([], (s: seq<nat>) => s, (op: nat, s: seq<nat>) => s + [op]);
    var entered := Step(journal, Step(journal, Boot(journal, {0}), Prefetch(0, 0)), Enter(0, 0));
    assert entered.workers[0].cache == Cache([], 0, 0, [], []);
    FailedSaveLeaks(journal, entered, 0, 0, first, second);
    assert [] + [first] + [second] == [first, second];
  }
}
