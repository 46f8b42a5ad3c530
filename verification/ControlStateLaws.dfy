/** No update is lost, under any interleaving of the workers' steps. */
module ControlStateLaws {
  import opened Common
  import opened ControlState

  // ----- the invariant -----

  /** A worker computes from a published state: as validated on load, or as it saved it itself. */
  predicate Origin<S(==), O>(p: Plane<S, O>, log: seq<Commit<S, O>>, n: nat, base: S)
    requires n < |log|
  {
    base == log[n].payload || base == p.validate(log[n].payload)
  }

  ghost predicate LogInv<S(!new), O(!new)>(p: Plane<S, O>, log: seq<Commit<S, O>>) {
    && log != [] && log[0] == Commit(p.empty, p.empty, [])
    && (forall n: nat :: 0 < n < |log| ==> log[n].payload == Fold(p, log[n].ops, log[n].base))
    && (forall n: nat :: 0 < n < |log| ==> Origin(p, log, n - 1, log[n].base))
  }

  ghost predicate CacheInv<S(!new), O(!new)>(p: Plane<S, O>, log: seq<Commit<S, O>>, c: Cache<S, O>) {
    && c.synced < |log| && Origin(p, log, c.synced, c.base)
    && c.state == Fold(p, c.pending, c.base)
    && (c.revision == -1 || c.revision == c.synced)
  }

  ghost predicate SnapshotInv<S(!new), O(!new)>(p: Plane<S, O>, log: seq<Commit<S, O>>, snap: Snapshot<S>) {
    snap.revision < |log| && snap.payload.GetOr(p.empty) == log[snap.revision].payload
  }

  ghost predicate WorkerInv<S(!new), O(!new)>(p: Plane<S, O>, log: seq<Commit<S, O>>, k: Worker<S, O>) {
    && CacheInv(p, log, k.cache)
    && (forall t: nat :: t in k.prefetched ==> SnapshotInv(p, log, k.prefetched[t]))
    && (k.stale ==> k.holder.Some?)
  }

  ghost predicate Inv<S(!new), O(!new)>(p: Plane<S, O>, sys: System<S, O>) {
    && LogInv(p, sys.log)
    && forall w: nat :: w in sys.workers ==> WorkerInv(p, sys.log, sys.workers[w])
  }

  // ----- single steps -----

  lemma FoldSnoc<S, O>(p: Plane<S, O>, ops: seq<O>, op: O, s: S)
    ensures Fold(p, ops + [op], s) == p.step(op, Fold(p, ops, s))
  {
    assert (ops + [op])[..|ops|] == ops;
  }

  lemma LoadedInv<S(!new), O(!new)>(p: Plane<S, O>, log: seq<Commit<S, O>>)
    requires LogInv(p, log)
    ensures SnapshotInv(p, log, Loaded(log)) && Loaded(log).revision == |log| - 1
  {
  }

  /** Publishing appends one revision, computed from the one before it. */
  lemma SavedLogInv<S(!new), O(!new)>(p: Plane<S, O>, log: seq<Commit<S, O>>, c: Cache<S, O>, fault: Fault)
    requires LogInv(p, log) && CacheInv(p, log, c)
    ensures LogInv(p, SavedLog(log, c, fault)) && log <= SavedLog(log, c, fault)
    ensures CacheInv(p, SavedLog(log, c, fault), SavedCache(log, c, fault))
  {
    var r := SavedLog(log, c, fault);
    if fault != Failed && Accepts(log, c) {
      assert c.synced == |log| - 1;
      forall n: nat | 0 < n < |r|
        ensures r[n].payload == Fold(p, r[n].ops, r[n].base) && Origin(p, r, n - 1, r[n].base)
      {
        if n < |log| {
          assert Origin(p, log, n - 1, log[n].base);
        } else {
          assert Origin(p, log, c.synced, c.base);
        }
      }
    }
  }

  lemma GrownLog<S(!new), O(!new)>(p: Plane<S, O>, log: seq<Commit<S, O>>, longer: seq<Commit<S, O>>, k: Worker<S, O>)
    requires log <= longer && WorkerInv(p, log, k)
    ensures WorkerInv(p, longer, k)
  {
    assert longer[k.cache.synced] == log[k.cache.synced];
    forall t: nat | t in k.prefetched ensures SnapshotInv(p, longer, k.prefetched[t]) {
      assert SnapshotInv(p, log, k.prefetched[t]);
    }
  }

  lemma MovedKeeps<S(!new), O(!new)>(p: Plane<S, O>, sys: System<S, O>, ev: Event<O>)
    requires Inv(p, sys) && Enabled(sys, ev)
    ensures WorkerInv(p, Step(p, sys, ev).log, Step(p, sys, ev).workers[ev.w])
    ensures LogInv(p, Step(p, sys, ev).log) && sys.log <= Step(p, sys, ev).log
  {
    var k := sys.workers[ev.w];
    assert WorkerInv(p, sys.log, k);
    LoadedInv(p, sys.log);
    match ev
    case Mutate(_, _, op) => FoldSnoc(p, k.cache.pending, op, k.cache.base);
    case Save(_, _, fault) =>
      SavedLogInv(p, sys.log, k.cache, fault);
      GrownLog(p, sys.log, SavedLog(sys.log, k.cache, fault), k);
    case Enter(_, t) =>
      assert t in k.prefetched ==> SnapshotInv(p, sys.log, k.prefetched[t]);
    case _ =>
  }

  lemma StepKeeps<S(!new), O(!new)>(p: Plane<S, O>, sys: System<S, O>, ev: Event<O>)
    requires Inv(p, sys)
    ensures Inv(p, Step(p, sys, ev)) && sys.log <= Step(p, sys, ev).log
  {
    if Enabled(sys, ev) {
      MovedKeeps(p, sys, ev);
      forall w: nat | w in sys.workers && w != ev.w ensures WorkerInv(p, Step(p, sys, ev).log, sys.workers[w]) {
        GrownLog(p, sys.log, Step(p, sys, ev).log, sys.workers[w]);
      }
    }
  }

  // ----- whole runs -----

  lemma BootInv<S(!new), O(!new)>(p: Plane<S, O>, names: set<nat>)
    ensures Inv(p, Boot(p, names))
  {
  }

  lemma {:induction false} RunKeeps<S(!new), O(!new)>(p: Plane<S, O>, sys: System<S, O>, events: seq<Event<O>>)
    requires Inv(p, sys)
    ensures Inv(p, Run(p, sys, events)) && sys.log <= Run(p, sys, events).log
  {
    if events != [] {
      RunKeeps(p, sys, events[..|events| - 1]);
      StepKeeps(p, Run(p, sys, events[..|events| - 1]), events[|events| - 1]);
    }
  }

  /** Every published revision is operations applied to the revision before it, whatever the interleaving. */
  lemma NoLostUpdate<S(!new), O(!new)>(p: Plane<S, O>, names: set<nat>, events: seq<Event<O>>, n: nat)
    requires 0 < n < |Run(p, Boot(p, names), events).log|
    ensures var log := Run(p, Boot(p, names), events).log;
            && log[n].payload == Fold(p, log[n].ops, log[n].base)
            && (log[n].base == log[n - 1].payload || log[n].base == p.validate(log[n - 1].payload))
  {
    BootInv(p, names);
    RunKeeps(p, Boot(p, names), events);
    assert Origin(p, Run(p, Boot(p, names), events).log, n - 1, Run(p, Boot(p, names), events).log[n].base);
  }

  /** The operations of the revisions up to n, in order. */
  function History<S, O>(log: seq<Commit<S, O>>, n: nat): seq<O>
    requires n < |log|
  {
    if n == 0 then [] else History(log, n - 1) + log[n].ops
  }

  lemma {:induction false} FoldConcat<S, O>(p: Plane<S, O>, a: seq<O>, b: seq<O>, s: S)
    ensures Fold(p, a + b, s) == Fold(p, b, Fold(p, a, s))
  {
    if b == [] {
      assert a + b == a;
    } else {
      assert (a + b)[..|a + b| - 1] == a + b[..|b| - 1];
      FoldConcat(p, a, b[..|b| - 1], s);
    }
  }

  lemma {:induction false} SerialLog<S(!new), O(!new)>(p: Plane<S, O>, log: seq<Commit<S, O>>, n: nat)
    requires LogInv(p, log) && n < |log|
    requires forall i: nat :: i < |log| ==> p.validate(log[i].payload) == log[i].payload
    ensures log[n].payload == Fold(p, History(log, n), p.empty)
  {
    if n > 0 {
      SerialLog(p, log, n - 1);
      assert Origin(p, log, n - 1, log[n].base);
      FoldConcat(p, History(log, n - 1), log[n].ops, p.empty);
    }
  }

  /** When the validator accepts what was published, the store is what the published operations,
      run one after another by a single worker, would have left. */
  lemma Serializable<S(!new), O(!new)>(p: Plane<S, O>, names: set<nat>, events: seq<Event<O>>)
    requires var log := Run(p, Boot(p, names), events).log;
             forall i: nat :: i < |log| ==> p.validate(log[i].payload) == log[i].payload
    ensures var log := Run(p, Boot(p, names), events).log;
            log[|log| - 1].payload == Fold(p, History(log, |log| - 1), p.empty)
  {
    BootInv(p, names);
    RunKeeps(p, Boot(p, names), events);
    var log := Run(p, Boot(p, names), events).log;
    SerialLog(p, log, |log| - 1);
  }

  // ----- what a worker sees -----

  /** A save is refused exactly when somebody published since this worker last synchronised, or the
      worker was told to forget its revision while a row exists. */
  lemma ConflictMeansOverlap<S(!new), O(!new)>(p: Plane<S, O>, sys: System<S, O>, w: nat)
    requires Inv(p, sys) && w in sys.workers
    ensures var c := sys.workers[w].cache;
            SaveAnswer(sys.log, c, Clean) == Conflict <==>
            c.synced < |sys.log| - 1 || (c.revision == -1 && |sys.log| > 1)
  {
    assert WorkerInv(p, sys.log, sys.workers[w]);
  }

  /** After a refused save, the reload leaves the worker with a published state and no trace of its change. */
  lemma ConflictHeals<S(!new), O(!new)>(p: Plane<S, O>, sys: System<S, O>, w: nat, t: nat)
    requires Inv(p, sys) && Enabled(sys, Reload(w, t, false))
    ensures var c := Step(p, sys, Reload(w, t, false)).workers[w].cache;
            && c.revision == |sys.log| - 1 && c.pending == []
            && c.state == p.validate(sys.log[|sys.log| - 1].payload)
  {
    LoadedInv(p, sys.log);
  }

  /** A prefetched snapshot takes a worker back exactly when the worker was told to forget a newer revision. */
  lemma StalePrefetch<S(!new), O(!new)>(p: Plane<S, O>, sys: System<S, O>, w: nat, t: nat)
    requires Inv(p, sys) && Enabled(sys, Enter(w, t))
    ensures var k, c := sys.workers[w], Step(p, sys, Enter(w, t)).workers[w].cache;
            c.synced < k.cache.synced <==>
            t in k.prefetched && k.prefetched[t].revision < k.cache.synced && k.cache.revision == -1
  {
    assert WorkerInv(p, sys.log, sys.workers[w]);
  }

  /** Thread 1 reads the empty store ahead, and thread 0 takes the lock. */
  function ReadAhead<S, O>(p: Plane<S, O>): (r: System<S, O>)
    ensures r.log != []
  {
    Step(p, Step(p, Step(p, Boot(p, {0}), Prefetch(0, 1)), Prefetch(0, 0)), Enter(0, 0))
  }

  /** Thread 0 then runs an operation, and the worker is told to forget its revision. */
  function Forgotten<S, O>(p: Plane<S, O>, op: O): (r: System<S, O>)
    ensures r.log != []
  {
    Step(p, Step(p, Step(p, ReadAhead(p), Mutate(0, 0, op)), Save(0, 0, Clean)), Invalidate(0, 0))
  }

  lemma ReadAheadWorker<S, O>(p: Plane<S, O>)
    ensures var r, s := ReadAhead(p), p.validate(p.empty);
            && |r.log| == 1 && 0 in r.workers
            && r.workers[0] == Worker(Cache(s, 0, 0, s, []), Some(0), map[1 := Snapshot(None, 0)], false)
  {
    var one: map<nat, Snapshot<S>> := map[1 := Snapshot(None, 0)];
    var ahead := Step(p, Boot(p, {0}), Prefetch(0, 1));
    assert 0 in ahead.workers && ahead.workers[0].prefetched == one;
    var both := Step(p, ahead, Prefetch(0, 0));
    assert 0 in both.workers && both.workers[0].prefetched == one[0 := Snapshot(None, 0)];
    assert one[0 := Snapshot(None, 0)] - {0} == one;
  }

  lemma ForgottenWorker<S, O>(p: Plane<S, O>, op: O)
    ensures var r, s := Forgotten(p, op), p.step(op, p.validate(p.empty));
            && |r.log| == 2 && 0 in r.workers
            && r.workers[0] == Worker(Cache(s, -1, 1, s, []), Some(0), map[1 := Snapshot(None, 0)], false)
  {
    ReadAheadWorker(p);
  }

  /** In every control plane: the worker published revision 1, and thread 1 takes it back to the empty store. */
  lemma StalePrefetchAtBoot<S, O>(p: Plane<S, O>, op: O)
    ensures var before := Forgotten(p, op);
            var after := Step(p, Step(p, before, Exit(0, 0)), Enter(0, 1));
            && 0 in before.workers && before.workers[0].cache.state == p.step(op, p.validate(p.empty))
            && 0 in after.workers && after.workers[0].cache == Applied(p, Snapshot(None, 0))
            && after.workers[0].cache.synced < before.workers[0].cache.synced == |before.log| - 1 == |after.log| - 1
  {
    ForgottenWorker(p, op);
  }

  /** Apart from that, no step takes a worker back. */
  lemma NeverBack<S(!new), O(!new)>(p: Plane<S, O>, sys: System<S, O>, ev: Event<O>, w: nat)
    requires Inv(p, sys) && w in sys.workers
    requires sys.workers[w].cache.revision >= 0 || !ev.Enter?
    ensures Step(p, sys, ev).workers[w].cache.synced >= sys.workers[w].cache.synced
  {
    assert WorkerInv(p, sys.log, sys.workers[w]);
    if Enabled(sys, ev) {
      LoadedInv(p, sys.log);
    }
  }

  lemma {:induction false} PrefetchKept<S(!new), O(!new)>(
    p: Plane<S, O>, sys: System<S, O>, events: seq<Event<O>>, w: nat, t: nat)
    requires Inv(p, sys) && w in sys.workers && t in sys.workers[w].prefetched
    requires forall ev :: ev in events && ev.w == w && ev.t == t ==> !ev.Prefetch? && !ev.Enter?
    ensures w in Run(p, sys, events).workers && t in Run(p, sys, events).workers[w].prefetched
    ensures Run(p, sys, events).workers[w].prefetched[t] == sys.workers[w].prefetched[t]
  {
    if events != [] {
      var init, last := events[..|events| - 1], events[|events| - 1];
      assert forall ev :: ev in init ==> ev in events;
      PrefetchKept(p, sys, init, w, t);
      assert last in events;
    }
  }

  /** An operation that starts after a revision was published works on that revision or a later one,
      however long it waits for the lock and whatever happens meanwhile. */
  lemma ReadsAreFresh<S(!new), O(!new)>(
    p: Plane<S, O>, sys: System<S, O>, between: seq<Event<O>>, w: nat, t: nat)
    requires Inv(p, sys) && Enabled(sys, Prefetch(w, t))
    requires forall ev :: ev in between && ev.w == w && ev.t == t ==> !ev.Prefetch? && !ev.Enter?
    requires Enabled(Run(p, Step(p, sys, Prefetch(w, t)), between), Enter(w, t))
    ensures var entered := Step(p, Run(p, Step(p, sys, Prefetch(w, t)), between), Enter(w, t));
            entered.workers[w].cache.synced >= |sys.log| - 1
  {
    var fetched := Step(p, sys, Prefetch(w, t));
    LoadedInv(p, sys.log);
    StepKeeps(p, sys, Prefetch(w, t));
    PrefetchKept(p, fetched, between, w, t);
    RunKeeps(p, fetched, between);
    var waited := Run(p, fetched, between);
    assert WorkerInv(p, waited.log, waited.workers[w]);
  }
}
