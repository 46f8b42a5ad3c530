/** Optimistic control state: several workers cache one versioned snapshot, change their copy under
    a local lock, and publish it with a compare-and-set on the revision. */
module ControlState {
  import opened Common

  /** The state a control plane starts from, its validator, and the effect of its operations. */
  datatype Plane<!S, !O> = Plane(empty: S, validate: S -> S, step: (O, S) -> S)

  /** One published revision, with the state it was computed from and the operations applied to it. */
  datatype Commit<S, O> = Commit(payload: S, base: S, ops: seq<O>)

  datatype Snapshot<S> = Snapshot(payload: Option<S>, revision: nat)

  /** A worker's cache: its state and revision; and how they came about: the revision last loaded or
      saved, the state that gave, and the operations applied since. */
  datatype Cache<S, O> = Cache(state: S, revision: int, synced: nat, base: S, pending: seq<O>)

  /** Clean: the database answered. Failed: nothing was written. Unanswered: written, but the answer was lost. */
  datatype Fault = Clean | Failed | Unanswered
  datatype Answer = Saved | Conflict | Unavailable

  function Fold<S, O>(p: Plane<S, O>, ops: seq<O>, s: S): S {
    if ops == [] then s else p.step(ops[|ops| - 1], Fold(p, ops[..|ops| - 1], s))
  }

  // ----- one worker and the store -----

  /** What a load returns: no row until the first save. */
  function Loaded<S, O>(log: seq<Commit<S, O>>): Snapshot<S>
    requires log != []
  {
    if |log| == 1 then Snapshot(None, 0) else Snapshot(Some(log[|log| - 1].payload), |log| - 1)
  }

  function Applied<S, O>(p: Plane<S, O>, snap: Snapshot<S>): Cache<S, O> {
    var s := p.validate(snap.payload.GetOr(p.empty));
    Cache(s, snap.revision, snap.revision, s, [])
  }

  function AppliedIfNewer<S, O>(p: Plane<S, O>, c: Cache<S, O>, snap: Snapshot<S>): Cache<S, O> {
    if snap.revision <= c.revision then c else Applied(p, snap)
  }

  function Mutated<S, O>(p: Plane<S, O>, c: Cache<S, O>, op: O): Cache<S, O> {
    c.(state := p.step(op, c.state), pending := c.pending + [op])
  }

  function Expected<S, O>(c: Cache<S, O>): nat {
    MaxInt(0, c.revision)
  }

  predicate Accepts<S, O>(log: seq<Commit<S, O>>, c: Cache<S, O>) {
    Expected(c) == |log| - 1
  }

  function SavedLog<S, O>(log: seq<Commit<S, O>>, c: Cache<S, O>, fault: Fault): seq<Commit<S, O>> {
    if fault != Failed && Accepts(log, c) then log + [Commit(c.state, c.base, c.pending)] else log
  }

  function SavedCache<S, O>(log: seq<Commit<S, O>>, c: Cache<S, O>, fault: Fault): Cache<S, O> {
    if fault == Clean && Accepts(log, c) then Cache(c.state, |log|, |log|, c.state, []) else c
  }

  function SaveAnswer<S, O>(log: seq<Commit<S, O>>, c: Cache<S, O>, fault: Fault): Answer {
    if fault != Clean then Unavailable else if Accepts(log, c) then Saved else Conflict
  }

  // ----- the store and the backend, as objects -----

  class ControlRegister<S(!new), O(!new)> {
    var row: Option<(S, nat)>
    ghost var log: seq<Commit<S, O>>

    ghost predicate Valid()
      reads this
    {
      && log != []
      && row == if |log| == 1 then None else Some((log[|log| - 1].payload, |log| - 1))
    }

    constructor (ghost first: S)
      ensures Valid() && log == [Commit(first, first, [])]
    {
      row, log := None, [Commit(first, first, [])];
    }

    method Load() returns (snap: Snapshot<S>)
      requires Valid()
      ensures snap == Loaded(log)
    {
      snap := if row.None? then Snapshot(None, 0) else Snapshot(Some(row.value.0), row.value.1);
    }

    /** Insert the first row, or update the row whose revision is the expected one. */
    method Save(payload: S, expected: nat, ghost base: S, ghost ops: seq<O>) returns (revision: Option<nat>)
      requires Valid()
      modifies this
      ensures Valid()
      ensures revision == if expected == |old(log)| - 1 then Some(|old(log)|) else None
      ensures log == if revision.Some? then old(log) + [Commit(payload, base, ops)] else old(log)
    {
      if expected == 0 {
        if row.Some? {
          return None;
        }
        row, revision := Some((payload, 1)), Some(1);
      } else {
        if row.None? || row.value.1 != expected {
          return None;
        }
        row, revision := Some((payload, expected + 1)), Some(expected + 1);
      }
      log := log + [Commit(payload, base, ops)];
    }
  }

  class ControlStateBackend<S(!new), O(!new)> {
    const plane: Plane<S, O>
    const register: ControlRegister<S, O>
    var state: S
    var revision: int
    ghost var synced: nat
    ghost var base: S
    ghost var pending: seq<O>

    ghost function View(): Cache<S, O>
      reads this
    {
      Cache(state, revision, synced, base, pending)
    }

    constructor (p: Plane<S, O>, r: ControlRegister<S, O>)
      ensures plane == p && register == r && View() == Cache(p.empty, -1, 0, p.empty, [])
    {
      plane, register, state, revision := p, r, p.empty, -1;
      synced, base, pending := 0, p.empty, [];
    }

    method Invalidate()
      modifies this
      ensures View() == old(View()).(revision := -1)
    {
      revision := -1;
    }

    method Apply(snap: Snapshot<S>)
      modifies this
      ensures View() == Applied(plane, snap)
    {
      state := plane.validate(snap.payload.GetOr(plane.empty));
      revision := MaxInt(0, snap.revision);
      synced, base, pending := snap.revision, state, [];
    }

    method ApplySnapshot(snap: Snapshot<S>, force: bool) returns (applied: bool)
      modifies this
      ensures applied == (force || snap.revision > old(revision))
      ensures View() == if force then Applied(plane, snap) else AppliedIfNewer(plane, old(View()), snap)
    {
      if !force && snap.revision <= revision {
        return false;
      }
      Apply(snap);
      applied := true;
    }

    method Refresh(force: bool) returns (applied: bool)
      requires register.Valid()
      modifies this
      ensures var snap := Loaded(register.log);
              View() == if force then Applied(plane, snap) else AppliedIfNewer(plane, old(View()), snap)
    {
      var snap := register.Load();
      applied := ApplySnapshot(snap, force);
    }

    method Mutate(op: O)
      modifies this
      ensures View() == Mutated(plane, old(View()), op)
    {
      state := plane.step(op, state);
      pending := pending + [op];
    }

    /** Publishes the cache; on a conflict the cache is replaced by the store's state before the refusal. */
    method Save(fault: Fault) returns (answer: Answer)
      requires register.Valid()
      modifies this, register
      ensures register.Valid() && register.log == SavedLog(old(register.log), old(View()), fault)
      ensures answer == SaveAnswer(old(register.log), old(View()), fault)
      ensures View() == if answer == Conflict then Applied(plane, Loaded(register.log))
                        else SavedCache(old(register.log), old(View()), fault)
    {
      if fault == Failed {
        return Unavailable;
      }
      var committed := register.Save(state, MaxInt(0, revision), base, pending);
      if fault == Unanswered {
        return Unavailable;
      }
      if committed.None? {
        var _ := Refresh(true);
        return Conflict;
      }
      revision := committed.value;
      synced, base, pending := committed.value, state, [];
      answer := Saved;
    }
  }

  // ----- all workers together -----

  /** A worker's cache, the thread holding its lock, what its threads prefetched outside the lock,
      and whether a conflict still has to be followed by a reload. */
  datatype Worker<S, O> = Worker(
    cache: Cache<S, O>, holder: Option<nat>, prefetched: map<nat, Snapshot<S>>, stale: bool)

  datatype System<S, O> = System(log: seq<Commit<S, O>>, workers: map<nat, Worker<S, O>>)

  /** Steps of thread t of worker w. The lock is re-entrant: a nested operation is more of the same holder's steps. */
  datatype Event<O> =
    | Prefetch(w: nat, t: nat)
    | Enter(w: nat, t: nat)
    | Mutate(w: nat, t: nat, op: O)
    | Save(w: nat, t: nat, fault: Fault)
    | Reload(w: nat, t: nat, broken: bool)
    | Invalidate(w: nat, t: nat)
    | Exit(w: nat, t: nat)

  predicate Enabled<S, O>(sys: System<S, O>, ev: Event<O>) {
    ev.w in sys.workers &&
    var k := sys.workers[ev.w];
    match ev
    case Prefetch(_, t) => k.holder != Some(t)
    case Enter(_, t) => k.holder.None?
    case Reload(_, t, _) => k.holder == Some(t)
    case _ => k.holder == Some(ev.t) && !k.stale
  }

  function Moved<S, O>(p: Plane<S, O>, log: seq<Commit<S, O>>, k: Worker<S, O>, ev: Event<O>): Worker<S, O>
    requires log != []
  {
    match ev
    case Prefetch(_, t) => k.(prefetched := k.prefetched[t := Loaded(log)])
    case Enter(_, t) =>
      var c := if t in k.prefetched then AppliedIfNewer(p, k.cache, k.prefetched[t]) else k.cache;
      Worker(c, Some(t), k.prefetched - {t}, false)
    case Mutate(_, _, op) => k.(cache := Mutated(p, k.cache, op))
    case Save(_, _, fault) =>
      k.(cache := SavedCache(log, k.cache, fault), stale := SaveAnswer(log, k.cache, fault) == Conflict)
    case Reload(_, _, broken) => k.(cache := if broken then k.cache else Applied(p, Loaded(log)), stale := false)
    case Invalidate(_, _) => k.(cache := k.cache.(revision := -1))
    case Exit(_, _) => k.(holder := None)
  }

  function Step<S, O>(p: Plane<S, O>, sys: System<S, O>, ev: Event<O>): (r: System<S, O>)
    requires sys.log != []
    ensures r.log != []
  {
    if !Enabled(sys, ev) then sys
    else
      var k := sys.workers[ev.w];
      System(if ev.Save? then SavedLog(sys.log, k.cache, ev.fault) else sys.log,
             sys.workers[ev.w := Moved(p, sys.log, k, ev)])
  }

  function Run<S, O>(p: Plane<S, O>, sys: System<S, O>, events: seq<Event<O>>): (r: System<S, O>)
    requires sys.log != []
    ensures r.log != []
  {
    if events == [] then sys else Step(p, Run(p, sys, events[..|events| - 1]), events[|events| - 1])
  }

  function Boot<S, O>(p: Plane<S, O>, names: set<nat>): System<S, O> {
    System([Commit(p.empty, p.empty, [])],
           map w | w in names :: Worker(Cache(p.empty, -1, 0, p.empty, []), None, map[], false))
  }
}
