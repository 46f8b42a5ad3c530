/** Bounded-concurrency gather: a fixed number of workers share a counter of items still to start. */
module GatherLimited {
  import opened Common

  /** Where one worker stands: between items, inside item i, or finished in one of three ways. */
  datatype Worker = Ready | Busy(index: nat) | Idle | Failed(failed: nat) | Cancelled(unfinished: Option<nat>)

  /** What the caller sees: still waiting, tearing down after a failure or a cancellation, returned or raised. */
  datatype Caller = Waiting | TearingDown | Returned | Raised

  datatype Pool<R> = Pool(
    next: nat, results: seq<Option<R>>, stopping: bool, workers: seq<Worker>, caller: Caller, started: seq<nat>)

  /** Worker w takes an index (or learns there is none), finishes its item, fails on it, gives up because
      the item itself raised a cancellation, or is cancelled by the caller; the caller notices that a worker
      failed or gave up, is cancelled itself, or collects the outcome. */
  datatype Event =
    | Take(w: nat) | Finish(w: nat) | Fail(w: nat) | GiveUp(w: nat) | CancelWorker(w: nat)
    | Notice | CancelCaller | Collect

  function WorkerCount(limit: int, n: nat): nat {
    var wanted := MaxInt(1, limit);
    if wanted <= n then wanted else n
  }

  function Start<R>(limit: int, n: nat): Pool<R> {
    Pool(0, seq(n, i => None), false, seq(WorkerCount(limit, n), i => Ready), Waiting, [])
  }

  predicate Over(k: Worker) {
    k.Idle? || k.Failed? || k.Cancelled?
  }

  predicate Broke(k: Worker) {
    k.Failed? || k.Cancelled?
  }

  predicate Enabled<R>(p: Pool<R>, ev: Event) {
    match ev
    case Take(w) => w < |p.workers| && p.workers[w].Ready?
    case Finish(w) => w < |p.workers| && p.workers[w].Busy? && p.workers[w].index < |p.results|
    case Fail(w) => w < |p.workers| && p.workers[w].Busy?
    case GiveUp(w) => w < |p.workers| && p.workers[w].Busy?
    case CancelWorker(w) => w < |p.workers| && (p.workers[w].Ready? || p.workers[w].Busy?) && p.caller == TearingDown
    case Notice => p.caller == Waiting && exists w :: 0 <= w < |p.workers| && Broke(p.workers[w])
    case CancelCaller => p.caller == Waiting
    case Collect =>
      && (p.caller == Waiting || p.caller == TearingDown)
      && (forall w :: 0 <= w < |p.workers| ==> Over(p.workers[w]))
      && (p.caller == Waiting ==> forall w :: 0 <= w < |p.workers| ==> p.workers[w].Idle?)
  }

  /** Handing out the next index, under the counter's lock. */
  function Taken<R>(p: Pool<R>, w: nat): Pool<R>
    requires w < |p.workers|
  {
    if p.stopping || p.next >= |p.results| then p.(workers := p.workers[w := Idle])
    else p.(workers := p.workers[w := Busy(p.next)], next := p.next + 1, started := p.started + [p.next])
  }

  function Step<R>(p: Pool<R>, f: nat -> R, ev: Event): Pool<R> {
    if !Enabled(p, ev) then p
    else
      match ev
      case Take(w) => Taken(p, w)
      case Finish(w) =>
        var i := p.workers[w].index;
        p.(results := p.results[i := Some(f(i))], workers := p.workers[w := Ready])
      case Fail(w) => p.(stopping := true, workers := p.workers[w := Failed(p.workers[w].index)])
      case GiveUp(w) => p.(workers := p.workers[w := Cancelled(Some(p.workers[w].index))])
      case CancelWorker(w) =>
        var at := if p.workers[w].Busy? then Some(p.workers[w].index) else None;
        p.(workers := p.workers[w := Cancelled(at)])
      case Notice => p.(stopping := true, caller := TearingDown)
      case CancelCaller => p.(stopping := true, caller := TearingDown)
      case Collect => p.(caller := if p.caller == Waiting then Returned else Raised)
  }

  function Run<R>(limit: int, n: nat, f: nat -> R, events: seq<Event>): Pool<R> {
    if events == [] then Start(limit, n)
    else Step(Run(limit, n, f, events[..|events| - 1]), f, events[|events| - 1])
  }

  // ----- the invariant -----

  /** Worker w is or was occupied with index i. */
  predicate Holds(k: Worker, i: nat) {
    k == Busy(i) || k == Failed(i) || k == Cancelled(Some(i))
  }

  predicate HeldAt(ws: seq<Worker>, w: nat, i: nat) {
    w < |ws| && Holds(ws[w], i)
  }

  /** An index handed out is finished with its own value, or held by a worker; and no two workers hold one index. */
  ghost predicate Slots<R(!new)>(p: Pool<R>, f: nat -> R) {
    && p.next <= |p.results|
    && (forall i: nat :: i < p.next ==> p.results[i].Some? || exists w: nat :: HeldAt(p.workers, w, i))
    && (forall i: nat :: i < |p.results| && p.results[i].Some? ==> i < p.next && p.results[i] == Some(f(i)))
    && (forall w: nat, i: nat :: HeldAt(p.workers, w, i) ==> i < p.next && p.results[i].None?)
    && (forall v: nat, w: nat, i: nat :: HeldAt(p.workers, v, i) && HeldAt(p.workers, w, i) ==> v == w)
  }

  ghost predicate SomeFailed(ws: seq<Worker>) {
    exists w: nat :: w < |ws| && ws[w].Failed?
  }

  ghost predicate AllIdle(ws: seq<Worker>) {
    forall w: nat :: w < |ws| ==> ws[w].Idle?
  }

  /** Nobody stops early: a worker went idle only for lack of items, unless the pool is stopping; and
      the pool is stopping exactly when a worker failed or the caller tore it down. */
  ghost predicate Stops<R>(p: Pool<R>) {
    && (forall w: nat :: w < |p.workers| && p.workers[w].Idle? ==> p.stopping || p.next == |p.results|)
    && (p.stopping <==> SomeFailed(p.workers) || p.caller == TearingDown || p.caller == Raised)
    && (p.caller == Returned ==> AllIdle(p.workers))
  }

  ghost predicate Inv<R(!new)>(p: Pool<R>, limit: int, n: nat, f: nat -> R) {
    && |p.results| == n && |p.workers| == WorkerCount(limit, n)
    && Slots(p, f) && Stops(p)
    && p.started == seq(p.next, i => i)
  }

  lemma SlotsStep<R(!new)>(p: Pool<R>, f: nat -> R, ev: Event)
    requires Slots(p, f) && Enabled(p, ev)
    ensures Slots(Step(p, f, ev), f)
  {
    var q := Step(p, f, ev);
    forall i: nat | i < q.next ensures q.results[i].Some? || exists w: nat :: HeldAt(q.workers, w, i) {
      if i < p.next && p.results[i].None? {
        var w: nat :| HeldAt(p.workers, w, i);
        assert q.results[i].Some? || HeldAt(q.workers, w, i);
      } else if i == p.next {
        assert HeldAt(q.workers, ev.w, i);
      }
    }
    forall w: nat, i: nat | HeldAt(q.workers, w, i)
      ensures HeldAt(p.workers, w, i) || (ev == Take(w) && i == p.next)
    {
    }
    if ev.Finish? {
      assert HeldAt(p.workers, ev.w, p.workers[ev.w].index);
    }
  }

  lemma FailedStays<R(!new)>(p: Pool<R>, f: nat -> R, ev: Event)
    requires Enabled(p, ev)
    ensures SomeFailed(Step(p, f, ev).workers) <==> SomeFailed(p.workers) || ev.Fail?
  {
    var q := Step(p, f, ev);
    if SomeFailed(p.workers) {
      var w: nat :| w < |p.workers| && p.workers[w].Failed?;
      assert q.workers[w].Failed?;
    }
    if ev.Fail? {
      assert q.workers[ev.w].Failed?;
    }
    if SomeFailed(q.workers) {
      var w: nat :| w < |q.workers| && q.workers[w].Failed?;
      assert p.workers[w].Failed? || ev == Fail(w);
    }
  }

  lemma StopsStep<R(!new)>(p: Pool<R>, f: nat -> R, ev: Event)
    requires Slots(p, f) && Stops(p) && Enabled(p, ev)
    ensures Stops(Step(p, f, ev))
  {
    FailedStays(p, f, ev);
  }

  lemma StepKeeps<R(!new)>(p: Pool<R>, limit: int, n: nat, f: nat -> R, ev: Event)
    requires Inv(p, limit, n, f)
    ensures Inv(Step(p, f, ev), limit, n, f)
  {
    if Enabled(p, ev) {
      SlotsStep(p, f, ev);
      StopsStep(p, f, ev);
      assert seq(p.next + 1, i => i) == seq(p.next, i => i) + [p.next];
    }
  }

  lemma {:induction false} RunKeeps<R(!new)>(limit: int, n: nat, f: nat -> R, events: seq<Event>)
    ensures Inv(Run(limit, n, f, events), limit, n, f)
  {
    if events != [] {
      RunKeeps(limit, n, f, events[..|events| - 1]);
      StepKeeps(Run(limit, n, f, events[..|events| - 1]), limit, n, f, events[|events| - 1]);
    } else {
      assert Start<R>(limit, n).started == seq(0, i => i);
    }
  }

  // ----- theorems, for every interleaving -----

  lemma IdleIsComplete<R(!new)>(p: Pool<R>, limit: int, n: nat, f: nat -> R)
    requires Inv(p, limit, n, f) && p.caller == Returned
    ensures |p.results| == n && forall i: nat :: i < n ==> p.results[i] == Some(f(i))
  {
    forall i: nat | i < n ensures p.results[i] == Some(f(i)) {
      assert p.workers[0].Idle?;
      forall w: nat ensures !HeldAt(p.workers, w, i) {
      }
    }
  }

  /** A normal return has every slot filled with that item's own result. */
  lemma ReturnIsComplete<R(!new)>(limit: int, n: nat, f: nat -> R, events: seq<Event>, i: nat)
    requires Run(limit, n, f, events).caller == Returned && i < n
    ensures |Run(limit, n, f, events).results| == n && Run(limit, n, f, events).results[i] == Some(f(i))
  {
    RunKeeps(limit, n, f, events);
    IdleIsComplete(Run(limit, n, f, events), limit, n, f);
  }

  /** Items are started in order, each at most once. */
  lemma StartedOnce<R(!new)>(limit: int, n: nat, f: nat -> R, events: seq<Event>, k: nat)
    requires k < |Run(limit, n, f, events).started|
    ensures Run(limit, n, f, events).started[k] == k && |Run(limit, n, f, events).started| <= n
  {
    RunKeeps(limit, n, f, events);
  }

  function BusyIndices(ws: seq<Worker>): set<nat> {
    set w | 0 <= w < |ws| && ws[w].Busy? :: ws[w].index
  }

  lemma {:induction false} BusyBound(ws: seq<Worker>)
    ensures |BusyIndices(ws)| <= |ws|
  {
    if ws != [] {
      var m := |ws| - 1;
      BusyBound(ws[..m]);
      var last := if ws[m].Busy? then {ws[m].index} else {};
      assert BusyIndices(ws) == BusyIndices(ws[..m]) + last by {
        forall i | i in BusyIndices(ws) ensures i in BusyIndices(ws[..m]) + last {
          var w :| 0 <= w < |ws| && ws[w].Busy? && ws[w].index == i;
          assert w < m ==> ws[..m][w] == ws[w];
        }
        forall i | i in BusyIndices(ws[..m]) ensures i in BusyIndices(ws) {
          var w :| 0 <= w < m && ws[..m][w].Busy? && ws[..m][w].index == i;
          assert ws[w] == ws[..m][w];
        }
      }
    }
  }

  /** Never more items in progress at once than the limit, or one when the limit is not positive. */
  lemma Bounded<R(!new)>(limit: int, n: nat, f: nat -> R, events: seq<Event>)
    ensures |BusyIndices(Run(limit, n, f, events).workers)| <= WorkerCount(limit, n) <= MaxInt(1, limit)
  {
    RunKeeps(limit, n, f, events);
    BusyBound(Run(limit, n, f, events).workers);
  }

  lemma StoppedStep<R(!new)>(p: Pool<R>, f: nat -> R, ev: Event)
    requires p.stopping
    ensures Step(p, f, ev).stopping && Step(p, f, ev).started == p.started
  {
  }

  /** Once a failure or a cancellation is flagged no further item is started, whatever happens next. */
  lemma {:induction false} NothingAfterStop<R(!new)>(
    limit: int, n: nat, f: nat -> R, events: seq<Event>, later: seq<Event>)
    requires Run(limit, n, f, events).stopping
    ensures Run(limit, n, f, events + later).stopping
    ensures Run(limit, n, f, events + later).started == Run(limit, n, f, events).started
  {
    if later == [] {
      assert events + later == events;
    } else {
      var init := later[..|later| - 1];
      assert (events + later)[..|events + later| - 1] == events + init;
      NothingAfterStop(limit, n, f, events, init);
      StoppedStep(Run(limit, n, f, events + init), f, later[|later| - 1]);
    }
  }

  /** The flag is up exactly when a worker failed or the caller is done for: an item that raises a
      cancellation of its own does not raise it, and others may start until the caller notices. */
  lemma StopFlag<R(!new)>(limit: int, n: nat, f: nat -> R, events: seq<Event>)
    ensures var p := Run(limit, n, f, events);
            p.stopping <==> SomeFailed(p.workers) || p.caller == TearingDown || p.caller == Raised
  {
    RunKeeps(limit, n, f, events);
  }

  lemma RunSnoc<R>(limit: int, n: nat, f: nat -> R, events: seq<Event>, ev: Event)
    ensures Run(limit, n, f, events + [ev]) == Step(Run(limit, n, f, events), f, ev)
  {
    assert (events + [ev])[..|events|] == events;
  }

  /** Two workers, three items: item 0 raises a cancellation, and item 2 is started all the same. */
  function GiveUpRun(): seq<Event> {
    [] + [Take(0)] + [Take(1)] + [GiveUp(0)] + [Finish(1)] + [Take(1)]
  }

  lemma BothBusy<R>(f: nat -> R, events: seq<Event>)
    requires events == [] + [Take(0)] + [Take(1)]
    ensures Run(2, 3, f, events)
         == Pool(2, [None, None, None], false, [Busy(0), Busy(1)], Waiting, [0, 1])
  {
    var start := Start<R>(2, 3);
    assert start.workers == [Ready, Ready] && start.results == [None, None, None];
    RunSnoc(2, 3, f, [], Take(0));
    RunSnoc(2, 3, f, [] + [Take(0)], Take(1));
  }

  lemma OthersGoOn<R>(p: Pool<R>, f: nat -> R)
    requires p.workers == [Busy(0), Busy(1)] && p.next == 2 && |p.results| == 3 && !p.stopping && p.caller == Waiting
    ensures var q := Step(Step(Step(p, f, GiveUp(0)), f, Finish(1)), f, Take(1));
            q.workers == [Cancelled(Some(0)), Busy(2)] && q.started == p.started + [2] && q.caller == Waiting
  {
  }

  lemma GiveUpGoesOn<R>(f: nat -> R)
    ensures var p := Run(2, 3, f, GiveUpRun());
            p.workers == [Cancelled(Some(0)), Busy(2)] && p.started == [0, 1, 2] && p.caller == Waiting
  {
    var busy := [] + [Take(0)] + [Take(1)];
    BothBusy(f, busy);
    OthersGoOn(Run(2, 3, f, busy), f);
    RunSnoc(2, 3, f, busy, GiveUp(0));
    RunSnoc(2, 3, f, busy + [GiveUp(0)], Finish(1));
    RunSnoc(2, 3, f, busy + [GiveUp(0)] + [Finish(1)], Take(1));
  }

  ghost predicate SomeBroke(ws: seq<Worker>) {
    exists w: nat :: w < |ws| && Broke(ws[w])
  }

  lemma {:induction false} BrokenStays<R(!new)>(
    limit: int, n: nat, f: nat -> R, events: seq<Event>, later: seq<Event>, w: nat)
    requires w < |Run(limit, n, f, events).workers| && Broke(Run(limit, n, f, events).workers[w])
    ensures w < |Run(limit, n, f, events + later).workers| && Broke(Run(limit, n, f, events + later).workers[w])
  {
    if later == [] {
      assert events + later == events;
    } else {
      assert (events + later)[..|events + later| - 1] == events + later[..|later| - 1];
      BrokenStays(limit, n, f, events, later[..|later| - 1], w);
    }
  }

  /** A failure always surfaces: once a worker failed, gave up or was cancelled, or the flag is up, the
      call never returns normally. */
  lemma FailureSurfaces<R(!new)>(limit: int, n: nat, f: nat -> R, events: seq<Event>, later: seq<Event>)
    requires Run(limit, n, f, events).stopping || SomeBroke(Run(limit, n, f, events).workers)
    ensures Run(limit, n, f, events + later).caller != Returned
  {
    RunKeeps(limit, n, f, events + later);
    if Run(limit, n, f, events).stopping {
      NothingAfterStop(limit, n, f, events, later);
    } else {
      var w: nat :| w < |Run(limit, n, f, events).workers| && Broke(Run(limit, n, f, events).workers[w]);
      BrokenStays(limit, n, f, events, later, w);
    }
  }

  // ----- the shared variables, updated in place -----

  /** The shared variables of one call; every method is one step of the pool. */
  class Gather<R(!new)> {
    const limit: int
    const n: nat
    var next: nat
    var results: seq<Option<R>>
    var stopping: bool
    var workers: seq<Worker>
    var caller: Caller
    ghost const f: nat -> R
    ghost var started: seq<nat>

    ghost function View(): Pool<R>
      reads this
    {
      Pool(next, results, stopping, workers, caller, started)
    }

    ghost predicate Valid()
      reads this
    {
      Inv(View(), limit, n, f)
    }

    constructor (limit: int, n: nat, ghost f: nat -> R)
      ensures Valid() && View() == Start(limit, n) && this.limit == limit && this.n == n && this.f == f
    {
      this.limit, this.n, this.f := limit, n, f;
      next, stopping, caller, started := 0, false, Waiting, [];
      results := seq(n, i => None);
      workers := seq(WorkerCount(limit, n), i => Ready);
      new;
      RunKeeps(limit, n, f, []);
    }

    method TakeNextIndex(w: nat) returns (index: Option<nat>)
      requires Valid() && w < |workers| && workers[w].Ready?
      modifies this
      ensures Valid() && View() == Step(old(View()), f, Take(w))
      ensures index == if old(stopping) || old(next) >= n then None else Some(old(next))
      ensures index.Some? ==> index.value !in old(started) && index.value < n && workers[w] == Busy(index.value)
    {
      StepKeeps(View(), limit, n, f, Take(w));
      if stopping || next >= |results| {
        workers := workers[w := Idle];
        return None;
      }
      index := Some(next);
      workers := workers[w := Busy(next)];
      started := started + [next];
      next := next + 1;
    }

    /** The item of worker w answered. */
    method StoreResult(w: nat, value: R)
      requires Valid() && w < |workers| && workers[w].Busy? && value == f(workers[w].index)
      modifies this
      ensures Valid() && View() == Step(old(View()), f, Finish(w))
    {
      StepKeeps(View(), limit, n, f, Finish(w));
      assert HeldAt(workers, w, workers[w].index);
      results := results[workers[w].index := Some(value)];
      workers := workers[w := Ready];
    }

    /** The item of worker w raised an error. */
    method WorkerFailed(w: nat)
      requires Valid() && w < |workers| && workers[w].Busy?
      modifies this
      ensures Valid() && View() == Step(old(View()), f, Fail(w))
    {
      StepKeeps(View(), limit, n, f, Fail(w));
      stopping := true;
      workers := workers[w := Failed(workers[w].index)];
    }

    /** The item of worker w raised a cancellation: the flag stays as it is. */
    method WorkerGaveUp(w: nat)
      requires Valid() && w < |workers| && workers[w].Busy?
      modifies this
      ensures Valid() && View() == Step(old(View()), f, GiveUp(w))
    {
      StepKeeps(View(), limit, n, f, GiveUp(w));
      workers := workers[w := Cancelled(Some(workers[w].index))];
    }

    /** The caller's await raised because a worker broke. */
    method NoticeFailure(w: nat)
      requires Valid() && caller == Waiting && w < |workers| && Broke(workers[w])
      modifies this
      ensures Valid() && View() == Step(old(View()), f, Notice)
    {
      StepKeeps(View(), limit, n, f, Notice);
      stopping, caller := true, TearingDown;
    }

    /** The caller itself was cancelled. */
    method NoticeCancellation()
      requires Valid() && caller == Waiting
      modifies this
      ensures Valid() && View() == Step(old(View()), f, CancelCaller)
    {
      StepKeeps(View(), limit, n, f, CancelCaller);
      stopping, caller := true, TearingDown;
    }

    /** The caller's cancellation reaches worker w. */
    method CancelTask(w: nat)
      requires Valid() && caller == TearingDown && w < |workers| && (workers[w].Ready? || workers[w].Busy?)
      modifies this
      ensures Valid() && View() == Step(old(View()), f, CancelWorker(w))
    {
      StepKeeps(View(), limit, n, f, CancelWorker(w));
      workers := workers[w := Cancelled(if workers[w].Busy? then Some(workers[w].index) else None)];
    }

    /** Every worker is over: the call returns all results in order, or raises after tearing down. */
    method CollectResults() returns (out: Option<seq<R>>)
      requires Valid() && (caller == Waiting || caller == TearingDown)
      requires forall w :: 0 <= w < |workers| ==> Over(workers[w])
      requires caller == Waiting ==> !SomeBroke(workers)
      modifies this
      ensures Valid() && View() == Step(old(View()), f, Collect)
      ensures out == if old(caller) == Waiting then Some(seq(n, (i: nat) => f(i))) else None
    {
      StepKeeps(View(), limit, n, f, Collect);
      if caller == TearingDown {
        caller := Raised;
        return None;
      }
      caller := Returned;
      IdleIsComplete(View(), limit, n, f);
      var slots := results;
      var all := seq(|slots|, i requires 0 <= i < |slots| && slots[i].Some? => slots[i].value);
      assert all == seq(n, (i: nat) => f(i)) by {
        forall i: nat | i < n ensures all[i] == f(i) {
          assert slots[i] == Some(f(i));
        }
      }
      out := Some(all);
    }
  }
}
