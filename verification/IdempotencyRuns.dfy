/** What idempotency keys guarantee over every interleaving of requests. */
module IdempotencyRuns {
  import opened Common
  import opened Idempotency

  // ----- runs -----

  /** A request arrives (and picks `victim` if room must be made), or one that proceeded finishes with a reply. */
  datatype Event =
    | Arrive(c: Context, now: real, victim: string)
    | Finish(owner: nat, reply: Reply)

  datatype Limits = Limits(capacity: int, maxBytes: int)

  /** The table; the requests still executing; and the record of what happened: how often each key was
      executed, released, purged and evicted, who was ever admitted, and what each of them answered. */
  datatype System = System(
    table: Table, executing: map<nat, Context>,
    executed: multiset<string>, released: multiset<string>, purged: multiset<string>, evicted: multiset<string>,
    admitted: map<nat, Context>, answers: map<nat, Reply>)

  function Start(): System {
    System(map[], map[], multiset{}, multiset{}, multiset{}, multiset{}, map[], map[])
  }

  /** Tokens are fresh, and the entry that makes room is an oldest completed one. */
  ghost predicate Enabled(l: Limits, s: System, ev: Event) {
    match ev
    case Arrive(c, now, victim) =>
      && c.owner !in s.admitted
      && (NeedsRoom(Purged(s.table, now), l.capacity, c.key) ==> Oldest(Purged(s.table, now), victim))
    case Finish(owner, _) => owner in s.executing
  }

  function Out(live: Table, cap: int, key: string, victim: string): multiset<string> {
    if NeedsRoom(live, cap, key) then multiset{victim} else multiset{}
  }

  function Arrived(l: Limits, s: System, c: Context, now: real, victim: string): System {
    var live := Purged(s.table, now);
    var s' := s.(table := ReserveTable(s.table, l.capacity, c, now, victim),
                 purged := s.purged + multiset(s.table.Keys - live.Keys));
    if !ReserveAnswer(s.table, l.capacity, c, now).Reserved? then s'
    else s'.(executing := s.executing[c.owner := c], admitted := s.admitted[c.owner := c],
             executed := s.executed + multiset{c.key},
             evicted := s.evicted + Out(live, l.capacity, c.key, victim))
  }

  function Gone(l: Limits, s: System, c: Context, reply: Reply): multiset<string> {
    if !Storable(reply, l.maxBytes) && Owns(s.table, c) then multiset{c.key} else multiset{}
  }

  function Finished(l: Limits, s: System, owner: nat, reply: Reply): System
    requires owner in s.executing
  {
    var c := s.executing[owner];
    s.(table := FinishTable(s.table, c, reply, l.maxBytes), executing := s.executing - {owner},
       answers := s.answers[owner := reply],
       released := s.released + Gone(l, s, c, reply))
  }

  ghost function Step(l: Limits, s: System, ev: Event): System {
    if !Enabled(l, s, ev) then s
    else
      match ev
      case Arrive(c, now, victim) => Arrived(l, s, c, now, victim)
      case Finish(owner, reply) => Finished(l, s, owner, reply)
  }

  ghost function Run(l: Limits, events: seq<Event>): System {
    if events == [] then Start() else Step(l, Run(l, events[..|events| - 1]), events[|events| - 1])
  }

  // ----- the invariant -----

  /** A record belongs to an admitted request for this key; a completed one holds that request's own answer. */
  predicate Genuine(s: System, k: string, r: Record) {
    && r.owner in s.admitted && s.admitted[r.owner].key == k && s.admitted[r.owner].hash == r.hash
    && r.expiresAt == s.admitted[r.owner].expiresAt
    && (if r.completed then r.owner in s.answers && r == StoredRecord(s.admitted[r.owner], s.answers[r.owner])
        else r == Pending(s.admitted[r.owner]))
  }

  /** Every execution of a key is accounted for: it was released, purged or evicted, or still holds the key. */
  ghost predicate Counted(l: Limits, s: System) {
    && |s.table| <= MaxInt(0, l.capacity)
    && s.executed == s.released + s.purged + s.evicted + multiset(s.table.Keys)
  }

  ghost predicate Records(s: System) {
    forall k :: k in s.table ==> Genuine(s, k, s.table[k])
  }

  ghost predicate Tokens(s: System) {
    && (forall o: nat :: o in s.executing ==>
          o in s.admitted && s.admitted[o] == s.executing[o] && o !in s.answers)
    && (forall o: nat :: o in s.admitted ==> s.admitted[o].owner == o)
    && (forall o: nat :: o in s.answers ==> o in s.admitted)
  }

  ghost predicate Inv(l: Limits, s: System) {
    Counted(l, s) && Records(s) && Tokens(s)
  }

  lemma SplitKeys(a: set<string>, b: set<string>)
    requires b <= a
    ensures multiset(a) == multiset(a - b) + multiset(b)
  {
    assert (a - b) + b == a;
  }

  lemma PurgedKeys(t: Table, now: real)
    ensures Purged(t, now).Keys <= t.Keys && |Purged(t, now)| <= |t|
    ensures multiset(t.Keys) == multiset(t.Keys - Purged(t, now).Keys) + multiset(Purged(t, now).Keys)
  {
    var live := Purged(t, now);
    SplitKeys(t.Keys, live.Keys);
    assert |t.Keys| == |t| && |live.Keys| == |live|;
    Smaller(live.Keys, t.Keys);
  }

  lemma Smaller(a: set<string>, b: set<string>)
    requires a <= b
    ensures |a| <= |b|
  {
    assert b == a + (b - a);
    assert |b| == |a| + |b - a|;
  }

  lemma AddKey(a: set<string>, k: string)
    requires k !in a
    ensures multiset(a + {k}) == multiset(a) + multiset{k} && |a + {k}| == |a| + 1
  {
  }

  /** Reserving: the key enters, the victim, if one was needed, leaves. */
  lemma ReservedKeys(t: Table, cap: int, c: Context, now: real, victim: string)
    requires ReserveAnswer(t, cap, c, now).Reserved?
    requires NeedsRoom(Purged(t, now), cap, c.key) ==> Oldest(Purged(t, now), victim)
    ensures var live, r := Purged(t, now), ReserveTable(t, cap, c, now, victim);
            && (|live| <= MaxInt(0, cap) ==> |r| <= MaxInt(0, cap))
            && multiset(live.Keys) + multiset{c.key} == multiset(r.Keys) + Out(live, cap, c.key, victim)
  {
    var live, r := Purged(t, now), ReserveTable(t, cap, c, now, victim);
    var kept := if NeedsRoom(live, cap, c.key) then live - {victim} else live;
    assert r.Keys == kept.Keys + {c.key};
    AddKey(kept.Keys, c.key);
    assert |r| == |r.Keys| && |kept| == |kept.Keys|;
    if NeedsRoom(live, cap, c.key) {
      assert live.Keys == kept.Keys + {victim};
      AddKey(kept.Keys, victim);
      assert |live| == |live.Keys|;
    }
  }

  /** Multiset bookkeeping of an arrival: a is purged, b enters, v is evicted. */
  lemma Balance(was: multiset<string>, live: multiset<string>, now: multiset<string>,
                a: multiset<string>, b: multiset<string>, v: multiset<string>,
                executed: multiset<string>, removed: multiset<string>)
    requires was == a + live && live + b == now + v && executed == removed + was
    ensures executed + b == removed + a + v + now
  {
    forall k ensures (executed + b)[k] == (removed + a + v + now)[k] {
      assert was[k] == (a + live)[k] && (live + b)[k] == (now + v)[k] && executed[k] == (removed + was)[k];
    }
  }

  lemma ReservedCounts(l: Limits, s: System, c: Context, now: real, victim: string)
    requires Counted(l, s) && Enabled(l, s, Arrive(c, now, victim))
    requires ReserveAnswer(s.table, l.capacity, c, now).Reserved?
    ensures Counted(l, Arrived(l, s, c, now, victim))
  {
    var t, live, r := s.table, Purged(s.table, now), Arrived(l, s, c, now, victim);
    var gone, out := multiset(t.Keys - live.Keys), Out(live, l.capacity, c.key, victim);
    var removed := s.released + s.purged + s.evicted;
    PurgedKeys(t, now);
    ReservedKeys(t, l.capacity, c, now, victim);
    Balance(multiset(t.Keys), multiset(live.Keys), multiset(r.table.Keys), gone, multiset{c.key}, out,
            s.executed, removed);
    assert r.released + r.purged + r.evicted == removed + gone + out;
  }

  lemma ArrivedCounts(l: Limits, s: System, c: Context, now: real, victim: string)
    requires Counted(l, s) && Enabled(l, s, Arrive(c, now, victim))
    ensures Counted(l, Arrived(l, s, c, now, victim))
  {
    if ReserveAnswer(s.table, l.capacity, c, now).Reserved? {
      ReservedCounts(l, s, c, now, victim);
    } else {
      PurgedKeys(s.table, now);
    }
  }

  /** What an arrival can make of one key. */
  lemma ArrivedAt(l: Limits, s: System, c: Context, now: real, victim: string, k: string)
    ensures var r := ReserveTable(s.table, l.capacity, c, now, victim);
            k in r ==> (k in s.table && r[k] == s.table[k] && r[k].expiresAt > now)
                       || (r[k] == Pending(c) && k == c.key && ReserveAnswer(s.table, l.capacity, c, now).Reserved?)
  {
  }

  lemma ArrivedRecords(l: Limits, s: System, c: Context, now: real, victim: string)
    requires Records(s) && Tokens(s) && Enabled(l, s, Arrive(c, now, victim))
    ensures Records(Arrived(l, s, c, now, victim))
  {
    var r := Arrived(l, s, c, now, victim);
    forall k | k in r.table ensures Genuine(r, k, r.table[k]) {
      ArrivedAt(l, s, c, now, victim, k);
      if k in s.table && r.table[k] == s.table[k] {
        assert Genuine(s, k, s.table[k]);
      }
    }
  }

  lemma FinishedCounts(l: Limits, s: System, owner: nat, reply: Reply)
    requires Counted(l, s) && owner in s.executing
    ensures Counted(l, Finished(l, s, owner, reply))
  {
    var c, r := s.executing[owner], Finished(l, s, owner, reply);
    if Gone(l, s, c, reply) == multiset{} {
      assert r.released == s.released;
      StoredKeys(l, s.table, c, reply);
    } else {
      ReleasedKeys(s.table, c);
      var removed := s.released + s.purged + s.evicted;
      Balance(multiset(s.table.Keys), multiset(s.table.Keys), multiset(r.table.Keys), multiset{}, multiset{},
              multiset{c.key}, s.executed, removed);
      assert r.released + r.purged + r.evicted == removed + multiset{c.key};
    }
  }

  lemma StoredKeys(l: Limits, t: Table, c: Context, reply: Reply)
    requires Storable(reply, l.maxBytes) || !Owns(t, c)
    ensures FinishTable(t, c, reply, l.maxBytes).Keys == t.Keys && |FinishTable(t, c, reply, l.maxBytes)| == |t|
  {
    var r := FinishTable(t, c, reply, l.maxBytes);
    assert r.Keys == t.Keys;
    assert |r| == |r.Keys| && |t| == |t.Keys|;
  }

  lemma ReleasedKeys(t: Table, c: Context)
    requires Owns(t, c)
    ensures multiset(t.Keys) == multiset(ReleaseTable(t, c).Keys) + multiset{c.key} && |ReleaseTable(t, c)| < |t|
  {
    var r := ReleaseTable(t, c);
    assert t.Keys == r.Keys + {c.key};
    AddKey(r.Keys, c.key);
    assert |r| == |r.Keys| && |t| == |t.Keys|;
  }

  /** What a finish can make of one key. */
  lemma FinishedAt(l: Limits, s: System, owner: nat, reply: Reply, k: string)
    requires Records(s) && Tokens(s) && owner in s.executing
    ensures var c, r := s.executing[owner], FinishTable(s.table, s.executing[owner], reply, l.maxBytes);
            && (Lookup(r, k) != Lookup(s.table, k) ==>
                  k == c.key && k in s.table && s.table[k].owner == owner && !s.table[k].completed)
            && (k in r ==> Lookup(r, k) == Lookup(s.table, k) || (k == c.key && r[k] == StoredRecord(c, reply)))
  {
    var c := s.executing[owner];
    if Owns(s.table, c) {
      assert Genuine(s, c.key, s.table[c.key]);
    }
  }

  lemma FinishedRecords(l: Limits, s: System, owner: nat, reply: Reply)
    requires Records(s) && Tokens(s) && owner in s.executing
    ensures Records(Finished(l, s, owner, reply))
  {
    var r := Finished(l, s, owner, reply);
    forall k | k in r.table ensures Genuine(r, k, r.table[k]) {
      FinishedAt(l, s, owner, reply, k);
      if Lookup(r.table, k) == Lookup(s.table, k) {
        assert Genuine(s, k, s.table[k]);
      }
    }
  }

  lemma StepTokens(l: Limits, s: System, ev: Event)
    requires Tokens(s) && Enabled(l, s, ev)
    ensures Tokens(Step(l, s, ev))
  {
  }

  lemma StepKeeps(l: Limits, s: System, ev: Event)
    requires Inv(l, s)
    ensures Inv(l, Step(l, s, ev))
  {
    if Enabled(l, s, ev) {
      StepTokens(l, s, ev);
      match ev
      case Arrive(c, now, victim) =>
        ArrivedCounts(l, s, c, now, victim);
        ArrivedRecords(l, s, c, now, victim);
      case Finish(owner, reply) =>
        FinishedCounts(l, s, owner, reply);
        FinishedRecords(l, s, owner, reply);
    }
  }

  lemma {:induction false} RunKeeps(l: Limits, events: seq<Event>)
    ensures Inv(l, Run(l, events))
  {
    if events != [] {
      RunKeeps(l, events[..|events| - 1]);
      StepKeeps(l, Run(l, events[..|events| - 1]), events[|events| - 1]);
    }
  }

  // ----- theorems -----

  /** A key was executed as often as it was released, purged at expiry or evicted, plus once if it is held now. */
  lemma ExecutionsAreAccounted(l: Limits, events: seq<Event>, key: string)
    ensures var s := Run(l, events);
            s.executed[key] == s.released[key] + s.purged[key] + s.evicted[key] + if key in s.table then 1 else 0
  {
    RunKeeps(l, events);
    var s := Run(l, events);
    assert key in s.table.Keys <==> key in s.table;
  }

  /** Within its window, and with room in the table, a key whose request never failed is executed at most once. */
  lemma AtMostOnce(l: Limits, events: seq<Event>, key: string)
    requires var s := Run(l, events); s.released[key] == 0 && s.purged[key] == 0 && s.evicted[key] == 0
    ensures Run(l, events).executed[key] <= 1
  {
    ExecutionsAreAccounted(l, events, key);
  }

  lemma BoundedTable(l: Limits, events: seq<Event>)
    ensures |Run(l, events).table| <= MaxInt(0, l.capacity)
  {
    RunKeeps(l, events);
  }

  /** Every replay returns the reply that an earlier request with this key and this content produced. */
  lemma ReplayIsGenuine(l: Limits, events: seq<Event>, c: Context, now: real)
    requires Decide(c, ReserveAnswer(Run(l, events).table, l.capacity, c, now)).Replay?
    ensures var s := Run(l, events);
            var r := Decide(c, ReserveAnswer(s.table, l.capacity, c, now)).record;
            && r.owner in s.admitted && s.admitted[r.owner].key == c.key && s.admitted[r.owner].hash == c.hash
            && r.owner in s.answers && r.reply == StoredRecord(s.admitted[r.owner], s.answers[r.owner]).reply
            && r.expiresAt > now
  {
    RunKeeps(l, events);
    var s := Run(l, events);
    assert Genuine(s, c.key, s.table[c.key]);
  }

  /** A request in progress keeps its key through every other arrival exactly until it expires. */
  lemma NeverEvicted(l: Limits, s: System, ev: Event, k: string)
    requires Inv(l, s) && Enabled(l, s, ev) && ev.Arrive? && k in s.table && !s.table[k].completed
    ensures Lookup(Step(l, s, ev).table, k) == Some(s.table[k]) <==> s.table[k].expiresAt > ev.now
  {
    ArrivedAt(l, s, ev.c, ev.now, ev.victim, k);
    assert Genuine(s, k, s.table[k]);
    assert k in Purged(s.table, ev.now) <==> s.table[k].expiresAt > ev.now;
  }

  /** Finishing touches at most one record: this request's own, still in progress. */
  lemma FinishTouchesOwn(l: Limits, s: System, owner: nat, reply: Reply, k: string)
    requires Inv(l, s) && owner in s.executing
    ensures Lookup(Step(l, s, Finish(owner, reply)).table, k) != Lookup(s.table, k) ==>
              k in s.table && s.table[k].owner == owner && !s.table[k].completed
  {
    FinishedAt(l, s, owner, reply, k);
  }

  /** A stored reply is final: it stays until it expires or is evicted, and no later reply replaces it. */
  lemma RepliesAreFinal(l: Limits, s: System, ev: Event, k: string)
    requires Inv(l, s) && k in s.table && s.table[k].completed
    ensures var r := Step(l, s, ev).table;
            Lookup(r, k) == Some(s.table[k])
            || (ev.Arrive? && (k !in r || (r[k] == Pending(ev.c) && s.table[k].expiresAt <= ev.now)))
  {
    if Enabled(l, s, ev) {
      match ev
      case Arrive(c, now, victim) => ArrivedAt(l, s, c, now, victim, k);
      case Finish(owner, reply) => FinishTouchesOwn(l, s, owner, reply, k);
    }
  }

  /** The request with this token no longer holds its key. */
  predicate Lost(s: System, owner: nat) {
    owner in s.admitted && !Owns(s.table, s.admitted[owner])
  }

  lemma LostStep(l: Limits, s: System, ev: Event, owner: nat)
    requires Inv(l, s) && Lost(s, owner)
    ensures Lost(Step(l, s, ev), owner)
  {
    if Enabled(l, s, ev) {
      var k := s.admitted[owner].key;
      match ev
      case Arrive(c, now, victim) =>
        ArrivedAt(l, s, c, now, victim, k);
      case Finish(o, reply) =>
        FinishedAt(l, s, o, reply, k);
    }
  }

  /** An owner that lost its record never gets it back, so it can never overwrite a later owner's. */
  lemma {:induction false} LostForever(l: Limits, events: seq<Event>, later: seq<Event>, owner: nat)
    requires Lost(Run(l, events), owner)
    ensures Lost(Run(l, events + later), owner)
  {
    if later == [] {
      assert events + later == events;
    } else {
      var init := later[..|later| - 1];
      assert (events + later)[..|events + later| - 1] == events + init;
      LostForever(l, events, init, owner);
      RunKeeps(l, events + init);
      LostStep(l, Run(l, events + init), later[|later| - 1], owner);
    }
  }

  /** Hence its reply changes nothing. */
  lemma LateReplyIgnored(l: Limits, events: seq<Event>, later: seq<Event>, owner: nat, reply: Reply)
    requires Lost(Run(l, events), owner)
    ensures var s := Run(l, events + later); Step(l, s, Finish(owner, reply)).table == s.table
  {
    LostForever(l, events, later, owner);
    RunKeeps(l, events + later);
  }
}
