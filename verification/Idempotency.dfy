/** Idempotent writes: a bounded in-memory table of reservations and stored replies, shared by all requests. */
module Idempotency {
  import opened Common

  datatype Reply = Reply(status: int, headers: map<string, string>, body: string)

  datatype Record = Record(hash: string, owner: nat, completed: bool, expiresAt: real, reply: Option<Reply>)

  /** One request: the storage key of its idempotency key, the hash of its content, its own random token. */
  datatype Context = Context(key: string, hash: string, owner: nat, expiresAt: real)

  type Table = map<string, Record>

  datatype Reservation = Reserved | Existing(record: Record) | Full

  datatype Decision = Proceed | KeyConflict | StillRunning | Replay(record: Record) | Unavailable

  const STORED_HEADERS := {"content-type", "etag", "location", "retry-after"}

  // ----- what each operation does to the table -----

  function Purged(t: Table, now: real): Table {
    map k | k in t && t[k].expiresAt > now :: t[k]
  }

  predicate SomeCompleted(t: Table) {
    exists k :: k in t && t[k].completed
  }

  /** The entry that makes room: completed, and no completed entry expires sooner. */
  ghost predicate Oldest(t: Table, victim: string) {
    && victim in t && t[victim].completed
    && forall k :: k in t && t[k].completed ==> t[victim].expiresAt <= t[k].expiresAt
  }

  predicate NeedsRoom(t: Table, cap: int, key: string) {
    key !in t && |t| >= cap && SomeCompleted(t)
  }

  function Pending(c: Context): Record {
    Record(c.hash, c.owner, false, c.expiresAt, None)
  }

  /** What a reservation answers, and the table after it, when `victim` is the entry that makes room. */
  function ReserveAnswer(t: Table, cap: int, c: Context, now: real): Reservation {
    var live := Purged(t, now);
    if c.key in live then Existing(live[c.key])
    else if |live| >= cap && !SomeCompleted(live) then Full
    else Reserved
  }

  function ReserveTable(t: Table, cap: int, c: Context, now: real, victim: string): Table {
    var live := Purged(t, now);
    if !ReserveAnswer(t, cap, c, now).Reserved? then live
    else (if NeedsRoom(live, cap, c.key) then live - {victim} else live)[c.key := Pending(c)]
  }

  predicate Owns(t: Table, c: Context) {
    c.key in t && t[c.key].owner == c.owner
  }

  predicate CanComplete(t: Table, c: Context) {
    Owns(t, c) && t[c.key].hash == c.hash
  }

  function CompleteTable(t: Table, c: Context, r: Record): Table {
    if CanComplete(t, c) then t[c.key := r] else t
  }

  function ReleaseTable(t: Table, c: Context): Table {
    if Owns(t, c) then t - {c.key} else t
  }

  function Decide(c: Context, answer: Reservation): Decision {
    match answer
    case Reserved => Proceed
    case Full => Unavailable
    case Existing(r) =>
      if r.hash != c.hash then KeyConflict
      else if !r.completed || r.reply.None? then StillRunning
      else Replay(r)
  }

  predicate Storable(reply: Reply, maxBytes: int) {
    reply.status < 500 && |reply.body| <= maxBytes
  }

  function StoredRecord(c: Context, reply: Reply): Record {
    var kept := map h | h in reply.headers && h in STORED_HEADERS :: reply.headers[h];
    Record(c.hash, c.owner, true, c.expiresAt, Some(reply.(headers := kept)))
  }

  function FinishTable(t: Table, c: Context, reply: Reply, maxBytes: int): Table {
    if Storable(reply, maxBytes) then CompleteTable(t, c, StoredRecord(c, reply)) else ReleaseTable(t, c)
  }

  // ----- the table, updated in place -----

  class IdempotencyStore {
    var records: Table
    const capacity: int
    const maxBytes: int

    constructor (capacity: int, maxBytes: int)
      ensures records == map[] && this.capacity == capacity && this.maxBytes == maxBytes
    {
      this.capacity, this.maxBytes, records := capacity, maxBytes, map[];
    }

    method PurgeExpired(now: real)
      modifies this
      ensures records == Purged(old(records), now)
    {
      ghost var before := records;
      var expired := set k | k in records && records[k].expiresAt <= now;
      while expired != {}
        invariant forall k :: k in expired ==> k in before && before[k].expiresAt <= now
        invariant records.Keys <= before.Keys
        invariant forall k :: k in before ==> (k in records <==> before[k].expiresAt > now || k in expired)
        invariant forall k :: k in records ==> records[k] == before[k]
        decreases |expired|
      {
        var k :| k in expired;
        records := records - {k};
        expired := expired - {k};
      }
      assert records == Purged(before, now);
    }

    /** The completed entry that expires first. */
    method FindOldest() returns (victim: Option<string>)
      ensures victim.Some? <==> SomeCompleted(records)
      ensures victim.Some? ==> Oldest(records, victim.value)
    {
      var completed := set k | k in records && records[k].completed;
      if completed == {} {
        assert forall k :: k in records && records[k].completed ==> k in completed;
        return None;
      }
      var best :| best in completed;
      var rest := completed - {best};
      while rest != {}
        invariant best in completed && rest <= completed
        invariant forall k :: k in completed && k !in rest ==> records[best].expiresAt <= records[k].expiresAt
        decreases |rest|
      {
        var k :| k in rest;
        if records[k].expiresAt < records[best].expiresAt {
          best := k;
        }
        rest := rest - {k};
      }
      assert forall k :: k in records && records[k].completed ==> k in completed;
      victim := Some(best);
    }

    method Reserve(c: Context, now: real) returns (answer: Reservation, ghost victim: string)
      modifies this
      ensures answer == ReserveAnswer(old(records), capacity, c, now)
      ensures records == ReserveTable(old(records), capacity, c, now, victim)
      ensures NeedsRoom(Purged(old(records), now), capacity, c.key) ==> Oldest(Purged(old(records), now), victim)
    {
      victim := "";
      PurgeExpired(now);
      if c.key in records {
        return Existing(records[c.key]), victim;
      }
      if |records| >= capacity {
        var oldest := FindOldest();
        if oldest.None? {
          return Full, victim;
        }
        victim := oldest.value;
        records := records - {oldest.value};
      }
      records := records[c.key := Pending(c)];
      answer := Reserved;
    }

    method Complete(c: Context, r: Record) returns (stored: bool)
      modifies this
      ensures stored == CanComplete(old(records), c) && records == CompleteTable(old(records), c, r)
    {
      if c.key !in records || records[c.key].owner != c.owner || records[c.key].hash != c.hash {
        return false;
      }
      records := records[c.key := r];
      stored := true;
    }

    method Release(c: Context)
      modifies this
      ensures records == ReleaseTable(old(records), c)
    {
      if c.key in records && records[c.key].owner == c.owner {
        records := records - {c.key};
      }
    }

    method RequireIdempotentWrite(c: Context, now: real) returns (decision: Decision, ghost victim: string)
      modifies this
      ensures decision == Decide(c, ReserveAnswer(old(records), capacity, c, now))
      ensures records == ReserveTable(old(records), capacity, c, now, victim)
      ensures NeedsRoom(Purged(old(records), now), capacity, c.key) ==> Oldest(Purged(old(records), now), victim)
    {
      var answer: Reservation;
      answer, victim := Reserve(c, now);
      if answer.Reserved? {
        return Proceed, victim;
      }
      if answer.Full? {
        return Unavailable, victim;
      }
      if answer.record.hash != c.hash {
        return KeyConflict, victim;
      }
      if !answer.record.completed || answer.record.reply.None? {
        return StillRunning, victim;
      }
      decision := Replay(answer.record);
    }

    /** A server error or an oversized reply gives the key back; anything else is stored, if the key is still ours. */
    method FinalizeResponse(c: Context, reply: Reply) returns (stored: bool)
      modifies this
      ensures records == FinishTable(old(records), c, reply, maxBytes)
      ensures stored == (Storable(reply, maxBytes) && CanComplete(old(records), c))
    {
      if reply.status >= 500 || |reply.body| > maxBytes {
        Release(c);
        return false;
      }
      stored := Complete(c, StoredRecord(c, reply));
    }
  }
}
