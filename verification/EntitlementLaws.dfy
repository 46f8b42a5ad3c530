/** What every operation on a project's entitlements keeps, and how reconciliation settles. */
module EntitlementLaws {
  import opened Common
  import opened Entitlements

  // ----- the invariant -----

  /** The status changes that exist. Revoked and Expired have no way out. */
  predicate Allowed(from: Status, to: Status) {
    match from
    case Pending => to in {Active, Superseded, Revoked, Expired}
    case Active => to in {Superseded, Revoked, Expired}
    case Superseded => to == Active
    case Revoked => false
    case Expired => false
  }

  /** A history is one connected path of allowed changes, in time order, ending in the stored status. */
  ghost predicate Chain(h: seq<Move>, status: Status, clock: real) {
    && h != []
    && h[0].from == None && h[0].to in {Pending, Active}
    && (forall k :: 0 < k < |h| ==> h[k].from == Some(h[k - 1].to) && Allowed(h[k - 1].to, h[k].to))
    && (forall k :: 0 < k < |h| ==> h[k - 1].at <= h[k].at)
    && h[|h| - 1].to == status && h[|h| - 1].at <= clock
  }

  ghost predicate Shape(entries: seq<Entitlement>) {
    && (forall i, j :: 0 <= i < j < |entries| ==> entries[i].id != entries[j].id)
    && (forall i :: 0 <= i < |entries| ==> entries[i].version == i + 1)
    && (forall i :: 0 <= i < |entries| && entries[i].rollbackTarget.Some? ==> HasEarlier(entries, i))
  }

  /** The rollback target is an older record of the same project. */
  ghost predicate HasEarlier(entries: seq<Entitlement>, i: nat)
    requires i < |entries|
  {
    exists j :: 0 <= j < i && Some(entries[j].id) == entries[i].rollbackTarget
  }

  ghost predicate Histories(entries: seq<Entitlement>, clock: real) {
    forall i :: 0 <= i < |entries| ==> Chain(entries[i].history, entries[i].status, clock)
  }

  ghost predicate Started(entries: seq<Entitlement>, clock: real) {
    forall i :: 0 <= i < |entries| && entries[i].status == Active ==> entries[i].startsAt <= clock
  }

  /** A record is active exactly when it is the current one, and what is named current exists. */
  ghost predicate Pointed(entries: seq<Entitlement>, current: Option<string>) {
    && (forall i :: 0 <= i < |entries| ==> (entries[i].status == Active <==> current == Some(entries[i].id)))
    && (current.Some? ==> Find(entries, current).Some?)
  }

  ghost predicate Inv(b: Book, clock: real) {
    && (b.profile.None? ==> b.entries == [])
    && Shape(b.entries) && Histories(b.entries, clock) && Started(b.entries, clock)
    && (b.profile.Some? ==> Pointed(b.entries, b.profile.value.current))
  }

  /** Same terms, and a history that only grew. */
  ghost predicate Grown(e: Entitlement, f: Entitlement) {
    && f == e.(status := f.status, history := f.history, recordVersion := f.recordVersion, approvedBy := f.approvedBy)
    && e.history <= f.history
  }

  ghost predicate Evolved(a: seq<Entitlement>, b: seq<Entitlement>) {
    |a| <= |b| && forall i :: 0 <= i < |a| ==> Grown(a[i], b[i])
  }

  lemma EvolvedTransitive(a: seq<Entitlement>, b: seq<Entitlement>, c: seq<Entitlement>)
    requires Evolved(a, b) && Evolved(b, c)
    ensures Evolved(a, c)
  {
    forall i | 0 <= i < |a| ensures Grown(a[i], c[i]) {
      assert Grown(a[i], b[i]) && Grown(b[i], c[i]);
    }
  }

  /** Revoked and expired records never change status again. */
  lemma Absorbing(a: seq<Entitlement>, b: seq<Entitlement>, clock: real, later: real, i: nat)
    requires Histories(a, clock) && Histories(b, later) && Evolved(a, b) && i < |a|
    requires a[i].status in {Revoked, Expired}
    ensures b[i].status == a[i].status && b[i].history == a[i].history
  {
    var h, g := a[i].history, b[i].history;
    assert Grown(a[i], b[i]);
    assert Chain(h, a[i].status, clock) && Chain(g, b[i].status, later);
    assert g[|h| - 1] == h[|h| - 1];
    assert |g| > |h| ==> Allowed(g[|h| - 1].to, g[|h|].to);
  }

  // ----- one record, one change -----

  /** f is e, or e after one allowed change made now. */
  ghost predicate Changes(e: Entitlement, f: Entitlement, now: real) {
    || f == e
    || (&& Allowed(e.status, f.status)
        && f == e.(status := f.status, history := f.history)
        && |f.history| == |e.history| + 1 && f.history[..|e.history|] == e.history
        && var m := f.history[|e.history|]; m.from == Some(e.status) && m.to == f.status && m.at == now)
  }

  lemma MovedChanges(e: Entitlement, next: Status, now: real, actor: string, reason: string)
    requires e.status == next || Allowed(e.status, next)
    ensures Changes(e, Moved(e, next, now, actor, reason), now)
    ensures Moved(e, next, now, actor, reason).status == next
  {
  }

  ghost predicate AllChange(a: seq<Entitlement>, b: seq<Entitlement>, now: real) {
    |a| == |b| && forall i :: 0 <= i < |a| ==> Changes(a[i], b[i], now)
  }

  lemma ChangesKeep(a: seq<Entitlement>, b: seq<Entitlement>, clock: real, now: real)
    requires AllChange(a, b, now) && Shape(a) && Histories(a, clock) && clock <= now
    ensures Shape(b) && Histories(b, now) && Evolved(a, b)
  {
    forall i | 0 <= i < |b| ensures Chain(b[i].history, b[i].status, now) && Grown(a[i], b[i]) {
      assert Chain(a[i].history, a[i].status, clock) && Changes(a[i], b[i], now);
    }
    forall i | 0 <= i < |b| && b[i].rollbackTarget.Some? ensures HasEarlier(b, i) {
      assert Changes(a[i], b[i], now) && HasEarlier(a, i);
      var j :| 0 <= j < i && Some(a[j].id) == a[i].rollbackTarget;
      assert Changes(a[j], b[j], now);
    }
    forall i | 0 <= i < |b| ensures b[i].id == a[i].id && b[i].version == a[i].version {
      assert Changes(a[i], b[i], now);
    }
  }

  lemma ShapeAfter(a: seq<Entitlement>, b: seq<Entitlement>, now: real)
    requires AllChange(a, b, now) && Shape(a)
    ensures Shape(b)
  {
    forall i | 0 <= i < |b| ensures b[i].id == a[i].id && b[i].version == a[i].version
                                 && b[i].rollbackTarget == a[i].rollbackTarget {
      assert Changes(a[i], b[i], now);
    }
    forall i | 0 <= i < |b| && b[i].rollbackTarget.Some? ensures HasEarlier(b, i) {
      assert HasEarlier(a, i);
      var j :| 0 <= j < i && Some(a[j].id) == a[i].rollbackTarget;
      assert b[j].id == a[j].id;
    }
  }

  lemma FindOnly(entries: seq<Entitlement>, i: nat)
    requires Shape(entries) && i < |entries|
    ensures Find(entries, Some(entries[i].id)) == Some(i)
  {
  }

  // ----- restoring a rollback target -----

  /** With nothing active, restoring makes the target active and current, or leaves nothing current. */
  lemma RestoredKeeps(b: Book, from: Entitlement, now: real, actor: string, reason: string)
    requires b.profile.Some? && Shape(b.entries)
    requires forall i :: 0 <= i < |b.entries| ==> b.entries[i].status != Active
    ensures var r := Restored(b, from, now, actor, reason);
            && AllChange(b.entries, r.entries, now)
            && Pointed(r.entries, r.profile.value.current)
            && (forall i :: 0 <= i < |r.entries| && r.entries[i].status == Active ==>
                  r.entries[i].startsAt <= now && !Lapsed(r.entries[i], now) && b.entries[i].status == Superseded)
            && (forall i :: 0 <= i < |r.entries| && r.entries[i].status == Expired ==> b.entries[i].status == Expired)
            && (forall i :: 0 <= i < |r.entries| ==>
                  (r.entries[i].status == Pending <==> b.entries[i].status == Pending))
  {
    var r := Restored(b, from, now, actor, reason);
    var j := Find(b.entries, from.rollbackTarget);
    if !(from.rollbackTarget.None? || j.None? || !Usable(b.entries[j.value], now)) {
      MovedChanges(b.entries[j.value], Active, now, actor, reason);
      assert r.entries[j.value].id == b.entries[j.value].id;
      assert forall i :: 0 <= i < |b.entries| && i != j.value ==> b.entries[i].id != b.entries[j.value].id;
      assert Find(r.entries, Some(r.entries[j.value].id)).Some?;
    }
  }

  // ----- reconciliation -----

  function EndedNow(b: Book, now: real): Book
    requires CurrentOver(b, now)
  {
    var i := Find(b.entries, b.profile.value.current).value;
    var e := b.entries[i];
    var reason := if TemporaryOver(e, now) then "temporary entitlement ended" else "entitlement validity ended";
    b.(entries := b.entries[i := Moved(e, Expired, now, SCHEDULER, reason)])
  }

  /** The first half of an expiry: the current record ends, nothing is active. */
  lemma EndedFacts(b: Book, now: real)
    requires CurrentOver(b, now) && Pointed(b.entries, b.profile.value.current) && Shape(b.entries)
    ensures var i, r := Find(b.entries, b.profile.value.current).value, EndedNow(b, now);
            && AllChange(b.entries, r.entries, now)
            && (forall k :: 0 <= k < |r.entries| ==> r.entries[k].status != Active)
            && (forall k :: 0 <= k < |r.entries| && k != i ==> r.entries[k] == b.entries[k])
            && r.entries[i].status == Expired && b.entries[i].status == Active
  {
    var i := Find(b.entries, b.profile.value.current).value;
    forall k | 0 <= k < |b.entries| && k != i ensures b.entries[k].status != Active {
      assert b.entries[k].id != b.entries[i].id;
    }
  }

  lemma CurrentExpiredFacts(b: Book, now: real)
    requires CurrentOver(b, now) && Pointed(b.entries, b.profile.value.current) && Shape(b.entries)
    requires Shape(EndedNow(b, now).entries)
    ensures var mid, r := EndedNow(b, now), CurrentExpired(b, now);
            && AllChange(mid.entries, r.entries, now)
            && r.profile.Some? && Pointed(r.entries, r.profile.value.current)
            && (forall i :: 0 <= i < |r.entries| && r.entries[i].status == Active ==>
                  r.entries[i].startsAt <= now && !Lapsed(r.entries[i], now))
            && (forall i :: 0 <= i < |r.entries| ==>
                  (r.entries[i].status == Pending <==> b.entries[i].status == Pending))
            && ExpiredCount(r.entries) == ExpiredCount(b.entries) + 1
  {
    var i := Find(b.entries, b.profile.value.current).value;
    var mid, r := EndedNow(b, now), CurrentExpired(b, now);
    EndedFacts(b, now);
    RestoredKeeps(mid, mid.entries[i], now, SCHEDULER, "automatic rollback after entitlement expiry");
    ExpiredOneMore(b.entries, mid.entries, i);
    forall k | 0 <= k < |r.entries| ensures r.entries[k].status == Expired <==> mid.entries[k].status == Expired {
      assert Changes(mid.entries[k], r.entries[k], now);
    }
    ExpiredSame(mid.entries, r.entries);
  }

  lemma CurrentExpiredKeeps(b: Book, clock: real, now: real)
    requires Inv(b, clock) && clock <= now && CurrentOver(b, now)
    ensures Inv(CurrentExpired(b, now), now) && Evolved(b.entries, CurrentExpired(b, now).entries)
    ensures var r := CurrentExpired(b, now).entries;
            forall i :: 0 <= i < |r| && r[i].status == Active ==> !Lapsed(r[i], now)
  {
    var mid, r := EndedNow(b, now), CurrentExpired(b, now);
    EndedFacts(b, now);
    ChangesKeep(b.entries, mid.entries, clock, now);
    CurrentExpiredFacts(b, now);
    ChangesKeep(mid.entries, r.entries, now, now);
    EvolvedTransitive(b.entries, mid.entries, r.entries);
  }

  function ExpiredCount(entries: seq<Entitlement>): nat {
    if entries == [] then 0
    else ExpiredCount(entries[..|entries| - 1]) + if entries[|entries| - 1].status == Expired then 1 else 0
  }

  lemma {:induction false} ExpiredSame(a: seq<Entitlement>, b: seq<Entitlement>)
    requires |a| == |b| && forall i :: 0 <= i < |a| ==> (a[i].status == Expired <==> b[i].status == Expired)
    ensures ExpiredCount(a) == ExpiredCount(b)
  {
    if a != [] {
      ExpiredSame(a[..|a| - 1], b[..|b| - 1]);
    }
  }

  lemma {:induction false} ExpiredOneMore(a: seq<Entitlement>, b: seq<Entitlement>, k: nat)
    requires |a| == |b| && k < |a| && a[k].status != Expired && b[k].status == Expired
    requires forall i :: 0 <= i < |a| && i != k ==> (a[i].status == Expired <==> b[i].status == Expired)
    ensures ExpiredCount(b) == ExpiredCount(a) + 1
  {
    var n := |a| - 1;
    if k == n {
      ExpiredSame(a[..n], b[..n]);
    } else {
      ExpiredOneMore(a[..n], b[..n], k);
    }
  }

  lemma {:induction false} ExpiredBound(entries: seq<Entitlement>)
    ensures ExpiredCount(entries) <= |entries|
  {
    if entries != [] {
      ExpiredBound(entries[..|entries| - 1]);
    }
  }

  lemma MissedFacts(entries: seq<Entitlement>, now: real)
    ensures AllChange(entries, MissedAll(entries, now), now)
    ensures forall i :: 0 <= i < |entries| ==>
              && MissedAll(entries, now)[i].id == entries[i].id
              && (MissedAll(entries, now)[i].status == Active <==> entries[i].status == Active)
              && (entries[i].status == Active ==> MissedAll(entries, now)[i] == entries[i])
              && (Reached(MissedAll(entries, now)[i], now) <==> Due(entries[i], now))
              && (Due(MissedAll(entries, now)[i], now) <==> Due(entries[i], now))
  {
  }

  lemma SamePointer(a: seq<Entitlement>, b: seq<Entitlement>, current: Option<string>)
    requires |a| == |b| && Pointed(a, current)
    requires forall i :: 0 <= i < |a| ==> a[i].id == b[i].id && (a[i].status == Active <==> b[i].status == Active)
    ensures Pointed(b, current)
  {
    SameFind(a, b, current);
  }

  lemma {:induction false} SameFind(a: seq<Entitlement>, b: seq<Entitlement>, id: Option<string>)
    requires |a| == |b| && forall i :: 0 <= i < |a| ==> a[i].id == b[i].id
    ensures Find(a, id) == Find(b, id)
  {
    if a != [] {
      SameFind(a[..|a| - 1], b[..|b| - 1], id);
    }
  }

  lemma MissedKeeps(b: Book, clock: real, now: real)
    requires Inv(b, clock) && clock <= now
    ensures Inv(b.(entries := MissedAll(b.entries, now)), now) && Evolved(b.entries, MissedAll(b.entries, now))
  {
    var entries := MissedAll(b.entries, now);
    MissedFacts(b.entries, now);
    ChangesKeep(b.entries, entries, clock, now);
    if b.profile.Some? {
      SamePointer(b.entries, entries, b.profile.value.current);
    }
    forall i | 0 <= i < |entries| && entries[i].status == Active ensures entries[i].startsAt <= now {
      assert b.entries[i].status == Active && entries[i] == b.entries[i];
    }
  }

  /** Only the incumbent was active, and it makes way: afterwards exactly the winner is active. */
  lemma SettledFacts(entries: seq<Entitlement>, c: Option<nat>, w: nat, now: real)
    requires w < |entries| && Due(entries[w], now)
    requires forall i :: 0 <= i < |entries| && entries[i].status == Active ==> c == Some(i)
    ensures var r := SettledAll(entries, c, w, now);
            && AllChange(entries, r, now)
            && (forall i :: 0 <= i < |r| ==> r[i].id == entries[i].id && (r[i].status == Active <==> i == w))
            && (forall i :: 0 <= i < |r| ==>
                  (Reached(r[i], now) <==> Reached(entries[i], now) && !Due(entries[i], now)))
            && r[w].startsAt <= now && !Lapsed(r[w], now)
  {
  }

  lemma SettledKeeps(b: Book, clock: real, now: real, w: nat)
    requires Inv(b, clock) && clock <= now && b.profile.Some? && w < |b.entries| && Due(b.entries[w], now)
    ensures var entries := SettledAll(b.entries, Find(b.entries, b.profile.value.current), w, now);
            && Shape(entries) && Histories(entries, now) && Started(entries, now) && Evolved(b.entries, entries)
            && Pointed(entries, Some(b.entries[w].id))
  {
    var c := Find(b.entries, b.profile.value.current);
    var entries := SettledAll(b.entries, c, w, now);
    forall i | 0 <= i < |b.entries| && b.entries[i].status == Active ensures c == Some(i) {
      FindOnly(b.entries, i);
    }
    SettledFacts(b.entries, c, w, now);
    ChangesKeep(b.entries, entries, clock, now);
    FindOnly(entries, w);
  }

  lemma DueSettledKeeps(b: Book, clock: real, now: real)
    requires Inv(b, clock) && clock <= now && b.profile.Some?
    ensures Inv(DueSettled(b, now), now) && Evolved(b.entries, DueSettled(b, now).entries)
  {
    MissedKeeps(b, clock, now);
    var entries := MissedAll(b.entries, now);
    var w := Winner(entries, now);
    if w.Some? {
      SettledKeeps(b.(entries := entries), now, now, w.value);
      EvolvedTransitive(b.entries, entries, DueSettled(b, now).entries);
    }
  }

  /** After settling, nothing scheduled is left behind; the only record active is the winner, or who
      was active before. */
  lemma DueSettledFacts(b: Book, now: real)
    requires b.profile.Some? && Shape(b.entries) && Pointed(b.entries, b.profile.value.current)
    ensures var r, w := DueSettled(b, now), Winner(MissedAll(b.entries, now), now);
            && r.profile.Some? && |r.entries| == |b.entries|
            && (forall i :: 0 <= i < |r.entries| ==> !Reached(r.entries[i], now))
            && (w.None? ==> r.profile == b.profile)
            && (forall i :: 0 <= i < |r.entries| && r.entries[i].status == Active ==>
                  if w.None? then r.entries[i] == b.entries[i] else i == w.value && !Lapsed(r.entries[i], now))
  {
    var entries := MissedAll(b.entries, now);
    MissedFacts(b.entries, now);
    var w := Winner(entries, now);
    if w.Some? {
      var c := Find(entries, b.profile.value.current);
      SameFind(b.entries, entries, b.profile.value.current);
      forall i | 0 <= i < |entries| && entries[i].status == Active ensures c == Some(i) {
        FindOnly(b.entries, i);
      }
      SettledFacts(entries, c, w.value, now);
    }
  }

  /** The book after the first half of a pass. */
  function Expiring(b: Book, now: real): Book {
    if CurrentOver(b, now) then CurrentExpired(b, now) else b
  }

  lemma ExpiringKeeps(b: Book, clock: real, now: real)
    requires Inv(b, clock) && clock <= now && b.profile.Some?
    ensures Inv(Expiring(b, now), now) && Evolved(b.entries, Expiring(b, now).entries)
    ensures Expiring(b, now).profile.Some? && |Expiring(b, now).entries| == |b.entries|
    ensures forall i :: 0 <= i < |b.entries| && Expiring(b, now).entries[i].status == Active ==>
              !Lapsed(Expiring(b, now).entries[i], now)
  {
    if CurrentOver(b, now) {
      CurrentExpiredKeeps(b, clock, now);
    } else {
      EvolvedReflexive(b.entries);
      HistoriesLater(b.entries, clock, now);
      forall i | 0 <= i < |b.entries| && b.entries[i].status == Active ensures !Lapsed(b.entries[i], now) {
        FindOnly(b.entries, i);
      }
    }
  }

  /** Once nothing lapsed is active, settling what is due leaves nothing reached and nothing lapsed. */
  lemma PassSettles(b: Book, now: real)
    requires b.profile.Some? && Shape(b.entries) && Pointed(b.entries, b.profile.value.current)
    requires forall i :: 0 <= i < |b.entries| && b.entries[i].status == Active ==> !Lapsed(b.entries[i], now)
    ensures var r := DueSettled(b, now);
            && |r.entries| == |b.entries|
            && (forall i :: 0 <= i < |r.entries| ==> !Reached(r.entries[i], now))
            && (forall i :: 0 <= i < |r.entries| && r.entries[i].status == Active ==> !Lapsed(r.entries[i], now))
  {
    DueSettledFacts(b, now);
  }

  /** One pass keeps the invariant. Afterwards nothing scheduled is left behind, and the current
      entitlement, if any, is in force or in grace. */
  lemma ReconciledKeeps(b: Book, clock: real, now: real)
    requires Inv(b, clock) && clock <= now
    ensures Inv(Reconciled(b, now), now) && Evolved(b.entries, Reconciled(b, now).entries)
    ensures |Reconciled(b, now).entries| == |b.entries|
    ensures b.profile.Some? ==>
      forall i :: 0 <= i < |b.entries| ==> !Reached(Reconciled(b, now).entries[i], now)
    ensures forall i :: 0 <= i < |b.entries| && Reconciled(b, now).entries[i].status == Active ==>
      RuntimeStatus(Reconciled(b, now).entries[i], now) in {InForce, InGrace}
  {
    if b.profile.Some? {
      var mid := Expiring(b, now);
      ExpiringKeeps(b, clock, now);
      DueSettledKeeps(mid, now, now);
      PassSettles(mid, now);
      EvolvedTransitive(b.entries, mid.entries, DueSettled(mid, now).entries);
    } else {
      EvolvedReflexive(b.entries);
      HistoriesLater(b.entries, clock, now);
    }
  }

  lemma EvolvedReflexive(a: seq<Entitlement>)
    ensures Evolved(a, a)
  {
  }

  lemma HistoriesLater(entries: seq<Entitlement>, clock: real, now: real)
    requires Histories(entries, clock) && Started(entries, clock) && clock <= now
    ensures Histories(entries, now) && Started(entries, now)
  {
    forall i | 0 <= i < |entries| ensures Chain(entries[i].history, entries[i].status, now) {
      assert Chain(entries[i].history, entries[i].status, clock);
    }
  }
}
