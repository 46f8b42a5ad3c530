/** How many passes reconciliation needs, and what every run of operations keeps. */
module EntitlementRuns {
  import opened Common
  import opened Entitlements
  import opened EntitlementLaws

  // ----- when a pass changes something -----

  /** Who takes over when the current record is over. */
  function HeirOfOver(b: Book, now: real): Option<nat>
    requires CurrentOver(b, now)
  {
    var target := b.entries[Find(b.entries, b.profile.value.current).value].rollbackTarget;
    var j := Find(b.entries, target);
    if target.Some? && j.Some? && Usable(b.entries[j.value], now) then j else None
  }

  /** The record a pass will leave current, read off the book before the pass. */
  function Heir(b: Book, now: real): Option<nat>
    requires b.profile.Some?
  {
    var w := Winner(b.entries, now);
    if w.Some? then w
    else if CurrentOver(b, now) then HeirOfOver(b, now)
    else Find(b.entries, b.profile.value.current)
  }

  lemma {:induction false} SameWinner(a: seq<Entitlement>, b: seq<Entitlement>, now: real)
    requires |a| == |b|
    requires forall i :: 0 <= i < |a| ==>
      a[i].startsAt == b[i].startsAt && a[i].version == b[i].version && (Due(a[i], now) <==> Due(b[i], now))
    ensures Winner(a, now) == Winner(b, now)
  {
    if a != [] {
      SameWinner(a[..|a| - 1], b[..|b| - 1], now);
    }
  }

  lemma SameTerms(a: seq<Entitlement>, b: seq<Entitlement>, now: real)
    requires AllChange(a, b, now)
    ensures forall i :: 0 <= i < |a| ==> b[i] == a[i].(status := b[i].status, history := b[i].history)
  {
    forall i | 0 <= i < |a| ensures b[i] == a[i].(status := b[i].status, history := b[i].history) {
      assert Changes(a[i], b[i], now);
    }
  }

  /** The end of the current record leaves the schedule alone. */
  lemma ExpiringFacts(b: Book, now: real)
    requires b.profile.Some? && Shape(b.entries) && Pointed(b.entries, b.profile.value.current)
    ensures var r := Expiring(b, now);
            && |r.entries| == |b.entries|
            && (forall i :: 0 <= i < |b.entries| ==>
                  && r.entries[i] == b.entries[i].(status := r.entries[i].status, history := r.entries[i].history)
                  && (r.entries[i].status == Pending <==> b.entries[i].status == Pending))
  {
    if CurrentOver(b, now) {
      var mid, r := EndedNow(b, now), CurrentExpired(b, now);
      EndedFacts(b, now);
      ShapeAfter(b.entries, mid.entries, now);
      CurrentExpiredFacts(b, now);
      SameTerms(b.entries, mid.entries, now);
      SameTerms(mid.entries, r.entries, now);
    }
  }

  ghost predicate Sane(b: Book) {
    b.profile.Some? && Shape(b.entries) && Pointed(b.entries, b.profile.value.current)
  }

  lemma HeirWins(b: Book, now: real)
    requires Sane(b)
    ensures Winner(MissedAll(Expiring(b, now).entries, now), now) == Winner(b.entries, now)
  {
    ExpiringFacts(b, now);
    var mid := Expiring(b, now).entries;
    MissedFacts(mid, now);
    SameWinner(mid, MissedAll(mid, now), now);
    SameWinner(b.entries, mid, now);
  }

  lemma SettledPointer(b: Book, now: real)
    requires b.profile.Some?
    ensures var w, r := Winner(MissedAll(b.entries, now), now), DueSettled(b, now);
            r.profile.Some? && r.profile.value.current ==
              if w.Some? then Some(b.entries[w.value].id) else b.profile.value.current
  {
    MissedFacts(b.entries, now);
  }

  lemma ExpiringPointer(b: Book, now: real)
    requires Sane(b)
    ensures var h := if CurrentOver(b, now) then HeirOfOver(b, now) else Find(b.entries, b.profile.value.current);
            Expiring(b, now).profile.Some? && Expiring(b, now).profile.value.current ==
              if h.Some? then Some(b.entries[h.value].id) else None
  {
    if CurrentOver(b, now) {
      TargetSurvives(b, now);
    }
  }

  /** The pass leaves the heir current. */
  lemma HeirIsCurrent(b: Book, now: real)
    requires Sane(b)
    ensures Reconciled(b, now).profile.Some?
    ensures Reconciled(b, now).profile.value.current ==
            if Heir(b, now).Some? then Some(b.entries[Heir(b, now).value].id) else None
  {
    HeirWins(b, now);
    ExpiringFacts(b, now);
    ExpiringPointer(b, now);
    SettledPointer(Expiring(b, now), now);
  }

  lemma TargetIsOlder(entries: seq<Entitlement>, i: nat)
    requires Shape(entries) && i < |entries| && entries[i].rollbackTarget.Some?
    ensures var j := Find(entries, entries[i].rollbackTarget); j.Some? && j.value < i
  {
    assert HasEarlier(entries, i);
    var j :| 0 <= j < i && Some(entries[j].id) == entries[i].rollbackTarget;
    FindOnly(entries, j);
  }

  /** The end of the current record does not change what its rollback target is. */
  lemma TargetSurvives(b: Book, now: real)
    requires Sane(b) && CurrentOver(b, now)
    ensures CurrentExpired(b, now).profile.Some?
    ensures CurrentExpired(b, now).profile.value.current ==
            if HeirOfOver(b, now).Some? then Some(b.entries[HeirOfOver(b, now).value].id) else None
  {
    var i := Find(b.entries, b.profile.value.current).value;
    var from := b.entries[i];
    SameFind(b.entries, EndedNow(b, now).entries, from.rollbackTarget);
    if from.rollbackTarget.Some? {
      TargetIsOlder(b.entries, i);
    }
  }

  /** A pass changes the book exactly when something was left to do. */
  lemma PassChanges(b: Book, clock: real, now: real)
    requires Inv(b, clock) && clock <= now
    ensures Reconciled(b, now) != b <==> Unsettled(b, now)
  {
    if b.profile.Some? {
      ReconciledKeeps(b, clock, now);
      if CurrentOver(b, now) {
        HeirIsCurrent(b, now);
        EndedStays(b, clock, now);
      } else if !Unsettled(b, now) {
        assert MissedAll(b.entries, now) == b.entries;
      }
    }
  }

  lemma EndedStays(b: Book, clock: real, now: real)
    requires Inv(b, clock) && clock <= now && CurrentOver(b, now)
    ensures var i := Find(b.entries, b.profile.value.current).value;
            Reconciled(b, now).entries[i].status == Expired && b.entries[i].status == Active
  {
    var i := Find(b.entries, b.profile.value.current).value;
    var mid, r := EndedNow(b, now), CurrentExpired(b, now);
    EndedFacts(b, now);
    ChangesKeep(b.entries, mid.entries, clock, now);
    CurrentExpiredFacts(b, now);
    assert Changes(mid.entries[i], r.entries[i], now);
    CurrentExpiredKeeps(b, clock, now);
    DueSettledKeeps(r, now, now);
    DueSettledFacts(r, now);
    Absorbing(r.entries, Reconciled(b, now).entries, now, now, i);
  }

  // ----- fixpoints -----

  lemma HeirInPlace(b: Book, clock: real, now: real)
    requires Inv(b, clock) && clock <= now && b.profile.Some?
    ensures var r, h := Reconciled(b, now), Heir(b, now);
            && r.profile.Some? && Find(r.entries, r.profile.value.current) == h
            && (h.Some? ==> r.entries[h.value].status == Active
                            && TemporaryOver(r.entries[h.value], now) == TemporaryOver(b.entries[h.value], now)
                            && !Lapsed(r.entries[h.value], now))
  {
    var r, h := Reconciled(b, now), Heir(b, now);
    ReconciledKeeps(b, clock, now);
    HeirIsCurrent(b, now);
    if h.Some? {
      assert Grown(b.entries[h.value], r.entries[h.value]);
      FindOnly(r.entries, h.value);
      assert r.entries[h.value].status == Active;
      assert RuntimeStatus(r.entries[h.value], now) in {InForce, InGrace};
    }
  }

  /** One pass is a fixpoint exactly when the record it makes current is not a temporary expansion
      already past its expiry. */
  lemma OnePassSettles(b: Book, clock: real, now: real)
    requires Inv(b, clock) && clock <= now && b.profile.Some?
    ensures Reconciled(Reconciled(b, now), now) == Reconciled(b, now) <==>
            !(Heir(b, now).Some? && TemporaryOver(b.entries[Heir(b, now).value], now))
  {
    ReconciledKeeps(b, clock, now);
    HeirInPlace(b, clock, now);
    PassChanges(Reconciled(b, now), now, now);
  }

  /** Without grace on temporary expansions one pass always settles. */
  lemma NoGraceSettles(b: Book, clock: real, now: real)
    requires Inv(b, clock) && clock <= now && b.profile.Some?
    requires forall i :: 0 <= i < |b.entries| && b.entries[i].changeType == "temporary_expansion" ==>
               b.entries[i].grace == 0
    ensures Reconciled(Reconciled(b, now), now) == Reconciled(b, now)
  {
    OnePassSettles(b, clock, now);
    HeirInPlace(b, clock, now);
    var h := Heir(b, now);
    if h.Some? {
      ReconciledKeeps(b, clock, now);
      assert Grown(b.entries[h.value], Reconciled(b, now).entries[h.value]);
    }
  }

  function Passes(b: Book, now: real, k: nat): Book {
    if k == 0 then b else Reconciled(Passes(b, now, k - 1), now)
  }

  lemma {:induction false} PassesKeep(b: Book, clock: real, now: real, k: nat)
    requires Inv(b, clock) && clock <= now
    ensures Inv(Passes(b, now, k), if k == 0 then clock else now) && |Passes(b, now, k).entries| == |b.entries|
    ensures b.profile.Some? <==> Passes(b, now, k).profile.Some?
    ensures b.profile.Some? && k > 0 ==>
      forall i :: 0 <= i < |b.entries| ==> !Reached(Passes(b, now, k).entries[i], now)
  {
    if k > 0 {
      PassesKeep(b, clock, now, k - 1);
      ReconciledKeeps(Passes(b, now, k - 1), if k == 1 then clock else now, now);
      ReconciledProfile(Passes(b, now, k - 1), now);
    }
  }

  lemma NothingDue(b: Book, now: real)
    requires b.profile.Some? && forall i :: 0 <= i < |b.entries| ==> !Reached(b.entries[i], now)
    ensures DueSettled(b, now) == b
  {
    assert MissedAll(b.entries, now) == b.entries;
  }

  lemma ExpiryCosts(b: Book, now: real)
    requires CurrentOver(b, now) && Shape(b.entries) && Pointed(b.entries, b.profile.value.current)
    ensures CurrentExpired(b, now).profile.Some?
    ensures ExpiredCount(CurrentExpired(b, now).entries) == ExpiredCount(b.entries) + 1
  {
    EndedFacts(b, now);
    ShapeAfter(b.entries, EndedNow(b, now).entries, now);
    CurrentExpiredFacts(b, now);
  }

  /** Once nothing is scheduled, a pass that changes something ends one more record for good. */
  lemma PassCosts(b: Book, now: real)
    requires Inv(b, now) && b.profile.Some? && forall i :: 0 <= i < |b.entries| ==> !Reached(b.entries[i], now)
    requires Reconciled(b, now) != b
    ensures ExpiredCount(Reconciled(b, now).entries) == ExpiredCount(b.entries) + 1
  {
    NothingDue(b, now);
    assert CurrentOver(b, now);
    ExpiryCosts(b, now);
    ExpiringFacts(b, now);
    NothingDue(CurrentExpired(b, now), now);
  }

  /** The expired records pay for the passes: after a changing pass number k + 1, k of them are expired. */
  ghost predicate Paid(b: Book, now: real, k: nat) {
    k <= |b.entries| && k <= ExpiredCount(Passes(b, now, k + 1).entries)
  }

  lemma ExpiredPasses(b: Book, now: real, k: nat)
    ensures ExpiredCount(Passes(b, now, k).entries) <= |b.entries|
  {
    PassesLength(b, now, k);
    ExpiredBound(Passes(b, now, k).entries);
  }

  lemma LaterPassCosts(b: Book, clock: real, now: real, k: nat)
    requires Inv(b, clock) && clock <= now && b.profile.Some? && k > 0
    requires Passes(b, now, k + 1) != Passes(b, now, k)
    ensures ExpiredCount(Passes(b, now, k + 1).entries) == ExpiredCount(Passes(b, now, k).entries) + 1
  {
    PassesKeep(b, clock, now, k);
    PassCosts(Passes(b, now, k), now);
  }

  lemma {:induction false} StillChanging(b: Book, clock: real, now: real, k: nat)
    requires Inv(b, clock) && clock <= now && b.profile.Some?
    requires Passes(b, now, k + 1) != Passes(b, now, k)
    ensures Paid(b, now, k)
  {
    if k > 0 {
      if Passes(b, now, k) != Passes(b, now, k - 1) {
        StillChanging(b, clock, now, k - 1);
      }
      LaterPassCosts(b, clock, now, k);
      ExpiredPasses(b, now, k + 1);
    }
  }

  lemma {:induction false} NoProfileNoPass(b: Book, now: real, k: nat)
    requires b.profile.None?
    ensures Passes(b, now, k) == b
  {
    if k > 0 {
      NoProfileNoPass(b, now, k - 1);
    }
  }

  /** At a fixed time, n records settle within n + 1 passes. */
  lemma PassesSettle(b: Book, clock: real, now: real, k: nat)
    requires Inv(b, clock) && clock <= now && k > |b.entries|
    ensures Passes(b, now, k + 1) == Passes(b, now, k)
  {
    if b.profile.None? {
      NoProfileNoPass(b, now, k + 1);
      NoProfileNoPass(b, now, k);
    } else if Passes(b, now, k + 1) != Passes(b, now, k) {
      StillChanging(b, clock, now, k);
    }
  }

  lemma {:induction false} PassesLength(b: Book, now: real, k: nat)
    ensures |Passes(b, now, k).entries| == |b.entries|
  {
    if k > 0 {
      PassesLength(b, now, k - 1);
      ReconciledProfile(Passes(b, now, k - 1), now);
    }
  }

  // ----- creating -----

  lemma InsertedFacts(b: Book, record: Entitlement, actor: string, now: real)
    requires b.profile.Some? && Shape(b.entries) && Pointed(b.entries, b.profile.value.current)
    requires record.status in {Pending, Active} && forall i :: 0 <= i < |b.entries| ==> b.entries[i].id != record.id
    ensures var r, n := Inserted(b, record, actor, now), |b.entries|;
            && |r.entries| == n + 1 && r.entries[n] == record && r.profile.Some?
            && AllChange(b.entries, r.entries[..n], now)
            && Pointed(r.entries, r.profile.value.current)
            && (forall i :: 0 <= i < n && r.entries[i].status == Active ==> r.entries[i] == b.entries[i])
            && (record.status == Active ==> r.profile.value.current == Some(record.id))
            && (record.status != Active ==> r.profile == b.profile)
  {
    var r, n := Inserted(b, record, actor, now), |b.entries|;
    assert r.entries == r.entries[..n] + [record];
    forall i | 0 <= i < n && b.entries[i].status == Active ensures Find(b.entries, b.profile.value.current) == Some(i) {
      FindOnly(b.entries, i);
    }
    if record.status != Active {
      assert r.entries[..n] == b.entries;
      FindAppend(b.entries, record, b.profile.value.current);
    } else {
      assert Find(r.entries, Some(record.id)).Some?;
    }
  }

  lemma FindAppend(entries: seq<Entitlement>, e: Entitlement, id: Option<string>)
    requires Some(e.id) != id || Find(entries, id).Some?
    ensures Find(entries + [e], id) == Find(entries, id)
  {
    assert (entries + [e])[..|entries|] == entries;
  }

  lemma {:induction false} AppendKeeps(a: seq<Entitlement>, e: Entitlement, clock: real)
    requires Shape(a) && Histories(a, clock) && Chain(e.history, e.status, clock)
    requires (forall i :: 0 <= i < |a| ==> a[i].id != e.id) && e.version == |a| + 1
    requires e.rollbackTarget.Some? ==> Find(a, e.rollbackTarget).Some?
    ensures Shape(a + [e]) && Histories(a + [e], clock)
  {
    var b := a + [e];
    forall i | 0 <= i < |b| && b[i].rollbackTarget.Some? ensures HasEarlier(b, i) {
      if i < |a| {
        assert HasEarlier(a, i);
        var j :| 0 <= j < i && Some(a[j].id) == a[i].rollbackTarget;
        assert b[j] == a[j];
      } else {
        var j := Find(a, e.rollbackTarget).value;
        assert b[j] == a[j];
      }
    }
  }

  /** What an accepted proposal makes of itself. */
  lemma NewRecordFacts(b: Book, p: Proposal, actor: string, approvedBy: string, now: real)
    requires Sane(b) && Refusal(b, p, now).None?
    ensures var e := NewRecord(b, p, actor, approvedBy, now);
            && e.id == p.newId && e.version == |b.entries| + 1
            && Chain(e.history, e.status, now) && e.status in {Pending, Active}
            && (e.status == Active ==> e.startsAt <= now)
            && (e.rollbackTarget.Some? ==> Find(b.entries, e.rollbackTarget).Some?)
  {
  }

  lemma InsertedShape(b: Book, record: Entitlement, actor: string, clock: real, now: real)
    requires Sane(b) && Histories(b.entries, clock) && clock <= now
    requires record.status in {Pending, Active} && forall i :: 0 <= i < |b.entries| ==> b.entries[i].id != record.id
    requires record.version == |b.entries| + 1 && Chain(record.history, record.status, now)
    requires record.rollbackTarget.Some? ==> Find(b.entries, record.rollbackTarget).Some?
    ensures var r := Inserted(b, record, actor, now);
            Shape(r.entries) && Histories(r.entries, now) && Evolved(b.entries, r.entries)
  {
    var r, n := Inserted(b, record, actor, now), |b.entries|;
    var kept := r.entries[..n];
    InsertedFacts(b, record, actor, now);
    ChangesKeep(b.entries, kept, clock, now);
    SameTerms(b.entries, kept, now);
    SameFind(b.entries, kept, record.rollbackTarget);
    AppendKeeps(kept, record, now);
    assert r.entries == kept + [record];
    forall i | 0 <= i < n ensures Grown(b.entries[i], r.entries[i]) {
      assert Grown(b.entries[i], kept[i]);
    }
  }

  lemma InsertedKeeps(b: Book, p: Proposal, actor: string, approvedBy: string, clock: real, now: real)
    requires Inv(b, clock) && clock <= now && b.profile.Some? && Refusal(b, p, now).None?
    requires forall i :: 0 <= i < |b.entries| ==> b.entries[i].id != p.newId
    ensures var r := Inserted(b, NewRecord(b, p, actor, approvedBy, now), actor, now);
            Inv(r, now) && Evolved(b.entries, r.entries)
  {
    var record := NewRecord(b, p, actor, approvedBy, now);
    NewRecordFacts(b, p, actor, approvedBy, now);
    InsertedFacts(b, record, actor, now);
    InsertedShape(b, record, actor, clock, now);
  }

  lemma OpenedKeeps(b: Book, clock: real, now: real)
    requires Inv(b, clock) && clock <= now
    ensures Inv(Opened(b, now), now) && Evolved(b.entries, Opened(b, now).entries) && Opened(b, now).profile.Some?
    ensures |Opened(b, now).entries| == |b.entries|
  {
    var with := if b.profile.None? then b.(profile := Some(Profile(None, 1, now, "system"))) else b;
    assert Inv(with, clock);
    ReconciledKeeps(with, clock, now);
    ReconciledProfile(with, now);
  }

  // ----- operator actions -----

  lemma ActedFacts(b: Book, i: nat, a: Action, now: real)
    requires b.profile.Some? && i < |b.entries| && b.entries[i].id == a.id
    requires Shape(b.entries) && Pointed(b.entries, b.profile.value.current)
    requires Acted(b, i, a, now).error.None?
    ensures var next := if a.verb in {"cancel", "revoke"} then Revoked else Superseded;
            var mid := b.entries[i := Moved(b.entries[i], next, now, a.actor, a.reason)];
            var r := Acted(b, i, a, now).book;
            && AllChange(b.entries, mid, now) && AllChange(mid, r.entries, now)
            && Pointed(r.entries, r.profile.value.current)
            && (forall k :: 0 <= k < |r.entries| && r.entries[k].status == Active ==>
                  r.entries[k].startsAt <= now || r.entries[k] == b.entries[k])
  {
    var next := if a.verb in {"cancel", "revoke"} then Revoked else Superseded;
    var e := b.entries[i];
    var mid := b.entries[i := Moved(e, next, now, a.actor, a.reason)];
    MovedChanges(e, next, now, a.actor, a.reason);
    FindOnly(b.entries, i);
    forall k | 0 <= k < |b.entries| && b.entries[k].status == Active
      ensures Find(b.entries, b.profile.value.current) == Some(k)
    {
      FindOnly(b.entries, k);
    }
    if a.verb == "cancel" || (a.verb == "revoke" && b.profile.value.current != Some(a.id)) {
      SamePointer(b.entries, mid, b.profile.value.current);
      assert Acted(b, i, a, now).book.entries == mid;
    } else {
      var reason := if a.verb == "revoke" then "rollback after revocation: " + a.reason else a.reason;
      ShapeAfter(b.entries, mid, now);
      RestoredKeeps(b.(entries := mid), mid[i], now, a.actor, reason);
      assert Acted(b, i, a, now).book == Restored(b.(entries := mid), mid[i], now, a.actor, reason);
    }
  }

  lemma ActedKeeps(b: Book, i: nat, a: Action, clock: real, now: real)
    requires Inv(b, clock) && clock <= now && b.profile.Some? && i < |b.entries| && b.entries[i].id == a.id
    requires Acted(b, i, a, now).error.None?
    ensures Inv(Acted(b, i, a, now).book, now) && Evolved(b.entries, Acted(b, i, a, now).book.entries)
  {
    var next := if a.verb in {"cancel", "revoke"} then Revoked else Superseded;
    var mid := b.entries[i := Moved(b.entries[i], next, now, a.actor, a.reason)];
    var r := Acted(b, i, a, now).book;
    ActedFacts(b, i, a, now);
    ChangesKeep(b.entries, mid, clock, now);
    ChangesKeep(mid, r.entries, now, now);
    EvolvedTransitive(b.entries, mid, r.entries);
  }

  lemma StampedKeeps(b: Book, i: nat, a: Action, clock: real, now: real)
    requires Inv(b, clock) && b.profile.Some? && i < |b.entries|
    ensures Inv(Stamped(b, i, a, now), clock) && Evolved(b.entries, Stamped(b, i, a, now).entries)
    ensures Stamped(b, i, a, now).profile.value.current == b.profile.value.current
  {
    var r := Stamped(b, i, a, now);
    forall k | 0 <= k < |r.entries|
      ensures Chain(r.entries[k].history, r.entries[k].status, clock) && Grown(b.entries[k], r.entries[k])
    {
      assert Chain(b.entries[k].history, b.entries[k].status, clock);
    }
    forall k | 0 <= k < |r.entries| && r.entries[k].rollbackTarget.Some? ensures HasEarlier(r.entries, k) {
      assert HasEarlier(b.entries, k);
      var j :| 0 <= j < k && Some(b.entries[j].id) == b.entries[k].rollbackTarget;
      assert r.entries[j].id == b.entries[j].id;
    }
    SamePointer(b.entries, r.entries, b.profile.value.current);
  }

  lemma StampedFacts(b: Book, i: nat, a: Action, now: real)
    requires b.profile.Some? && i < |b.entries|
    ensures var r := Stamped(b, i, a, now);
            && r.profile.Some? && r.profile.value.current == b.profile.value.current
            && |r.entries| == |b.entries|
            && forall k :: 0 <= k < |b.entries| ==> r.entries[k].status == b.entries[k].status
  {
  }

  lemma RolledBack(b: Book, i: nat, a: Action, now: real)
    requires Sane(b) && i < |b.entries| && a.verb == "rollback" && Acted(b, i, a, now).error.None?
    ensures var r, j := Acted(b, i, a, now).book, Find(b.entries, b.entries[i].rollbackTarget);
            && j.Some? && j.value < i && r.profile.Some? && |r.entries| == |b.entries|
            && r.profile.value.current == Some(b.entries[j.value].id)
            && r.entries[j.value].status == Active && r.entries[i].status == Superseded
  {
    TargetIsOlder(b.entries, i);
    var replaced := Moved(b.entries[i], Superseded, now, a.actor, a.reason);
    SameFind(b.entries, b.entries[i := replaced], b.entries[i].rollbackTarget);
  }

  /** The rollback target of a record. */
  function TargetIndex(b: Book, id: string): (j: Option<nat>)
    ensures j.Some? ==> j.value < |b.entries|
  {
    var i := Find(b.entries, Some(id));
    if i.None? then None else Find(b.entries, b.entries[i.value].rollbackTarget)
  }

  /** An accepted rollback is saved with the target active and current, and the rolled-back record
      superseded. The pass that reads the answer back leaves the target current exactly when no
      scheduled record has come due by then and the target is neither lapsed nor a temporary expansion
      past its expiry -- which one restored within its grace already is. */
  lemma RollbackTakesEffect(b: Book, a: Action, clock: real, readAt: real, now: real, answeredAt: real)
    requires Inv(b, clock) && clock <= readAt <= now <= answeredAt && a.verb == "rollback"
    requires Changed(b, a, readAt, now, answeredAt).error.None?
    ensures var before := Reconciled(b, readAt);
            var j, final := TargetIndex(before, a.id), Changed(b, a, readAt, now, answeredAt).book;
            && RollbackDone(before, a.id, Decided(before, a, now).book)
            && j.Some? && final.profile.Some?
            && (final.profile.value.current == Some(before.entries[j.value].id) <==>
                  Winner(before.entries, answeredAt).None?
                  && !TemporaryOver(before.entries[j.value], answeredAt)
                  && !Lapsed(before.entries[j.value], answeredAt))
  {
    var before := Reconciled(b, readAt);
    ReconciledKeeps(b, clock, readAt);
    DecidedRollback(before, a, now);
    DecidedKeeps(before, a, readAt, now);
    SavedSchedule(before, a, now, answeredAt);
    PointerStays(Decided(before, a, now).book, answeredAt);
  }

  /** Rolling back leaves the schedule and everybody's terms alone. */
  lemma SavedSchedule(before: Book, a: Action, now: real, answeredAt: real)
    requires Shape(before.entries) && (before.profile.Some? ==> Pointed(before.entries, before.profile.value.current))
    requires a.verb == "rollback" && Decided(before, a, now).error.None?
    requires RollbackDone(before, a.id, Decided(before, a, now).book) && Sane(Decided(before, a, now).book)
    ensures var saved, j := Decided(before, a, now).book, TargetIndex(before, a.id).value;
            && Winner(saved.entries, answeredAt) == Winner(before.entries, answeredAt)
            && (CurrentOver(saved, answeredAt) <==>
                  TemporaryOver(before.entries[j], answeredAt) || Lapsed(before.entries[j], answeredAt))
  {
    var i := Find(before.entries, Some(a.id)).value;
    var saved, j := Decided(before, a, now).book, TargetIndex(before, a.id).value;
    RolledBack(before, i, a, now);
    RolledBackTerms(before, i, a, now);
    SameWinner(saved.entries, before.entries, answeredAt);
    FindOnly(saved.entries, j);
  }

  lemma RolledBackTerms(b: Book, i: nat, a: Action, now: real)
    requires Sane(b) && i < |b.entries| && a.verb == "rollback" && Acted(b, i, a, now).error.None?
    ensures var r := Stamped(Acted(b, i, a, now).book, i, a, now);
            |r.entries| == |b.entries| && forall k :: 0 <= k < |b.entries| ==>
              && r.entries[k].id == b.entries[k].id && r.entries[k].version == b.entries[k].version
              && r.entries[k].startsAt == b.entries[k].startsAt && r.entries[k].expiresAt == b.entries[k].expiresAt
              && r.entries[k].grace == b.entries[k].grace && r.entries[k].changeType == b.entries[k].changeType
              && (r.entries[k].status == Pending <==> b.entries[k].status == Pending)
  {
    TargetIsOlder(b.entries, i);
    var replaced := Moved(b.entries[i], Superseded, now, a.actor, a.reason);
    SameFind(b.entries, b.entries[i := replaced], b.entries[i].rollbackTarget);
  }

  /** A pass keeps the pointer exactly when nothing scheduled is due and the current record is not over. */
  lemma PointerStays(b: Book, now: real)
    requires Sane(b) && b.profile.value.current.Some?
    ensures Reconciled(b, now).profile.Some?
    ensures Reconciled(b, now).profile.value.current == b.profile.value.current <==>
            Winner(b.entries, now).None? && !CurrentOver(b, now)
  {
    HeirIsCurrent(b, now);
    var i := Find(b.entries, b.profile.value.current).value;
    var w := Winner(b.entries, now);
    if w.Some? {
      assert b.entries[w.value].status == Pending && b.entries[i].status == Active;
    } else if CurrentOver(b, now) && HeirOfOver(b, now).Some? {
      TargetIsOlder(b.entries, i);
    }
  }

  predicate RollbackDone(before: Book, id: string, after: Book) {
    var i := Find(before.entries, Some(id));
    && i.Some?
    && var j := Find(before.entries, before.entries[i.value].rollbackTarget);
       && j.Some? && j.value < i.value < |after.entries|
       && after.profile.Some? && after.profile.value.current == Some(before.entries[j.value].id)
       && after.entries[j.value].status == Active && after.entries[i.value].status == Superseded
  }

  lemma DecidedRollback(latest: Book, a: Action, now: real)
    requires Shape(latest.entries) && (latest.profile.Some? ==> Pointed(latest.entries, latest.profile.value.current))
    requires a.verb == "rollback" && Decided(latest, a, now).error.None?
    ensures RollbackDone(latest, a.id, Decided(latest, a, now).book)
  {
    var i := Find(latest.entries, Some(a.id)).value;
    RolledBack(latest, i, a, now);
    StampedFacts(Acted(latest, i, a, now).book, i, a, now);
  }

  // ----- runs -----

  datatype Op =
    | Create(p: Proposal, actor: string, approvedBy: string)
    | Change(a: Action)
    | Read

  /** An operation reads the clock to reconcile, to act, and, after an accepted action, to reconcile again. */
  datatype Event = Event(op: Op, readAt: real, now: real, answeredAt: real)

  function After(b: Book, ev: Event): Book {
    match ev.op
    case Create(p, actor, approvedBy) => Created(b, p, actor, approvedBy, ev.readAt, ev.now).book
    case Change(a) => Changed(b, a, ev.readAt, ev.now, ev.answeredAt).book
    case Read => Reconciled(b, ev.readAt)
  }

  function Run(events: seq<Event>): Book {
    if events == [] then Book([], None) else After(Run(events[..|events| - 1]), events[|events| - 1])
  }

  function Clock(events: seq<Event>): real {
    if events == [] then 0.0 else events[|events| - 1].answeredAt
  }

  ghost predicate Fits(b: Book, clock: real, ev: Event) {
    && clock <= ev.readAt <= ev.now <= ev.answeredAt
    && (ev.op.Create? ==> forall i :: 0 <= i < |b.entries| ==> b.entries[i].id != ev.op.p.newId)
  }

  /** Time does not go back, and new ids are new. */
  ghost predicate Proper(events: seq<Event>) {
    events == [] ||
    (var init, ev := events[..|events| - 1], events[|events| - 1]; Proper(init) && Fits(Run(init), Clock(init), ev))
  }

  lemma AfterKeeps(b: Book, ev: Event, clock: real)
    requires Inv(b, clock) && Fits(b, clock, ev)
    ensures Inv(After(b, ev), ev.answeredAt) && Evolved(b.entries, After(b, ev).entries)
  {
    match ev.op
    case Create(p, actor, approvedBy) =>
      CreateKeeps(b, p, actor, approvedBy, clock, ev.readAt, ev.now);
      HistoriesLater(After(b, ev).entries, ev.now, ev.answeredAt);
    case Change(a) => ChangeKeeps(b, a, clock, ev.readAt, ev.now, ev.answeredAt);
    case Read =>
      ReconciledKeeps(b, clock, ev.readAt);
      HistoriesLater(Reconciled(b, ev.readAt).entries, ev.readAt, ev.answeredAt);
  }

  lemma CreateKeeps(b: Book, p: Proposal, actor: string, approvedBy: string, clock: real, readAt: real, now: real)
    requires Inv(b, clock) && clock <= readAt <= now
    requires forall i :: 0 <= i < |b.entries| ==> b.entries[i].id != p.newId
    ensures var r := Created(b, p, actor, approvedBy, readAt, now).book; Inv(r, now) && Evolved(b.entries, r.entries)
  {
    var latest := Opened(b, readAt);
    OpenedKeeps(b, clock, readAt);
    if Refusal(latest, p, now).None? {
      assert forall i :: 0 <= i < |b.entries| ==> Grown(b.entries[i], latest.entries[i]);
      InsertedKeeps(latest, p, actor, approvedBy, readAt, now);
      EvolvedTransitive(b.entries, latest.entries, Created(b, p, actor, approvedBy, readAt, now).book.entries);
    } else {
      HistoriesLater(latest.entries, readAt, now);
    }
  }

  lemma ChangeKeeps(b: Book, a: Action, clock: real, readAt: real, now: real, answeredAt: real)
    requires Inv(b, clock) && clock <= readAt <= now <= answeredAt
    ensures var r := Changed(b, a, readAt, now, answeredAt).book; Inv(r, answeredAt) && Evolved(b.entries, r.entries)
  {
    var latest := Reconciled(b, readAt);
    ReconciledKeeps(b, clock, readAt);
    DecidedKeeps(latest, a, readAt, now);
    var o := Decided(latest, a, now);
    EvolvedTransitive(b.entries, latest.entries, o.book.entries);
    if o.error.None? {
      ReconciledKeeps(o.book, now, answeredAt);
      EvolvedTransitive(b.entries, o.book.entries, Reconciled(o.book, answeredAt).entries);
    } else {
      HistoriesLater(o.book.entries, now, answeredAt);
    }
  }

  lemma DecidedKeeps(latest: Book, a: Action, clock: real, now: real)
    requires Inv(latest, clock) && clock <= now
    ensures var r := Decided(latest, a, now).book; Inv(r, now) && Evolved(latest.entries, r.entries)
  {
    if Decided(latest, a, now).error.None? {
      var i := Find(latest.entries, Some(a.id)).value;
      var done := Acted(latest, i, a, now).book;
      ActedKeeps(latest, i, a, clock, now);
      StampedKeeps(done, i, a, now, now);
      EvolvedTransitive(latest.entries, done.entries, Stamped(done, i, a, now).entries);
    } else {
      RefusedKeeps(latest, a, now);
      HistoriesLater(latest.entries, clock, now);
      EvolvedReflexive(latest.entries);
    }
  }

  /** A refused action changes nothing beyond the reconciliation. */
  lemma RefusedKeeps(latest: Book, a: Action, now: real)
    requires Decided(latest, a, now).error.Some?
    ensures Decided(latest, a, now).book == latest
  {
  }

  /** The invariant over every run: a record is active exactly when it is the current one, versions
      are dense, rollback targets are older, and every history is a connected path of allowed changes. */
  lemma {:induction false} RunKeeps(events: seq<Event>)
    requires Proper(events)
    ensures Inv(Run(events), Clock(events))
  {
    if events != [] {
      RunKeeps(events[..|events| - 1]);
      AfterKeeps(Run(events[..|events| - 1]), events[|events| - 1], Clock(events[..|events| - 1]));
    }
  }

  /** At most one record is ever active. */
  lemma OneActive(events: seq<Event>, i: nat, j: nat)
    requires Proper(events) && i < |Run(events).entries| && j < |Run(events).entries|
    requires Run(events).entries[i].status == Active && Run(events).entries[j].status == Active
    ensures i == j
  {
    RunKeeps(events);
  }

  /** Terms never change and histories only grow, whatever follows. */
  lemma {:induction false} RunEvolves(events: seq<Event>, later: seq<Event>)
    requires Proper(events + later)
    ensures Proper(events) && Evolved(Run(events).entries, Run(events + later).entries)
  {
    var all := events + later;
    if later == [] {
      assert all == events;
      EvolvedReflexive(Run(events).entries);
    } else {
      var before := later[..|later| - 1];
      assert all[..|all| - 1] == events + before;
      RunEvolves(events, before);
      StepEvolves(all);
      EvolvedTransitive(Run(events).entries, Run(events + before).entries, Run(all).entries);
    }
  }

  lemma StepEvolves(events: seq<Event>)
    requires events != [] && Proper(events)
    ensures Proper(events[..|events| - 1]) && Evolved(Run(events[..|events| - 1]).entries, Run(events).entries)
  {
    var init := events[..|events| - 1];
    RunKeeps(init);
    AfterKeeps(Run(init), events[|events| - 1], Clock(init));
  }

  /** A revoked or expired record stays so in every continuation of the run. */
  lemma EndIsFinal(events: seq<Event>, later: seq<Event>, i: nat)
    requires Proper(events + later) && i < |Run(events).entries|
    requires Run(events).entries[i].status in {Revoked, Expired}
    ensures i < |Run(events + later).entries|
    ensures Run(events + later).entries[i].status == Run(events).entries[i].status
  {
    RunEvolves(events, later);
    RunKeeps(events);
    RunKeeps(events + later);
    Absorbing(Run(events).entries, Run(events + later).entries, Clock(events), Clock(events + later), i);
  }
}
