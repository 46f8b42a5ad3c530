/** One project's entitlements: versioned records, the pointer to the current one, and the
    operations that move records between statuses as time passes and operators act. */
module Entitlements {
  import opened Common

  datatype Status = Pending | Active | Superseded | Revoked | Expired

  datatype Move = Move(from: Option<Status>, to: Status, at: real, actor: string, reason: string)

  datatype Entitlement = Entitlement(
    id: string, startsAt: real, expiresAt: Option<real>, grace: nat, changeType: string,
    rollbackTarget: Option<string>, supersedes: Option<string>, capabilities: set<string>,
    status: Status, history: seq<Move>, version: nat, recordVersion: int, approvedBy: string)

  datatype Profile = Profile(current: Option<string>, version: int, updatedAt: real, updatedBy: string)

  datatype Book = Book(entries: seq<Entitlement>, profile: Option<Profile>)

  const CHANGE_TYPES := {"new", "renewal", "upgrade", "downgrade", "temporary_expansion", "emergency"}
  const SCHEDULER := "entitlement-scheduler"

  // ----- records -----

  /** The index of the record with this id, if any. */
  function Find(entries: seq<Entitlement>, id: Option<string>): (r: Option<nat>)
    ensures r.Some? ==> r.value < |entries| && Some(entries[r.value].id) == id
    ensures r.None? ==> forall i :: 0 <= i < |entries| ==> Some(entries[i].id) != id
  {
    if entries == [] then None
    else
      var n := |entries| - 1;
      var earlier := Find(entries[..n], id);
      if earlier.Some? then earlier else if Some(entries[n].id) == id then Some(n) else None
  }

  /** Record a status change; a change to the same status is not recorded. */
  function Moved(e: Entitlement, next: Status, at: real, actor: string, reason: string): Entitlement {
    if e.status == next then e
    else e.(history := e.history + [Move(Some(e.status), next, at, actor, reason)], status := next)
  }

  function GraceUntil(e: Entitlement): real
    requires e.expiresAt.Some?
  {
    e.expiresAt.value + e.grace as real
  }

  /** Past expiry and grace. */
  predicate Lapsed(e: Entitlement, now: real) {
    e.expiresAt.Some? && now > GraceUntil(e)
  }

  /** A temporary expansion ends at its expiry, whatever its grace. */
  predicate TemporaryOver(e: Entitlement, now: real) {
    e.changeType == "temporary_expansion" && e.expiresAt.Some? && now > e.expiresAt.value
  }

  predicate Usable(e: Entitlement, now: real) {
    e.status !in {Revoked, Expired, Pending} && now >= e.startsAt && !Lapsed(e, now)
  }

  datatype Runtime = InForce | InGrace | Ended(status: Status) | NotStarted

  function RuntimeStatus(e: Entitlement, now: real): Runtime {
    if now < e.startsAt then NotStarted
    else if e.status in {Revoked, Superseded, Expired} then Ended(e.status)
    else if e.expiresAt.None? || now <= e.expiresAt.value then InForce
    else if now <= GraceUntil(e) then InGrace
    else Ended(Expired)
  }

  // ----- restoring a rollback target -----

  function Restored(b: Book, from: Entitlement, at: real, actor: string, reason: string): (r: Book)
    requires b.profile.Some?
    ensures r.profile.Some? && |r.entries| == |b.entries|
  {
    var j := Find(b.entries, from.rollbackTarget);
    if from.rollbackTarget.None? || j.None? || !Usable(b.entries[j.value], at) then
      b.(profile := Some(b.profile.value.(current := None)))
    else
      var target := b.entries[j.value];
      Book(b.entries[j.value := Moved(target, Active, at, actor, reason)],
           Some(b.profile.value.(current := Some(target.id))))
  }

  // ----- reconciliation -----

  predicate CurrentOver(b: Book, now: real) {
    b.profile.Some?
    && var i := Find(b.entries, b.profile.value.current);
       i.Some? && b.entries[i.value].status == Active
       && (TemporaryOver(b.entries[i.value], now) || Lapsed(b.entries[i.value], now))
  }

  /** The current entitlement ends and its rollback target takes over, if usable. */
  function CurrentExpired(b: Book, now: real): Book
    requires CurrentOver(b, now)
  {
    var i := Find(b.entries, b.profile.value.current).value;
    var e := b.entries[i];
    var reason := if TemporaryOver(e, now) then "temporary entitlement ended" else "entitlement validity ended";
    var ended := Moved(e, Expired, now, SCHEDULER, reason);
    Restored(b.(entries := b.entries[i := ended]), ended, now, SCHEDULER, "automatic rollback after entitlement expiry")
  }

  predicate Reached(e: Entitlement, now: real) {
    e.status == Pending && e.startsAt <= now
  }

  predicate Due(e: Entitlement, now: real) {
    Reached(e, now) && !Lapsed(e, now)
  }

  /** A scheduled record whose whole validity passed unseen. */
  function Missed(e: Entitlement, now: real): Entitlement {
    if Reached(e, now) && Lapsed(e, now)
    then Moved(e, Expired, now, SCHEDULER, "scheduled entitlement expired before reconciliation")
    else e
  }

  function MissedAll(entries: seq<Entitlement>, now: real): seq<Entitlement> {
    seq(|entries|, i requires 0 <= i < |entries| => Missed(entries[i], now))
  }

  predicate Later(a: Entitlement, b: Entitlement) {
    a.startsAt > b.startsAt || (a.startsAt == b.startsAt && a.version > b.version)
  }

  /** Among the due records, the one with the latest start; the highest version breaks ties. */
  function Winner(entries: seq<Entitlement>, now: real): (w: Option<nat>)
    ensures w.None? <==> forall i :: 0 <= i < |entries| ==> !Due(entries[i], now)
    ensures w.Some? ==> w.value < |entries| && Due(entries[w.value], now)
    ensures w.Some? ==> forall i :: 0 <= i < |entries| && Due(entries[i], now) ==> !Later(entries[i], entries[w.value])
  {
    if entries == [] then None
    else
      var n := |entries| - 1;
      var best := Winner(entries[..n], now);
      if Due(entries[n], now) && (best.None? || Later(entries[n], entries[best.value])) then Some(n) else best
  }

  /** What activation of the winner does to record i. */
  function Settled(entries: seq<Entitlement>, current: Option<nat>, w: nat, i: nat, now: real): Entitlement
    requires i < |entries| && w < |entries|
  {
    var e := entries[i];
    if Due(e, now) then
      Moved(e, if i == w then Active else Superseded, now, SCHEDULER,
            "scheduled entitlement reached its effective time")
    else if current == Some(i) && e.status == Active then
      Moved(e, Superseded, now, SCHEDULER, "scheduled entitlement " + entries[w].id + " activated")
    else e
  }

  function SettledAll(entries: seq<Entitlement>, current: Option<nat>, w: nat, now: real): seq<Entitlement>
    requires w < |entries|
  {
    seq(|entries|, i requires 0 <= i < |entries| => Settled(entries, current, w, i, now))
  }

  function DueSettled(b: Book, now: real): Book
    requires b.profile.Some?
  {
    var entries := MissedAll(b.entries, now);
    var w := Winner(entries, now);
    var profile := b.profile.value;
    if w.None? then b.(entries := entries)
    else
      Book(SettledAll(entries, Find(entries, profile.current), w.value, now),
           Some(Profile(Some(entries[w.value].id), profile.version + 1, now, SCHEDULER)))
  }

  /** One reconciliation pass. */
  function Reconciled(b: Book, now: real): Book {
    if b.profile.None? then b
    else DueSettled(if CurrentOver(b, now) then CurrentExpired(b, now) else b, now)
  }

  /** Something is left for a pass at this time to do. */
  predicate Unsettled(b: Book, now: real) {
    b.profile.Some? && (CurrentOver(b, now) || exists i :: 0 <= i < |b.entries| && Reached(b.entries[i], now))
  }

  // ----- creating -----

  datatype Proposal = Proposal(
    newId: string, expectedCurrent: Option<string>, startsAt: Option<real>, expiresAt: Option<real>, grace: int,
    capabilities: set<string>, changeType: Option<string>, reason: string, rollbackTarget: Option<string>)

  datatype Error =
    | CurrentConflict
    | ExpiryBeforeStart
    | NoCapabilities
    | UnsupportedType
    | NoReason
    | NoSuchTarget
    | TemporaryIncomplete
    | UnsupportedAction
    | NoApproval
    | NoSuchEntitlement
    | VersionConflict
    | NotPending
    | NotRevocable
    | NotCurrent
    | TargetUnavailable

  datatype Outcome = Outcome(book: Book, error: Option<Error>)

  predicate Mismatch(expected: Option<string>, current: Option<string>) {
    expected.Some? && expected.value != current.GetOr("")
  }

  function StartOf(p: Proposal, now: real): real {
    if p.startsAt.Some? && p.startsAt.value != 0.0 then p.startsAt.value else now
  }

  function TypeOf(p: Proposal, current: Option<string>): string {
    if p.changeType.Some? && p.changeType.value != "" then p.changeType.value
    else if current.None? then "new" else "renewal"
  }

  function TargetOf(p: Proposal, current: Option<string>): Option<string> {
    if p.rollbackTarget.Some? && p.rollbackTarget.value != "" then p.rollbackTarget else current
  }

  function Refusal(b: Book, p: Proposal, now: real): Option<Error>
    requires b.profile.Some?
  {
    var current := b.profile.value.current;
    var target := TargetOf(p, current);
    if Mismatch(p.expectedCurrent, current) then Some(CurrentConflict)
    else if p.expiresAt.Some? && p.expiresAt.value <= StartOf(p, now) then Some(ExpiryBeforeStart)
    else if p.capabilities == {} then Some(NoCapabilities)
    else if TypeOf(p, current) !in CHANGE_TYPES then Some(UnsupportedType)
    else if p.reason == "" then Some(NoReason)
    else if target.Some? && Find(b.entries, target).None? then Some(NoSuchTarget)
    else if TypeOf(p, current) == "temporary_expansion" && (p.expiresAt.None? || target.None?)
    then Some(TemporaryIncomplete)
    else None
  }

  function NewRecord(b: Book, p: Proposal, actor: string, approvedBy: string, now: real): Entitlement
    requires b.profile.Some?
  {
    var current := b.profile.value.current;
    var status := if StartOf(p, now) > now then Pending else Active;
    Entitlement(p.newId, StartOf(p, now), p.expiresAt, MaxInt(0, p.grace), TypeOf(p, current), TargetOf(p, current),
                current, p.capabilities, status, [Move(None, status, now, actor, p.reason)], |b.entries| + 1, 1,
                approvedBy)
  }

  /** An immediate start supersedes the current entitlement and becomes current. */
  function Inserted(b: Book, record: Entitlement, actor: string, now: real): Book
    requires b.profile.Some?
  {
    var profile := b.profile.value;
    if record.status != Active then b.(entries := b.entries + [record])
    else
      var i := Find(b.entries, profile.current);
      var entries :=
        if i.Some? && b.entries[i.value].status == Active then
          b.entries[i.value :=
            Moved(b.entries[i.value], Superseded, now, actor, "entitlement " + record.id + " activated")]
        else b.entries;
      Book(entries + [record], Some(Profile(Some(record.id), profile.version + 1, now, actor)))
  }

  /** Reading the profile creates it when missing, and reconciles. */
  function Opened(b: Book, now: real): Book {
    Reconciled(if b.profile.None? then b.(profile := Some(Profile(None, 1, now, "system"))) else b, now)
  }

  function Admitted(latest: Book, p: Proposal, actor: string, approvedBy: string, now: real): Outcome
    requires latest.profile.Some?
  {
    var refusal := Refusal(latest, p, now);
    if refusal.Some? then Outcome(latest, refusal)
    else Outcome(Inserted(latest, NewRecord(latest, p, actor, approvedBy, now), actor, now), None)
  }

  lemma OpenedProfile(b: Book, now: real)
    ensures Opened(b, now).profile.Some?
  {
  }

  function Created(b: Book, p: Proposal, actor: string, approvedBy: string, readAt: real, now: real): Outcome {
    OpenedProfile(b, readAt);
    Admitted(Opened(b, readAt), p, actor, approvedBy, now)
  }

  // ----- operator actions -----

  datatype Action = Action(
    id: string, verb: string, actor: string, approvedBy: string, reason: string,
    expectedVersion: Option<int>, expectedCurrent: Option<string>)

  /** The effect of a permitted action on the records and the pointer. */
  function Acted(b: Book, i: nat, a: Action, now: real): (o: Outcome)
    requires b.profile.Some? && i < |b.entries|
    ensures o.book.profile.Some? && |o.book.entries| == |b.entries|
  {
    var e, current := b.entries[i], b.profile.value.current;
    match a.verb
    case "cancel" =>
      if e.status != Pending then Outcome(b, Some(NotPending))
      else Outcome(b.(entries := b.entries[i := Moved(e, Revoked, now, a.actor, a.reason)]), None)
    case "revoke" =>
      if e.status !in {Pending, Active} then Outcome(b, Some(NotRevocable))
      else
        var revoked := Moved(e, Revoked, now, a.actor, a.reason);
        var next := b.(entries := b.entries[i := revoked]);
        if current == Some(a.id)
        then Outcome(Restored(next, revoked, now, a.actor, "rollback after revocation: " + a.reason), None)
        else Outcome(next, None)
    case _ =>
      var j := Find(b.entries, e.rollbackTarget);
      if current != Some(a.id) || e.status != Active then Outcome(b, Some(NotCurrent))
      else if e.rollbackTarget.None? || j.None? || !Usable(b.entries[j.value], now)
      then Outcome(b, Some(TargetUnavailable))
      else
        var replaced := Moved(e, Superseded, now, a.actor, a.reason);
        Outcome(Restored(b.(entries := b.entries[i := replaced]), replaced, now, a.actor, a.reason), None)
  }

  function Stamped(b: Book, i: nat, a: Action, now: real): Book
    requires b.profile.Some? && i < |b.entries|
  {
    var e, profile := b.entries[i], b.profile.value;
    Book(b.entries[i := e.(recordVersion := e.recordVersion + 1, approvedBy := a.approvedBy)],
         Some(profile.(version := profile.version + 1, updatedAt := now, updatedBy := a.actor)))
  }

  function Decided(latest: Book, a: Action, now: real): Outcome {
    var i := Find(latest.entries, Some(a.id));
    if a.verb !in {"cancel", "revoke", "rollback"} then Outcome(latest, Some(UnsupportedAction))
    else if a.reason == "" || a.approvedBy == "" then Outcome(latest, Some(NoApproval))
    else if i.None? || latest.profile.None? then Outcome(latest, Some(NoSuchEntitlement))
    else if a.expectedVersion.Some? && a.expectedVersion.value != latest.entries[i.value].recordVersion
    then Outcome(latest, Some(VersionConflict))
    else if Mismatch(a.expectedCurrent, latest.profile.value.current) then Outcome(latest, Some(CurrentConflict))
    else
      var done := Acted(latest, i.value, a, now);
      if done.error.Some? then done else done.(book := Stamped(done.book, i.value, a, now))
  }

  /** Reconciles first; a refused action leaves the reconciled book. An accepted one is saved, and
      reconciled once more when the answer is read back. */
  function Changed(b: Book, a: Action, readAt: real, now: real, answeredAt: real): Outcome {
    var o := Decided(Reconciled(b, readAt), a, now);
    if o.error.Some? then o else o.(book := Reconciled(o.book, answeredAt))
  }

  lemma ReconciledProfile(b: Book, now: real)
    ensures b.profile.Some? <==> Reconciled(b, now).profile.Some?
    ensures |Reconciled(b, now).entries| == |b.entries|
  {
  }

  ghost predicate SameVersions(a: seq<Entitlement>, b: seq<Entitlement>) {
    |a| == |b| && forall i :: 0 <= i < |a| ==> a[i].version == b[i].version
  }

  lemma SettledVersions(b: Book, now: real)
    requires b.profile.Some?
    ensures SameVersions(b.entries, DueSettled(b, now).entries)
  {
    var entries := MissedAll(b.entries, now);
    assert SameVersions(b.entries, entries);
    var w := Winner(entries, now);
    if w.Some? {
      assert SameVersions(entries, SettledAll(entries, Find(entries, b.profile.value.current), w.value, now));
    }
  }

  lemma ReconciledVersions(b: Book, now: real)
    ensures SameVersions(b.entries, Reconciled(b, now).entries)
  {
    if b.profile.Some? {
      if CurrentOver(b, now) {
        ExpiryLeavesSchedule(b, now);
        SettledVersions(CurrentExpired(b, now), now);
      } else {
        SettledVersions(b, now);
      }
    }
  }

  lemma DecidedVersions(latest: Book, a: Action, now: real)
    ensures SameVersions(latest.entries, Decided(latest, a, now).book.entries)
  {
  }

  ghost predicate DistinctVersions(entries: seq<Entitlement>) {
    forall i, j :: 0 <= i < j < |entries| ==> entries[i].version != entries[j].version
  }

  // ----- the imperative book -----

  class EntitlementBook {
    var entries: seq<Entitlement>
    var profile: Option<Profile>

    function State(): Book
      reads this
    {
      Book(entries, profile)
    }

    constructor ()
      ensures State() == Book([], None)
    {
      entries, profile := [], None;
    }

    method Record(id: Option<string>) returns (found: Option<nat>)
      ensures found == Find(entries, id)
    {
      found := None;
      for i := 0 to |entries|
        invariant found == None && Find(entries[..i], id) == None
      {
        assert entries[..i + 1][..i] == entries[..i];
        if Some(entries[i].id) == id {
          FindFirst(entries, id, i);
          return Some(i);
        }
      }
      assert entries[..|entries|] == entries;
    }

    method AppendHistory(i: nat, next: Status, at: real, actor: string, reason: string)
      requires i < |entries|
      modifies `entries
      ensures entries == old(entries)[i := Moved(old(entries)[i], next, at, actor, reason)]
    {
      var e := entries[i];
      if e.status == next {
        return;
      }
      var move := Move(Some(e.status), next, at, actor, reason);
      entries := entries[i := e.(history := e.history + [move], status := next)];
    }

    method RestoreRollbackTarget(from: Entitlement, at: real, actor: string, reason: string)
      requires profile.Some?
      modifies this
      ensures State() == Restored(old(State()), from, at, actor, reason)
    {
      var j: Option<nat> := None;
      if from.rollbackTarget.Some? {
        j := Record(from.rollbackTarget);
      }
      if j.None? || !Usable(entries[j.value], at) {
        profile := Some(profile.value.(current := None));
        return;
      }
      AppendHistory(j.value, Active, at, actor, reason);
      profile := Some(profile.value.(current := Some(entries[j.value].id)));
    }

    /** Expires every scheduled record whose validity passed unseen; the others that are due are collected. */
    method CollectDue(now: real) returns (due: seq<nat>, changed: bool)
      modifies `entries
      ensures entries == MissedAll(old(entries), now)
      ensures changed || due != [] <==> exists i :: 0 <= i < |old(entries)| && Reached(old(entries)[i], now)
      ensures forall i :: i in due <==> 0 <= i < |entries| && Due(entries[i], now)
    {
      due, changed := [], false;
      ghost var before := entries;
      for i := 0 to |entries|
        invariant |entries| == |before|
        invariant forall k :: 0 <= k < |before| ==> entries[k] == if k < i then Missed(before[k], now) else before[k]
        invariant changed || due != [] <==> exists k :: 0 <= k < i && Reached(before[k], now)
        invariant forall k :: k in due <==> 0 <= k < i && Due(entries[k], now)
      {
        if entries[i].status != Pending || entries[i].startsAt > now {
          continue;
        }
        if entries[i].expiresAt.Some? && now > GraceUntil(entries[i]) {
          AppendHistory(i, Expired, now, SCHEDULER, "scheduled entitlement expired before reconciliation");
          changed := true;
          continue;
        }
        due := due + [i];
        assert i in due;
      }
      assert entries == MissedAll(before, now);
    }

    method LatestOf(due: seq<nat>, now: real) returns (w: nat)
      requires due != [] && forall i :: i in due <==> 0 <= i < |entries| && Due(entries[i], now)
      requires DistinctVersions(entries)
      ensures w in due && Winner(entries, now) == Some(w)
    {
      assert forall k :: 0 <= k < |due| ==> due[k] in due;
      w := due[0];
      for k := 1 to |due|
        invariant w in due
        invariant forall h :: 0 <= h < k ==> !Later(entries[due[h]], entries[w])
      {
        if Later(entries[due[k]], entries[w]) {
          w := due[k];
        }
      }
      var best := Winner(entries, now);
      assert due[0] in due;
      assert best.value in due;
      var h :| 0 <= h < |due| && due[h] == best.value;
      assert !Later(entries[w], entries[best.value]) && !Later(entries[best.value], entries[w]);
    }

    /** One reconciliation pass; the result says whether anything changed. */
    method Reconcile(now: real) returns (changed: bool)
      requires DistinctVersions(entries)
      modifies this
      ensures State() == Reconciled(old(State()), now)
      ensures changed <==> Unsettled(old(State()), now)
    {
      if profile.None? {
        return false;
      }
      changed := false;
      ExpiryLeavesSchedule(State(), now);
      var expired := ExpireCurrent(now);
      var settled := SettleSchedule(now);
      changed := expired || settled;
    }

    method SettleSchedule(now: real) returns (settled: bool)
      requires profile.Some? && DistinctVersions(entries)
      modifies this
      ensures State() == DueSettled(old(State()), now)
      ensures settled <==> exists i :: 0 <= i < |old(entries)| && Reached(old(entries)[i], now)
    {
      ghost var before := entries;
      var due, missed := CollectDue(now);
      settled := missed || due != [];
      assert DistinctVersions(entries);
      if due != [] {
        assert due[0] in due;
        var w := ActivateLatest(due, now);
        assert Winner(MissedAll(before, now), now) == Some(w);
      } else {
        assert forall i :: 0 <= i < |entries| ==> !Due(entries[i], now);
        assert Winner(MissedAll(before, now), now).None?;
      }
    }

    method ExpireCurrent(now: real) returns (expired: bool)
      requires profile.Some?
      modifies this
      ensures expired == CurrentOver(old(State()), now)
      ensures State() == if expired then CurrentExpired(old(State()), now) else old(State())
    {
      var c := Record(profile.value.current);
      expired := false;
      if c.Some? && entries[c.value].status == Active && entries[c.value].expiresAt.Some? {
        var temporary := entries[c.value].changeType == "temporary_expansion" && now > entries[c.value].expiresAt.value;
        if temporary || now > GraceUntil(entries[c.value]) {
          AppendHistory(c.value, Expired, now, SCHEDULER,
                        if temporary then "temporary entitlement ended" else "entitlement validity ended");
          RestoreRollbackTarget(entries[c.value], now, SCHEDULER, "automatic rollback after entitlement expiry");
          expired := true;
        }
      }
    }

    method ActivateLatest(due: seq<nat>, now: real) returns (w: nat)
      requires profile.Some? && due != [] && forall i :: i in due <==> 0 <= i < |entries| && Due(entries[i], now)
      requires DistinctVersions(entries)
      modifies this
      ensures Winner(old(entries), now) == Some(w)
      ensures entries == SettledAll(old(entries), Find(old(entries), old(profile).value.current), w, now)
      ensures profile == Some(Profile(Some(old(entries)[w].id), old(profile).value.version + 1, now, SCHEDULER))
    {
      w := LatestOf(due, now);
      var id := entries[w].id;
      var c := Record(profile.value.current);
      SettleEntries(due, c, w, now);
      profile := Some(Profile(Some(id), profile.value.version + 1, now, SCHEDULER));
    }

    /** The incumbent makes way, then every due record is activated or superseded. */
    method SettleEntries(due: seq<nat>, c: Option<nat>, w: nat, now: real)
      requires forall i :: i in due <==> 0 <= i < |entries| && Due(entries[i], now)
      requires w in due && (c.Some? ==> c.value < |entries|)
      modifies `entries
      ensures entries == SettledAll(old(entries), c, w, now)
    {
      ghost var before := entries;
      if c.Some? && c.value != w && entries[c.value].status == Active {
        AppendHistory(c.value, Superseded, now, SCHEDULER, "scheduled entitlement " + entries[w].id + " activated");
      }
      SettleEach(due, w, now);
      forall i | 0 <= i < |before| ensures entries[i] == Settled(before, c, w, i, now) {
      }
    }

    method SettleEach(due: seq<nat>, w: nat, now: real)
      requires forall i :: i in due <==> 0 <= i < |entries| && Due(entries[i], now)
      modifies `entries
      ensures |entries| == |old(entries)|
      ensures forall i :: 0 <= i < |entries| ==>
                entries[i] == (if !Due(old(entries)[i], now) then old(entries)[i]
                               else Moved(old(entries)[i], if i == w then Active else Superseded, now, SCHEDULER,
                                          "scheduled entitlement reached its effective time"))
    {
      ghost var before := entries;
      for k := 0 to |due|
        invariant |entries| == |before|
        invariant forall i :: 0 <= i < |entries| && i !in due[..k] ==> entries[i] == before[i]
        invariant forall i :: 0 <= i < |entries| && i in due[..k] ==>
          entries[i] == Moved(before[i], if i == w then Active else Superseded, now, SCHEDULER,
                              "scheduled entitlement reached its effective time")
      {
        assert due[k] in due;
        assert due[..k + 1] == due[..k] + [due[k]];
        AppendHistory(due[k], if due[k] == w then Active else Superseded, now, SCHEDULER,
                      "scheduled entitlement reached its effective time");
      }
      assert due[..|due|] == due;
    }

    method CreateEntitlement(p: Proposal, actor: string, approvedBy: string, readAt: real, now: real)
      returns (error: Option<Error>)
      requires DistinctVersions(entries)
      modifies this
      ensures Outcome(State(), error) == Created(old(State()), p, actor, approvedBy, readAt, now)
    {
      if profile.None? {
        profile := Some(Profile(None, 1, readAt, "system"));
      }
      ReconciledProfile(State(), readAt);
      var _ := Reconcile(readAt);
      error := Refusal(State(), p, now);
      if error.Some? {
        return;
      }
      Insert(NewRecord(State(), p, actor, approvedBy, now), actor, now);
    }

    method Insert(record: Entitlement, actor: string, now: real)
      requires profile.Some?
      modifies this
      ensures State() == Inserted(old(State()), record, actor, now)
    {
      if record.status == Active {
        var c := Record(profile.value.current);
        if c.Some? && entries[c.value].status == Active {
          AppendHistory(c.value, Superseded, now, actor, "entitlement " + record.id + " activated");
        }
      }
      entries := entries + [record];
      if record.status == Active {
        profile := Some(Profile(Some(record.id), profile.value.version + 1, now, actor));
      }
    }

    method ChangeEntitlementStatus(a: Action, readAt: real, now: real, answeredAt: real) returns (error: Option<Error>)
      requires DistinctVersions(entries)
      modifies this
      ensures Outcome(State(), error) == Changed(old(State()), a, readAt, now, answeredAt)
    {
      ReconciledVersions(State(), readAt);
      var _ := Reconcile(readAt);
      DecidedVersions(State(), a, now);
      error := Decide(a, now);
      if error.None? {
        var _ := Reconcile(answeredAt);
      }
    }

    /** The checks of an action, and its effect, on a reconciled book. */
    method Decide(a: Action, now: real) returns (error: Option<Error>)
      modifies this
      ensures Outcome(State(), error) == Decided(old(State()), a, now)
    {
      if a.verb !in {"cancel", "revoke", "rollback"} {
        return Some(UnsupportedAction);
      }
      if a.reason == "" || a.approvedBy == "" {
        return Some(NoApproval);
      }
      var found := Record(Some(a.id));
      if found.None? || profile.None? {
        return Some(NoSuchEntitlement);
      }
      var i := found.value;
      if a.expectedVersion.Some? && a.expectedVersion.value != entries[i].recordVersion {
        return Some(VersionConflict);
      }
      if Mismatch(a.expectedCurrent, profile.value.current) {
        return Some(CurrentConflict);
      }
      error := Act(i, a, now);
      if error.None? {
        var e := entries[i];
        entries := entries[i := e.(recordVersion := e.recordVersion + 1, approvedBy := a.approvedBy)];
        profile := Some(profile.value.(version := profile.value.version + 1, updatedAt := now, updatedBy := a.actor));
      }
    }

    method Act(i: nat, a: Action, now: real) returns (error: Option<Error>)
      requires profile.Some? && i < |entries|
      modifies this
      ensures Outcome(State(), error) == Acted(old(State()), i, a, now)
    {
      if a.verb == "cancel" {
        if entries[i].status != Pending {
          return Some(NotPending);
        }
        AppendHistory(i, Revoked, now, a.actor, a.reason);
      } else if a.verb == "revoke" {
        if entries[i].status !in {Pending, Active} {
          return Some(NotRevocable);
        }
        var wasCurrent := profile.value.current == Some(a.id);
        AppendHistory(i, Revoked, now, a.actor, a.reason);
        if wasCurrent {
          RestoreRollbackTarget(entries[i], now, a.actor, "rollback after revocation: " + a.reason);
        }
      } else {
        if profile.value.current != Some(a.id) || entries[i].status != Active {
          return Some(NotCurrent);
        }
        var j: Option<nat> := None;
        if entries[i].rollbackTarget.Some? {
          j := Record(entries[i].rollbackTarget);
        }
        if j.None? || !Usable(entries[j.value], now) {
          return Some(TargetUnavailable);
        }
        AppendHistory(i, Superseded, now, a.actor, a.reason);
        RestoreRollbackTarget(entries[i], now, a.actor, a.reason);
      }
      error := None;
    }
  }

  /** Expiring the current entitlement touches nothing that is scheduled. */
  lemma ExpiryLeavesSchedule(b: Book, now: real)
    ensures CurrentOver(b, now) ==>
      forall i :: 0 <= i < |b.entries| ==>
        && (Reached(CurrentExpired(b, now).entries[i], now) <==> Reached(b.entries[i], now))
        && CurrentExpired(b, now).entries[i].version == b.entries[i].version
  {
  }

  lemma {:induction false} FindFirst(entries: seq<Entitlement>, id: Option<string>, i: nat)
    requires i < |entries| && Some(entries[i].id) == id && Find(entries[..i], id) == None
    ensures Find(entries, id) == Some(i)
  {
    if i < |entries| - 1 {
      assert entries[..|entries| - 1][..i] == entries[..i];
      FindFirst(entries[..|entries| - 1], id, i);
    }
  }
}
