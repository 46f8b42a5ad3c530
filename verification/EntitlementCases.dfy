/** Runs in which a property one would like fails: two passes that are needed, and a rollback undone
    by its own answer. */
module EntitlementCases {
  import opened Common
  import opened Entitlements
  import opened EntitlementRuns

  // ----- building runs -----

  /** An operation that reads the clock once. */
  function At(op: Op, t: real): Event {
    Event(op, t, t, t)
  }

  function Grant(id: string, startsAt: Option<real>, expiresAt: Option<real>, grace: int, kind: Option<string>,
                 caps: set<string>): Op {
    Create(Proposal(id, None, startsAt, expiresAt, grace, caps, kind, "agreed", None), "operator", "approver")
  }

  lemma RunSnoc(events: seq<Event>, ev: Event)
    ensures Run(events + [ev]) == After(Run(events), ev)
    ensures Proper(events + [ev]) <==> Proper(events) && Fits(Run(events), Clock(events), ev)
    ensures Clock(events + [ev]) == ev.answeredAt
  {
    assert (events + [ev])[..|events|] == events;
  }

  /** A pass with nothing to do does nothing. */
  lemma QuietPass(b: Book, now: real)
    requires b.profile.Some? && !Unsettled(b, now)
    ensures Reconciled(b, now) == b
  {
    NothingDue(b, now);
  }

  /** Creating in a book with nothing left to reconcile. */
  lemma QuietCreate(b: Book, p: Proposal, t: real)
    requires b.profile.Some? && !Unsettled(b, t) && Refusal(b, p, t).None?
    ensures Created(b, p, "operator", "approver", t, t).book ==
            Inserted(b, NewRecord(b, p, "operator", "approver", t), "operator", t)
  {
    QuietPass(b, t);
  }

  function Entry(id: string, start: real, expires: Option<real>, grace: nat, kind: string, target: Option<string>,
                 caps: set<string>, status: Status, history: seq<Move>, version: nat): Entitlement {
    Entitlement(id, start, expires, grace, kind, target, target, caps, status, history, version, 1, "approver")
  }

  function Opening(status: Status, at: real): Move {
    Move(None, status, at, "operator", "agreed")
  }

  // ----- a base licence -----

  function BaseRun(caps: set<string>): seq<Event> {
    [] + [At(Grant("a", None, None, 0, None, caps), 1.0)]
  }

  function BaseEntry(caps: set<string>): Entitlement {
    Entry("a", 1.0, None, 0, "new", None, caps, Active, [Opening(Active, 1.0)], 1)
  }

  lemma BaseState(caps: set<string>)
    requires caps != {}
    ensures Proper(BaseRun(caps)) && Clock(BaseRun(caps)) == 1.0
    ensures Run(BaseRun(caps)) == Book([BaseEntry(caps)], Some(Profile(Some("a"), 2, 1.0, "operator")))
  {
    var ev := At(Grant("a", None, None, 0, None, caps), 1.0);
    var blank := Book([], Some(Profile(None, 1, 1.0, "system")));
    RunSnoc([], ev);
    QuietPass(blank, 1.0);
    assert Opened(Book([], None), 1.0) == blank;
    assert Refusal(blank, ev.op.p, 1.0).None?;
  }

  // ----- two passes are needed -----

  /** A temporary expansion with grace is scheduled, and nobody looks until it has expired. */
  function LateRun(caps: set<string>): seq<Event> {
    BaseRun(caps) + [At(Grant("b", Some(2.0), Some(3.0), 10, Some("temporary_expansion"), caps), 1.0)]
  }

  function LateEntry(caps: set<string>): Entitlement {
    Entry("b", 2.0, Some(3.0), 10, "temporary_expansion", Some("a"), caps, Pending, [Opening(Pending, 1.0)], 2)
  }

  lemma LateState(caps: set<string>)
    requires caps != {}
    ensures Proper(LateRun(caps)) && Clock(LateRun(caps)) == 1.0
    ensures Run(LateRun(caps)) == Book([BaseEntry(caps), LateEntry(caps)], Some(Profile(Some("a"), 2, 1.0, "operator")))
  {
    var ev := At(Grant("b", Some(2.0), Some(3.0), 10, Some("temporary_expansion"), caps), 1.0);
    var b := Run(BaseRun(caps));
    BaseState(caps);
    RunSnoc(BaseRun(caps), ev);
    FindsA(b.entries);
    QuietCreate(b, ev.op.p, 1.0);
  }

  lemma FindsA(entries: seq<Entitlement>)
    requires |entries| > 0 && entries[0].id == "a"
    ensures Find(entries, Some("a")) == Some(0)
  {
    FindFirst(entries, Some("a"), 0);
  }

  /** One pass is not always enough, in a run the service can make: at time 6 the first pass activates
      the expansion that expired at time 3, and the second ends it. */
  lemma TwoPassesNeeded(caps: set<string>)
    requires caps != {}
    ensures Proper(LateRun(caps)) && Clock(LateRun(caps)) <= 6.0
    ensures Reconciled(Reconciled(Run(LateRun(caps)), 6.0), 6.0) != Reconciled(Run(LateRun(caps)), 6.0)
  {
    LateState(caps);
    RunKeeps(LateRun(caps));
    var b := Run(LateRun(caps));
    LateWinner(b.entries, caps);
    OnePassSettles(b, 1.0, 6.0);
  }

  lemma LateWinner(entries: seq<Entitlement>, caps: set<string>)
    requires entries == [BaseEntry(caps), LateEntry(caps)]
    ensures Winner(entries, 6.0) == Some(1)
  {
    assert Due(entries[1], 6.0) && !Due(entries[0], 6.0);
  }

  // ----- a rollback undone by its own answer -----

  /** A temporary expansion, replaced while it is in force. */
  function ReplacedRun(caps: set<string>): seq<Event> {
    BaseRun(caps)
    + [At(Grant("b", None, Some(3.0), 10, Some("temporary_expansion"), caps), 1.0)]
    + [At(Grant("c", None, None, 0, None, caps), 2.0)]
  }

  /** An immediate grant over an active current record. */
  lemma ReplacesCurrent(b: Book, e: Entitlement, i: nat, now: real)
    requires b.profile.Some? && Find(b.entries, b.profile.value.current) == Some(i)
    requires b.entries[i].status == Active && e.status == Active
    ensures Inserted(b, e, "operator", now) ==
            Book(b.entries[i := Overruled(b.entries[i], e.id, now)] + [e],
                 Some(Profile(Some(e.id), b.profile.value.version + 1, now, "operator")))
  {
  }

  function Overruled(e: Entitlement, successor: string, now: real): Entitlement {
    Moved(e, Superseded, now, "operator", "entitlement " + successor + " activated")
  }

  function ExpansionEntry(caps: set<string>): Entitlement {
    Entry("b", 1.0, Some(3.0), 10, "temporary_expansion", Some("a"), caps, Active, [Opening(Active, 1.0)], 2)
  }

  lemma ExpansionState(caps: set<string>)
    requires caps != {}
    ensures var run := BaseRun(caps) + [At(Grant("b", None, Some(3.0), 10, Some("temporary_expansion"), caps), 1.0)];
            && Proper(run) && Clock(run) == 1.0
            && Run(run) == Expanded(caps)
  {
    var ev := At(Grant("b", None, Some(3.0), 10, Some("temporary_expansion"), caps), 1.0);
    var b := Run(BaseRun(caps));
    BaseState(caps);
    RunSnoc(BaseRun(caps), ev);
    FindsA(b.entries);
    QuietCreate(b, ev.op.p, 1.0);
    ReplacesCurrent(b, ExpansionEntry(caps), 0, 1.0);
  }

  function ThirdEntry(caps: set<string>): Entitlement {
    Entry("c", 2.0, None, 0, "renewal", Some("b"), caps, Active, [Opening(Active, 2.0)], 3)
  }

  lemma FindsB(entries: seq<Entitlement>)
    requires |entries| > 1 && entries[0].id == "a" && entries[1].id == "b"
    ensures Find(entries, Some("b")) == Some(1)
  {
    assert entries[..1] == [entries[0]] && [entries[0]][..0] == [];
    assert Find([entries[0]], Some("b")) == None;
    FindFirst(entries, Some("b"), 1);
  }

  function Expanded(caps: set<string>): Book {
    Book([Overruled(BaseEntry(caps), "b", 1.0), ExpansionEntry(caps)], Some(Profile(Some("b"), 3, 1.0, "operator")))
  }

  function Replaced(caps: set<string>): Book {
    Book([Overruled(BaseEntry(caps), "b", 1.0), Overruled(ExpansionEntry(caps), "c", 2.0), ThirdEntry(caps)],
         Some(Profile(Some("c"), 4, 2.0, "operator")))
  }

  lemma RenewalAccepted(b: Book, p: Proposal, caps: set<string>)
    requires caps != {} && b == Expanded(caps) && p == Grant("c", None, None, 0, None, caps).p
    ensures !Unsettled(b, 2.0) && Refusal(b, p, 2.0).None?
    ensures NewRecord(b, p, "operator", "approver", 2.0) == ThirdEntry(caps)
  {
    FindsB(b.entries);
  }

  lemma RenewalReplaces(b: Book, ev: Event, caps: set<string>)
    requires caps != {} && b == Expanded(caps) && ev == At(Grant("c", None, None, 0, None, caps), 2.0)
    ensures Fits(b, 1.0, ev) && After(b, ev) == Replaced(caps)
  {
    FindsB(b.entries);
    RenewalAccepted(b, ev.op.p, caps);
    QuietCreate(b, ev.op.p, 2.0);
    ReplacesCurrent(b, ThirdEntry(caps), 1, 2.0);
  }

  lemma ReplacedState(caps: set<string>)
    requires caps != {}
    ensures Proper(ReplacedRun(caps)) && Clock(ReplacedRun(caps)) == 2.0
    ensures Run(ReplacedRun(caps)) == Replaced(caps)
  {
    var before := BaseRun(caps) + [At(Grant("b", None, Some(3.0), 10, Some("temporary_expansion"), caps), 1.0)];
    var ev := At(Grant("c", None, None, 0, None, caps), 2.0);
    ExpansionState(caps);
    RunSnoc(before, ev);
    RenewalReplaces(Run(before), ev, caps);
  }

  function RollBackC(): Action {
    Action("c", "rollback", "operator", "approver", "mistake", None, None)
  }

  lemma FindsC(entries: seq<Entitlement>)
    requires |entries| == 3 && entries[0].id == "a" && entries[1].id == "b" && entries[2].id == "c"
    ensures Find(entries, Some("c")) == Some(2) && Find(entries, Some("b")) == Some(1)
  {
    var early := Find(entries[..2], Some("c"));
    assert early.None?;
    FindFirst(entries, Some("c"), 2);
    FindsB(entries);
  }

  lemma RollbackAccepted(b: Book, caps: set<string>)
    requires b == Replaced(caps)
    ensures !Unsettled(b, 5.0) && TargetIndex(b, "c") == Some(1)
    ensures Decided(b, RollBackC(), 5.0).error.None? && TemporaryOver(b.entries[1], 5.0) && b.entries[1].id == "b"
  {
    FindsC(b.entries);
    assert Usable(b.entries[1], 5.0);
  }

  /** The rollback is accepted at time 5, after the expansion's expiry at time 3 but within its grace:
      it is saved as current, and the answer no longer shows it as current. */
  lemma RollbackUndone(caps: set<string>)
    requires caps != {}
    ensures Proper(ReplacedRun(caps)) && Clock(ReplacedRun(caps)) <= 5.0
    ensures var b := Run(ReplacedRun(caps));
            var o := Changed(b, RollBackC(), 5.0, 5.0, 5.0);
            && o.error.None? && RollbackDone(b, "c", Decided(b, RollBackC(), 5.0).book)
            && TargetIndex(b, "c") == Some(1)
            && o.book.profile.Some? && o.book.profile.value.current != Some(b.entries[1].id)
  {
    ReplacedState(caps);
    RunKeeps(ReplacedRun(caps));
    var b := Run(ReplacedRun(caps));
    RollbackAccepted(b, caps);
    QuietPass(b, 5.0);
    RollbackTakesEffect(b, RollBackC(), 2.0, 5.0, 5.0, 5.0);
  }
}
