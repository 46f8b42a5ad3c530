/** Crash consistency of the gallery: what a restart finds on disk against what
    memory held, after every operation, every file-operation failure and every run. */
module GalleryRecovery {
  import opened Common
  import opened GalleryLog
  import opened GalleryStore

  // ----- equality up to the time stamp -----

  ghost predicate SameRecord(a: Option<Person>, b: Option<Person>) {
    match (a, b)
    case (Some(p), Some(q)) => p.Unstamped() == q.Unstamped()
    case (None, None) => true
    case _ => false
  }

  ghost predicate Same(a: People, b: People) {
    forall k :: SameRecord(Lookup(a, k), Lookup(b, k))
  }

  ghost predicate SoundPeople(people: People) {
    forall k :: k in people ==> SoundRecord(k, people[k])
  }

  ghost predicate SoundRecord(k: GalleryKey, p: Person) {
    p.Key() == k && ValidPersonId(k.personId) && DistinctFeatures(p.features)
  }

  /** Lines as this service writes them. */
  ghost predicate SoundLine(e: Line) {
    && Written(e)
    && ValidPersonId(e.personId)
    && (e.op == "upsert_person" ==> DistinctFeatures(e.person.value.features))
  }

  ghost predicate SoundLog(lines: seq<Line>) {
    forall i :: 0 <= i < |lines| ==> SoundLine(lines[i])
  }

  ghost predicate Sound(s: System) {
    SoundPeople(s.people) && SoundPeople(s.durable.disk.snapshot) && SoundLog(s.durable.disk.wal)
  }

  /** The property the log exists for: a restart finds what memory holds. */
  ghost predicate Recoverable(cfg: Config, s: System) {
    Same(Recover(cfg, s.durable.disk), s.people)
  }

  /** uuid4: a new feature's id is not one the person already has. */
  ghost predicate FreshFeature(people: People, key: GalleryKey, op: Op) {
    op.AddFeature? && key in people ==> op.feature.featureId !in FeatureIds(people[key].features)
  }

  /** What a restart finds at one key. */
  function Found(cfg: Config, disk: Disk, k: GalleryKey): Option<Person> {
    if cfg.walEnabled then ReplayKey(Lookup(disk.snapshot, k), disk.wal, k) else Lookup(disk.snapshot, k)
  }

  lemma FoundIsRecovered(cfg: Config, disk: Disk, k: GalleryKey)
    ensures Found(cfg, disk, k) == Lookup(Recover(cfg, disk), k)
  {
    ReplayAtKey(disk.snapshot, disk.wal, k);
  }

  /** Disk and memory agree about one person. */
  ghost predicate Agrees(cfg: Config, s: System, k: GalleryKey) {
    SameRecord(Found(cfg, s.durable.disk, k), Lookup(s.people, k))
  }

  lemma AgreesEverywhere(cfg: Config, s: System)
    ensures Recoverable(cfg, s) <==> forall k :: Agrees(cfg, s, k)
  {
    forall k ensures Found(cfg, s.durable.disk, k) == Lookup(Recover(cfg, s.durable.disk), k) {
      FoundIsRecovered(cfg, s.durable.disk, k);
    }
    if Recoverable(cfg, s) {
      forall k ensures Agrees(cfg, s, k) {
        assert SameRecord(Lookup(Recover(cfg, s.durable.disk), k), Lookup(s.people, k));
      }
    }
    if forall k :: Agrees(cfg, s, k) {
      forall k ensures SameRecord(Lookup(Recover(cfg, s.durable.disk), k), Lookup(s.people, k)) {
        assert Agrees(cfg, s, k);
      }
    }
  }

  // ----- what a logged line does -----

  lemma RewriteRespectsSame(a: Option<Person>, b: Option<Person>, e: Line)
    requires Written(e) && SameRecord(a, b)
    ensures SameRecord(Rewrite(a, e), Rewrite(b, e))
  {
  }

  lemma {:induction false} ReplayRespectsSame(a: Option<Person>, b: Option<Person>, lines: seq<Line>, k: GalleryKey)
    requires WrittenLog(lines) && SameRecord(a, b)
    ensures SameRecord(ReplayKey(a, lines, k), ReplayKey(b, lines, k))
  {
    if lines != [] {
      ReplayRespectsSame(a, b, lines[..|lines| - 1], k);
      var e := lines[|lines| - 1];
      assert Written(e);
      if LineKey(e) == k {
        RewriteRespectsSame(ReplayKey(a, lines[..|lines| - 1], k), ReplayKey(b, lines[..|lines| - 1], k), e);
      }
    }
  }

  lemma IntendedRecord(people: People, found: Option<Person>, key: GalleryKey, op: Op, t: Times)
    requires Intended(people, key, op, t).Change? && FreshFeature(people, key, op)
    requires SameRecord(found, Lookup(people, key)) && SoundPeople(people)
    ensures var c := Intended(people, key, op, t);
            var now := Lookup(c.people, key);
            && SoundLine(c.line) && LineKey(c.line) == key
            && c.people == Put(people, key, now)
            && (now.Some? ==> SoundRecord(key, now.value))
            && SameRecord(Rewrite(found, c.line), now)
  {
    if key in people {
      assert SoundRecord(key, people[key]);
      if op.AddFeature? {
        WithoutNone(people[key].features, {op.feature.featureId});
        AppendDistinct(people[key].features, op.feature);
      }
    }
  }

  lemma PutSame(a: People, b: People, key: GalleryKey, o: Option<Person>, r: Option<Person>)
    requires Same(a, b) && SameRecord(o, r)
    ensures Same(Put(a, key, o), Put(b, key, r))
  {
    forall k ensures SameRecord(Lookup(Put(a, key, o), k), Lookup(Put(b, key, r), k)) {
      assert SameRecord(Lookup(a, k), Lookup(b, k));
    }
  }

  /** The line an operation logs, replayed over a matching state, gives the state the operation left in memory. */
  lemma IntendedLine(people: People, found: People, key: GalleryKey, op: Op, t: Times)
    requires Intended(people, key, op, t).Change? && FreshFeature(people, key, op)
    requires Same(found, people) && SoundPeople(people)
    ensures var c := Intended(people, key, op, t);
            && SoundLine(c.line) && LineKey(c.line) == key
            && SoundPeople(c.people)
            && Same(ApplyLine(found, c.line), c.people)
  {
    var c := Intended(people, key, op, t);
    assert SameRecord(Lookup(found, key), Lookup(people, key));
    IntendedRecord(people, Lookup(found, key), key, op, t);
    PutSame(found, people, key, Rewrite(Lookup(found, key), c.line), Lookup(c.people, key));
  }

  /** One key's record, rewritten into the snapshot under the old log, replays to itself. */
  lemma SnapshotAt(stored: Option<Person>, held: Option<Person>, wal: seq<Line>, k: GalleryKey)
    requires WrittenLog(wal) && SameRecord(ReplayKey(stored, wal, k), held)
    ensures SameRecord(ReplayKey(held, wal, k), held)
  {
    WrittenIsBased(wal);
    ReplayRespectsSame(held, ReplayKey(stored, wal, k), wal, k);
    ReplayKeyIdempotent(stored, wal, k);
  }

  /** Rewriting the snapshot from memory, with the old log still in place, changes nothing a restart would see. */
  lemma SnapshotOverOldLog(snapshot: People, people: People, wal: seq<Line>)
    requires WrittenLog(wal) && Same(Replay(snapshot, wal), people)
    ensures Same(Replay(people, wal), people)
  {
    forall k ensures SameRecord(Lookup(Replay(people, wal), k), Lookup(people, k)) {
      ReplayAtKey(snapshot, wal, k);
      ReplayAtKey(people, wal, k);
      assert SameRecord(Lookup(Replay(snapshot, wal), k), Lookup(people, k));
      SnapshotAt(Lookup(snapshot, k), Lookup(people, k), wal, k);
    }
  }

  lemma SameSymmetric(a: People, b: People)
    requires Same(a, b)
    ensures Same(b, a)
  {
    forall k ensures SameRecord(Lookup(b, k), Lookup(a, k)) {
      assert SameRecord(Lookup(a, k), Lookup(b, k));
    }
  }

  lemma SameTransitive(a: People, b: People, c: People)
    requires Same(a, b) && Same(b, c)
    ensures Same(a, c)
  {
    forall k ensures SameRecord(Lookup(a, k), Lookup(c, k)) {
      assert SameRecord(Lookup(a, k), Lookup(b, k)) && SameRecord(Lookup(b, k), Lookup(c, k));
    }
  }

  // ----- one persist call -----

  /** What a restart finds after one persist call, for every answer the file system can give. */
  function Survivor(cfg: Config, s: System, change: Change, io: Io): People
    requires change.Change?
  {
    var before, after := s.people, change.people;
    var due := CompactionDue(cfg, s.durable.counter);
    if !cfg.walEnabled then
      if io.writeOk then after else before
    else if !io.appendOk && cfg.failClosed then before
    else if io.appendOk then
      if due && !io.writeOk && !cfg.failClosed && io.unlinkOk then s.durable.disk.snapshot else after
    else if !due then before
    else if io.writeOk then
      if io.unlinkOk then after else Replay(after, s.durable.disk.wal)
    else if io.unlinkOk then s.durable.disk.snapshot
    else before
  }

  predicate Raises(cfg: Config, counter: int, io: Io) {
    && cfg.failClosed
    && (if cfg.walEnabled then !io.appendOk || (CompactionDue(cfg, counter) && !io.writeOk) else !io.writeOk)
  }

  lemma LogGrows(snapshot: People, people: People, wal: seq<Line>, line: Line, after: People)
    requires WrittenLog(wal) && Written(line)
    requires Same(Replay(snapshot, wal), people) && Same(ApplyLine(Replay(snapshot, wal), line), after)
    ensures Same(Replay(snapshot, wal + [line]), after) && Same(Replay(after, wal + [line]), after)
    ensures Same(Replay(after, []), after)
  {
    var longer := wal + [line];
    assert longer[..|wal|] == wal;
    assert WrittenLog(longer);
    SnapshotOverOldLog(snapshot, after, longer);
  }

  lemma CommitSurvivor(cfg: Config, s: System, key: GalleryKey, op: Op, t: Times, io: Io)
    requires Sound(s) && Recoverable(cfg, s) && FreshFeature(s.people, key, op)
    requires Intended(s.people, key, op, t).Change?
    ensures var c := Intended(s.people, key, op, t);
            var o := Step(cfg, s, key, op, t, io);
            && Same(Recover(cfg, o.system.durable.disk), Survivor(cfg, s, c, io))
            && o.reply == (if Raises(cfg, s.durable.counter, io) then StorageFailed else Done)
            && o.system.people == (if Raises(cfg, s.durable.counter, io) then s.people else c.people)
  {
    var c := Intended(s.people, key, op, t);
    IntendedLine(s.people, Recover(cfg, s.durable.disk), key, op, t);
    ChangeSurvivor(cfg, s, c, io);
  }

  lemma ChangeSurvivor(cfg: Config, s: System, c: Change, io: Io)
    requires c.Change? && Written(c.line) && WrittenLog(s.durable.disk.wal)
    requires Recoverable(cfg, s) && Same(ApplyLine(Recover(cfg, s.durable.disk), c.line), c.people)
    ensures var o := Commit(cfg, s, c, io);
            && Same(Recover(cfg, o.system.durable.disk), Survivor(cfg, s, c, io))
            && o.reply == (if Raises(cfg, s.durable.counter, io) then StorageFailed else Done)
            && o.system.people == (if Raises(cfg, s.durable.counter, io) then s.people else c.people)
  {
    var disk := s.durable.disk;
    assert Same(c.people, c.people) && Same(disk.snapshot, disk.snapshot);
    if cfg.walEnabled {
      LogGrows(disk.snapshot, s.people, disk.wal, c.line, c.people);
      assert Same(Replay(c.people, disk.wal), Replay(c.people, disk.wal));
      assert Replay(disk.snapshot, []) == disk.snapshot;
    }
  }

  /** With failing writes reported (fail closed), the one lossy case is a log line written
      before a compaction that then fails: memory is put back, the log is not. */
  predicate LateFailure(cfg: Config, counter: int, io: Io) {
    cfg.walEnabled && io.appendOk && CompactionDue(cfg, counter) && !io.writeOk
  }

  /** The operation asks for what is already there. */
  predicate NoOp(people: People, key: GalleryKey, op: Op) {
    key in people &&
    var p := people[key];
    match op
    case Upsert(name, metadata) =>
      (name.None? || name == p.displayName) && p.metadata + metadata.GetOr(map[]) == p.metadata
    case Patch(name, metadata) =>
      name.GetOr(p.displayName) == p.displayName && p.metadata + metadata.GetOr(map[]) == p.metadata
    case AddFeature(_) => false
    case Delete => false
  }

  lemma NoOpAt(people: People, key: GalleryKey, op: Op, t: Times)
    requires Intended(people, key, op, t).Change?
    ensures SameRecord(Lookup(Intended(people, key, op, t).people, key), Lookup(people, key)) <==> NoOp(people, key, op)
  {
    if op.AddFeature? {
      assert |Extended(people[key], op.feature, t.updated).features| != |people[key].features|;
    }
  }

  lemma NoOpIff(people: People, key: GalleryKey, op: Op, t: Times)
    requires Intended(people, key, op, t).Change?
    ensures Same(Intended(people, key, op, t).people, people) <==> NoOp(people, key, op)
  {
    var next := Intended(people, key, op, t).people;
    NoOpAt(people, key, op, t);
    if NoOp(people, key, op) {
      forall k ensures SameRecord(Lookup(next, k), Lookup(people, k)) {
      }
    } else {
      assert !SameRecord(Lookup(next, key), Lookup(people, key));
    }
  }

  /** Crash consistency of one operation, exactly: failing closed, agreement is lost if and only if a
      real change is logged and the compaction it triggers then fails. */
  lemma StepRecoverable(cfg: Config, s: System, key: GalleryKey, op: Op, t: Times, io: Io)
    requires cfg.failClosed && Sound(s) && Recoverable(cfg, s) && FreshFeature(s.people, key, op)
    ensures Recoverable(cfg, Step(cfg, s, key, op, t, io).system) <==>
            !(Intended(s.people, key, op, t).Change? && LateFailure(cfg, s.durable.counter, io)
              && !NoOp(s.people, key, op))
  {
    var c := Intended(s.people, key, op, t);
    if c.Change? {
      NoOpIff(s.people, key, op, t);
      CommitSurvivor(cfg, s, key, op, t, io);
      var o := Step(cfg, s, key, op, t, io);
      var found := Recover(cfg, o.system.durable.disk);
      if LateFailure(cfg, s.durable.counter, io) {
        if Same(found, s.people) {
          SameSymmetric(found, c.people);
          SameTransitive(c.people, found, s.people);
        }
        if Same(c.people, s.people) {
          SameTransitive(found, c.people, s.people);
        }
      }
    }
  }

  // ----- failing open -----

  /** Failing open, a compaction that could not write the snapshot still removes the log. */
  predicate LosesLog(cfg: Config, counter: int, io: Io) {
    cfg.walEnabled && CompactionDue(cfg, counter) && !io.writeOk && io.unlinkOk
  }

  /** The old log replayed over a snapshot that already holds the change leaves the change alone. */
  predicate LogAgrees(wal: seq<Line>, key: GalleryKey, op: Op) {
    !HasReset(wal, key) && (op.Upsert? || op.Patch? || Deltas(wal, key) == [])
  }

  /** The file-system answers that keep a change although failures are passed over. */
  predicate KeepsChange(cfg: Config, d: Durable, key: GalleryKey, op: Op, io: Io) {
    if !cfg.walEnabled then io.writeOk
    else if io.appendOk then true
    else CompactionDue(cfg, d.counter) && io.writeOk && (io.unlinkOk || LogAgrees(d.disk.wal, key, op))
  }

  lemma {:induction false} NothingForKey(o: Option<Person>, wal: seq<Line>, k: GalleryKey)
    requires WrittenLog(wal) && !HasReset(wal, k) && Deltas(wal, k) == []
    ensures ReplayKey(o, wal, k) == o
  {
    if wal != [] {
      var init, e := wal[..|wal| - 1], wal[|wal| - 1];
      assert Written(e);
      assert forall i :: 0 <= i < |init| ==> init[i] == wal[i];
      NoReset(wal, k);
      NothingForKey(o, init, k);
    }
  }

  lemma SomethingForKey(wal: seq<Line>, k: GalleryKey)
    requires WrittenLog(wal) && !HasReset(wal, k)
    ensures ReplayKey(None, wal, k) == None <==> Deltas(wal, k) == []
  {
    WrittenIsBased(wal);
    var base := ReplayFromBase(wal, k);
    if base.Some? {
      ReplayMerges(base.value, wal, k);
    }
    if Deltas(wal, k) == [] {
      NothingForKey(None, wal, k);
    }
  }

  /** Features the log holds stay in place over what they already produced; a new one would move in front of them. */
  lemma NewFeatureMoves(fs: seq<Feature>, deltas: seq<Feature>, f: Feature)
    requires Merge(fs, deltas) == fs && f.featureId !in FeatureIds(fs)
    ensures Merge(fs + [f], deltas) == fs + [f] <==> deltas == []
  {
    if deltas != [] {
      var moved := Merge([], deltas);
      MergeSplits(fs + [f], deltas);
      MergeSplits(fs, deltas);
      MergeIds(deltas);
      var all := Without(fs + [f], FeatureIds(deltas)) + moved;
      assert moved[|moved| - 1] == deltas[|deltas| - 1];
      assert all[|all| - 1] == deltas[|deltas| - 1] && fs[|fs| - 1] == deltas[|deltas| - 1];
    }
  }

  /** An old log over a snapshot that holds the change, at the changed key. */
  lemma OldLogOverChange(stored: Option<Person>, people: People, wal: seq<Line>, key: GalleryKey, op: Op, t: Times)
    requires WrittenLog(wal) && Intended(people, key, op, t).Change? && FreshFeature(people, key, op)
    requires SameRecord(ReplayKey(stored, wal, key), Lookup(people, key))
    ensures var now := Lookup(Intended(people, key, op, t).people, key);
            SameRecord(ReplayKey(now, wal, key), now) <==> LogAgrees(wal, key, op) || NoOp(people, key, op)
  {
    var now, was := Lookup(Intended(people, key, op, t).people, key), Lookup(people, key);
    NoOpAt(people, key, op, t);
    if HasReset(wal, key) {
      ResetForgets(now, stored, wal, key);
    } else {
      SnapshotAt(stored, was, wal, key);
      SomethingForKey(wal, key);
      if was.Some? {
        ReplayMerges(was.value, wal, key);
      }
      if now.Some? {
        ReplayMerges(now.value, wal, key);
        if op.AddFeature? {
          NewFeatureMoves(was.value.features, Deltas(wal, key), op.feature);
        }
      }
    }
  }

  /** A failed append followed by a rewritten snapshot whose log stays. */
  lemma SnapshotUnderOldLog(s: System, key: GalleryKey, op: Op, t: Times)
    requires Sound(s) && Same(Replay(s.durable.disk.snapshot, s.durable.disk.wal), s.people)
    requires Intended(s.people, key, op, t).Change? && FreshFeature(s.people, key, op)
    ensures var next := Intended(s.people, key, op, t).people;
            Same(Replay(next, s.durable.disk.wal), next) <==>
            LogAgrees(s.durable.disk.wal, key, op) || NoOp(s.people, key, op)
  {
    var next, wal, snapshot := Intended(s.people, key, op, t).people, s.durable.disk.wal, s.durable.disk.snapshot;
    forall k ensures SameRecord(ReplayKey(Lookup(snapshot, k), wal, k), Lookup(s.people, k)) {
      ReplayAtKey(snapshot, wal, k);
      assert SameRecord(Lookup(Replay(snapshot, wal), k), Lookup(s.people, k));
    }
    OldLogOverChange(Lookup(snapshot, key), s.people, wal, key, op, t);
    ReplayAtKey(next, wal, key);
    if SameRecord(ReplayKey(Lookup(next, key), wal, key), Lookup(next, key)) {
      forall k ensures SameRecord(Lookup(Replay(next, wal), k), Lookup(next, k)) {
        ReplayAtKey(next, wal, k);
        if k != key {
          SnapshotAt(Lookup(snapshot, k), Lookup(s.people, k), wal, k);
        }
      }
    } else {
      assert !SameRecord(Lookup(Replay(next, wal), key), Lookup(next, key));
    }
  }

  /** Failing writes that are only logged (fail open): an operation leaves disk and memory in agreement
      if and only if the file system's answers keep the change, or the change asked for nothing, or,
      where the log was thrown away, the old snapshot happens to hold the result already. */
  lemma StepRecoverableFailOpen(cfg: Config, s: System, key: GalleryKey, op: Op, t: Times, io: Io)
    requires !cfg.failClosed && Sound(s) && Recoverable(cfg, s) && FreshFeature(s.people, key, op)
    requires Intended(s.people, key, op, t).Change?
    ensures Recoverable(cfg, Step(cfg, s, key, op, t, io).system) <==>
            if LosesLog(cfg, s.durable.counter, io)
            then Same(s.durable.disk.snapshot, Intended(s.people, key, op, t).people)
            else KeepsChange(cfg, s.durable, key, op, io) || NoOp(s.people, key, op)
  {
    var c := Intended(s.people, key, op, t);
    CommitSurvivor(cfg, s, key, op, t, io);
    var found := Recover(cfg, Step(cfg, s, key, op, t, io).system.durable.disk);
    var kept := Survivor(cfg, s, c, io);
    if Same(found, c.people) {
      SameSymmetric(found, kept);
      SameTransitive(kept, found, c.people);
    }
    if Same(kept, c.people) {
      SameTransitive(found, kept, c.people);
    }
    SurvivorKept(cfg, s, key, op, t, io);
  }

  lemma SurvivorKept(cfg: Config, s: System, key: GalleryKey, op: Op, t: Times, io: Io)
    requires !cfg.failClosed && Sound(s) && Recoverable(cfg, s) && FreshFeature(s.people, key, op)
    requires Intended(s.people, key, op, t).Change?
    ensures var c := Intended(s.people, key, op, t);
            Same(Survivor(cfg, s, c, io), c.people) <==>
            if LosesLog(cfg, s.durable.counter, io) then Same(s.durable.disk.snapshot, c.people)
            else KeepsChange(cfg, s.durable, key, op, io) || NoOp(s.people, key, op)
  {
    var c := Intended(s.people, key, op, t);
    NoOpIff(s.people, key, op, t);
    if Same(c.people, s.people) {
      SameSymmetric(c.people, s.people);
    }
    if Same(s.people, c.people) {
      SameSymmetric(s.people, c.people);
    }
    assert Same(c.people, c.people);
    if cfg.walEnabled {
      SnapshotUnderOldLog(s, key, op, t);
    }
  }

  // ----- crashes inside an operation -----

  /** The operation logs the whole record, or its removal. */
  predicate Rewrites(op: Op) {
    !op.AddFeature?
  }

  /** The disk state passed through recovers, for person k, to the record the operation was making:
      unless failing open has thrown the log away, or a snapshot was rewritten under an old log the
      change is missing from. */
  ghost predicate PointKeeps(cfg: Config, s: System, key: GalleryKey, op: Op, t: Times, io: Io, i: nat, k: GalleryKey)
  {
    var d := s.durable;
    if LosesAt(cfg, d, io, i, |Step(cfg, s, key, op, t, io).points|) then
      SameRecord(Lookup(d.disk.snapshot, k), Lookup(Intended(s.people, key, op, t).people, k))
    else if MissesLine(cfg, io, i) && k == key then LogAgrees(d.disk.wal, key, op) || NoOp(s.people, key, op)
    else true
  }

  /** The last of n disk states, without the log and without the snapshot that should have replaced it. */
  predicate LosesAt(cfg: Config, d: Durable, io: Io, i: nat, n: nat) {
    !cfg.failClosed && LosesLog(cfg, d.counter, io) && i + 1 == n
  }

  /** The first disk state, a new snapshot over a log that could not be appended to. */
  predicate MissesLine(cfg: Config, io: Io, i: nat) {
    cfg.walEnabled && !io.appendOk && i == 0
  }

  /** A restart from the disk state passed through finds the record the operation was making exactly if
      the state keeps it. */
  ghost predicate RecoversIffKept(
    cfg: Config, s: System, key: GalleryKey, op: Op, t: Times, io: Io, i: nat, k: GalleryKey)
    requires i < |Step(cfg, s, key, op, t, io).points| && Intended(s.people, key, op, t).Change?
  {
    var now, seen := Lookup(Intended(s.people, key, op, t).people, k), Step(cfg, s, key, op, t, io).points[i];
    SameRecord(Found(cfg, seen, k), now) <==> PointKeeps(cfg, s, key, op, t, io, i, k)
  }

  /** The whole record of the person, or its removal, reaches the log or the snapshot. */
  predicate RewritesAt(cfg: Config, key: GalleryKey, op: Op, io: Io, k: GalleryKey) {
    k == key && Rewrites(op) && (cfg.failClosed || !cfg.walEnabled || io.appendOk)
  }

  /** A crash inside an operation, seen from one person, failing closed or open: when disk and memory
      agreed about them before, or the operation rewrites them. */
  lemma PointAgrees(cfg: Config, s: System, key: GalleryKey, op: Op, t: Times, io: Io, i: nat, k: GalleryKey)
    requires Sound(s) && FreshFeature(s.people, key, op)
    requires i < |Step(cfg, s, key, op, t, io).points|
    requires Agrees(cfg, s, k) || RewritesAt(cfg, key, op, io, k)
    ensures Intended(s.people, key, op, t).Change?
    ensures RecoversIffKept(cfg, s, key, op, t, io, i, k)
  {
    var c, disk := Intended(s.people, key, op, t), s.durable.disk;
    AppendPoints(cfg, s.durable, c.people, c.line, io, i);
    if cfg.walEnabled && !LosesAt(cfg, s.durable, io, i, |Step(cfg, s, key, op, t, io).points|) {
      if MissesLine(cfg, io, i) {
        LineMissed(s, key, op, t, k);
      } else {
        LineLogged(s, key, op, t, k, Lookup(disk.snapshot, k));
        LineLogged(s, key, op, t, k, Lookup(c.people, k));
      }
    }
  }

  /** Failing closed, no point loses anything. */
  lemma ClosedKeeps(cfg: Config, s: System, key: GalleryKey, op: Op, t: Times, io: Io, i: nat, k: GalleryKey)
    requires cfg.failClosed && i < |Step(cfg, s, key, op, t, io).points|
    ensures PointKeeps(cfg, s, key, op, t, io, i, k)
  {
  }

  /** The new snapshot under the old log, at one key. */
  lemma LineMissed(s: System, key: GalleryKey, op: Op, t: Times, k: GalleryKey)
    requires Sound(s) && FreshFeature(s.people, key, op) && Intended(s.people, key, op, t).Change?
    requires SameRecord(ReplayKey(Lookup(s.durable.disk.snapshot, k), s.durable.disk.wal, k), Lookup(s.people, k))
    ensures var now, wal := Lookup(Intended(s.people, key, op, t).people, k), s.durable.disk.wal;
            SameRecord(ReplayKey(now, wal, k), now) <==>
            (k == key ==> LogAgrees(wal, key, op) || NoOp(s.people, key, op))
  {
    var stored, wal := Lookup(s.durable.disk.snapshot, k), s.durable.disk.wal;
    if k == key {
      OldLogOverChange(stored, s.people, wal, key, op, t);
    } else {
      SnapshotAt(stored, Lookup(s.people, k), wal, k);
    }
  }

  /** The logged line at one key, over the stored record and over the new one. */
  lemma LineLogged(s: System, key: GalleryKey, op: Op, t: Times, k: GalleryKey, o: Option<Person>)
    requires Sound(s) && FreshFeature(s.people, key, op) && Intended(s.people, key, op, t).Change?
    requires var c := Intended(s.people, key, op, t);
             var stored := Lookup(s.durable.disk.snapshot, k);
             || (k == key && Rewrites(op))
             || (SameRecord(ReplayKey(stored, s.durable.disk.wal, k), Lookup(s.people, k))
                 && (o == stored || o == Lookup(c.people, k)))
    ensures var c := Intended(s.people, key, op, t);
            SameRecord(ReplayKey(o, s.durable.disk.wal + [c.line], k), Lookup(c.people, k))
  {
    var c, wal := Intended(s.people, key, op, t), s.durable.disk.wal;
    var stored, now := Lookup(s.durable.disk.snapshot, k), Lookup(c.people, k);
    assert Same(s.people, s.people);
    IntendedLine(s.people, s.people, key, op, t);
    ReplayKeyAppend(o, wal, c.line, k);
    if !(k == key && Rewrites(op)) {
      ReplayKeyAppend(stored, wal, c.line, k);
      if k == key {
        IntendedRecord(s.people, ReplayKey(stored, wal, k), key, op, t);
      }
      assert WrittenLog(wal + [c.line]);
      SnapshotAt(stored, now, wal + [c.line], k);
    }
  }

  /** Whatever point a crash interrupts an operation at, the disk recovers to the state the operation was
      making; failing open, exactly when it does so for every person. */
  lemma CrashPoint(cfg: Config, s: System, key: GalleryKey, op: Op, t: Times, io: Io, i: nat)
    requires Sound(s) && Recoverable(cfg, s) && FreshFeature(s.people, key, op)
    requires i < |Step(cfg, s, key, op, t, io).points|
    ensures Intended(s.people, key, op, t).Change?
    ensures Same(Recover(cfg, Step(cfg, s, key, op, t, io).points[i]), Intended(s.people, key, op, t).people) <==>
            forall k :: PointKeeps(cfg, s, key, op, t, io, i, k)
    ensures cfg.failClosed ==> forall k :: PointKeeps(cfg, s, key, op, t, io, i, k)
  {
    var seen, next := Step(cfg, s, key, op, t, io).points[i], Intended(s.people, key, op, t).people;
    AgreesEverywhere(cfg, s);
    forall k
      ensures SameRecord(Lookup(Recover(cfg, seen), k), Lookup(next, k)) <==> PointKeeps(cfg, s, key, op, t, io, i, k)
      ensures cfg.failClosed ==> PointKeeps(cfg, s, key, op, t, io, i, k)
    {
      assert Agrees(cfg, s, k);
      FoundIsRecovered(cfg, seen, k);
      PointAgrees(cfg, s, key, op, t, io, i, k);
      if cfg.failClosed {
        ClosedKeeps(cfg, s, key, op, t, io, i, k);
      }
    }
    if Same(Recover(cfg, seen), next) {
      forall k ensures PointKeeps(cfg, s, key, op, t, io, i, k) {
        assert SameRecord(Lookup(Recover(cfg, seen), k), Lookup(next, k));
      }
    }
    if forall k :: PointKeeps(cfg, s, key, op, t, io, i, k) {
      forall k ensures SameRecord(Lookup(Recover(cfg, seen), k), Lookup(next, k)) {
        assert PointKeeps(cfg, s, key, op, t, io, i, k);
      }
    }
  }

  lemma AppendPoints(cfg: Config, d: Durable, people: People, line: Line, io: Io, i: nat)
    requires i < |Append(cfg, d, people, line, io).points|
    ensures var points := Append(cfg, d, people, line, io).points;
            if !cfg.walEnabled then points[i].snapshot == people
            else if LosesAt(cfg, d, io, i, |points|) then points[i] == Disk(d.disk.snapshot, [])
            else if MissesLine(cfg, io, i) then !cfg.failClosed && points[i] == Disk(people, d.disk.wal)
            else
              || (io.appendOk && points[i] == Disk(d.disk.snapshot, d.disk.wal + [line]))
              || (io.appendOk && points[i] == Disk(people, d.disk.wal + [line]))
              || points[i] == Disk(people, [])
  {
  }

  /** An operation ends at the last disk state it passed through, if it passed through any. */
  lemma LastPoint(cfg: Config, d: Durable, people: People, line: Line, io: Io)
    ensures var a := Append(cfg, d, people, line, io);
            && a.durable.disk == (if a.points == [] then d.disk else a.points[|a.points| - 1])
            && (a.raised <==> Raises(cfg, d.counter, io))
            && (a.points == [] <==> NoPoints(cfg, d.counter, io))
  {
  }

  /** The files stay untouched. */
  predicate NoPoints(cfg: Config, counter: int, io: Io) {
    if !cfg.walEnabled then !io.writeOk
    else !io.appendOk && (cfg.failClosed || !CompactionDue(cfg, counter) || (!io.writeOk && !io.unlinkOk))
  }

  // ----- soundness is kept -----

  lemma LineSound(people: People, e: Line)
    requires SoundPeople(people) && SoundLine(e)
    ensures SoundPeople(ApplyLine(people, e))
  {
    if e.op == "upsert_feature" {
      MovedDistinct(if LineKey(e) in people then people[LineKey(e)].features else [], e.feature.value);
    }
  }

  lemma {:induction false} ReplaySound(people: People, lines: seq<Line>)
    requires SoundPeople(people) && SoundLog(lines)
    ensures SoundPeople(Replay(people, lines))
  {
    if lines != [] {
      var init, e := lines[..|lines| - 1], lines[|lines| - 1];
      assert forall i :: 0 <= i < |init| ==> init[i] == lines[i];
      ReplaySound(people, init);
      assert SoundLine(e);
      LineSound(Replay(people, init), e);
    }
  }

  lemma {:induction false} WithoutDistinct(fs: seq<Feature>, ids: set<string>)
    requires DistinctFeatures(fs)
    ensures DistinctFeatures(Without(fs, ids))
  {
    if fs != [] && fs[|fs| - 1].featureId !in ids {
      var init, last := fs[..|fs| - 1], fs[|fs| - 1];
      WithoutDistinct(init, ids);
      WithoutIds(init, ids);
      AppendDistinct(Without(init, ids), last);
    } else if fs != [] {
      WithoutDistinct(fs[..|fs| - 1], ids);
    }
  }

  lemma AppendDistinct(fs: seq<Feature>, f: Feature)
    requires DistinctFeatures(fs) && f.featureId !in FeatureIds(fs)
    ensures DistinctFeatures(fs + [f])
  {
    assert forall i :: 0 <= i < |fs| ==> fs[i].featureId in FeatureIds(fs);
  }

  lemma MovedDistinct(fs: seq<Feature>, f: Feature)
    requires DistinctFeatures(fs)
    ensures DistinctFeatures(Without(fs, {f.featureId}) + [f])
  {
    WithoutDistinct(fs, {f.featureId});
    WithoutIds(fs, {f.featureId});
    AppendDistinct(Without(fs, {f.featureId}), f);
  }

  lemma AppendSound(cfg: Config, d: Durable, people: People, line: Line, io: Io)
    requires SoundPeople(people) && SoundPeople(d.disk.snapshot) && SoundLog(d.disk.wal) && SoundLine(line)
    ensures var disk := Append(cfg, d, people, line, io).durable.disk;
            SoundPeople(disk.snapshot) && SoundLog(disk.wal)
  {
    assert SoundLog(d.disk.wal + [line]);
  }

  lemma StepSound(cfg: Config, s: System, key: GalleryKey, op: Op, t: Times, io: Io)
    requires Sound(s) && FreshFeature(s.people, key, op)
    ensures Sound(Step(cfg, s, key, op, t, io).system)
  {
    var c := Intended(s.people, key, op, t);
    if c.Change? {
      assert Same(s.people, s.people);
      IntendedLine(s.people, s.people, key, op, t);
      AppendSound(cfg, s.durable, c.people, c.line, io);
    }
  }

  // ----- runs -----

  datatype Event =
    | Call(key: GalleryKey, op: Op, t: Times, io: Io)
    | Restart  // the process dies between calls and a new one reads the files

  function After(cfg: Config, s: System, ev: Event): System {
    match ev
    case Call(key, op, t, io) => Step(cfg, s, key, op, t, io).system
    case Restart => Restarted(cfg, s)
  }

  function Run(cfg: Config, events: seq<Event>): System {
    if events == [] then System(map[], Durable(Disk(map[], []), 0))
    else After(cfg, Run(cfg, events[..|events| - 1]), events[|events| - 1])
  }

  ghost predicate FreshRun(cfg: Config, events: seq<Event>) {
    forall i :: 0 <= i < |events| && events[i].Call? ==>
      FreshFeature(Run(cfg, events[..i]).people, events[i].key, events[i].op)
  }

  /** The call rewrites the snapshot and removes the log. */
  predicate Compacts(cfg: Config, counter: int, io: Io) {
    && io.writeOk
    && (cfg.walEnabled ==> io.unlinkOk && CompactionDue(cfg, counter) && (io.appendOk || !cfg.failClosed))
  }

  lemma CompactionHeals(cfg: Config, s: System, key: GalleryKey, op: Op, t: Times, io: Io)
    requires Intended(s.people, key, op, t).Change? && Compacts(cfg, s.durable.counter, io)
    ensures Recoverable(cfg, Step(cfg, s, key, op, t, io).system)
  {
    var people := Intended(s.people, key, op, t).people;
    assert Replay(people, []) == people;
    assert Same(people, people);
  }

  lemma {:induction false} RunSound(cfg: Config, events: seq<Event>)
    requires FreshRun(cfg, events)
    ensures Sound(Run(cfg, events))
  {
    if events != [] {
      var init, ev := events[..|events| - 1], events[|events| - 1];
      FreshPrefix(cfg, events);
      RunSound(cfg, init);
      var s := Run(cfg, init);
      match ev
      case Call(key, op, t, io) => StepSound(cfg, s, key, op, t, io);
      case Restart => ReplaySound(s.durable.disk.snapshot, s.durable.disk.wal);
    }
  }

  lemma FreshPrefix(cfg: Config, events: seq<Event>)
    requires FreshRun(cfg, events) && events != []
    ensures FreshRun(cfg, events[..|events| - 1])
    ensures events[|events| - 1].Call? ==>
      FreshFeature(Run(cfg, events[..|events| - 1]).people, events[|events| - 1].key, events[|events| - 1].op)
  {
    var init := events[..|events| - 1];
    forall i | 0 <= i < |init| && init[i].Call?
      ensures FreshFeature(Run(cfg, init[..i]).people, init[i].key, init[i].op)
    {
      assert init[..i] == events[..i] && init[i] == events[i];
    }
  }

  /** The call makes disk and memory agree about person k whatever went before: it compacts, or it
      logs the whole record of k (or its removal), is accepted, and keeps the log. */
  predicate Heals(cfg: Config, s: System, key: GalleryKey, op: Op, t: Times, io: Io, k: GalleryKey) {
    var counter := s.durable.counter;
    Intended(s.people, key, op, t).Change?
    && (Compacts(cfg, counter, io)
        || (k == key && Rewrites(op)
            && if cfg.failClosed then !Raises(cfg, counter, io)
               else cfg.walEnabled && io.appendOk && !LosesLog(cfg, counter, io)))
  }

  /** The call makes disk and memory disagree about person k. Failing closed: it leaves a change of k in
      the log that memory took back. Failing open: it throws the log away and the old snapshot holds
      something else of k, or its change of k reaches neither log nor snapshot. */
  ghost predicate Spoils(cfg: Config, s: System, key: GalleryKey, op: Op, t: Times, io: Io, k: GalleryKey) {
    var c, d := Intended(s.people, key, op, t), s.durable;
    c.Change?
    && if cfg.failClosed then k == key && LateFailure(cfg, d.counter, io) && !NoOp(s.people, key, op)
       else if LosesLog(cfg, d.counter, io) then !SameRecord(Lookup(d.disk.snapshot, k), Lookup(c.people, k))
       else k == key && !KeepsChange(cfg, d, key, op, io) && !NoOp(s.people, key, op)
  }

  /** A failure that concerns person k is outstanding. */
  ghost predicate Tainted(cfg: Config, events: seq<Event>, k: GalleryKey) {
    if events == [] then false
    else
      var before := Run(cfg, events[..|events| - 1]);
      match events[|events| - 1]
      case Restart => false
      case Call(key, op, t, io) =>
        !Heals(cfg, before, key, op, t, io, k)
        && (Tainted(cfg, events[..|events| - 1], k) || Spoils(cfg, before, key, op, t, io, k))
  }

  /** The last disk state, failing open: it keeps person k exactly unless the call spoils them. */
  lemma LastKeeps(cfg: Config, s: System, key: GalleryKey, op: Op, t: Times, io: Io, k: GalleryKey)
    requires !cfg.failClosed && Step(cfg, s, key, op, t, io).points != []
    ensures var last := |Step(cfg, s, key, op, t, io).points| - 1;
            PointKeeps(cfg, s, key, op, t, io, last, k) <==> !Spoils(cfg, s, key, op, t, io, k)
  {
  }

  /** Nothing reaches the files: memory keeps the change if and only if failing open. */
  lemma QuietStep(cfg: Config, s: System, key: GalleryKey, op: Op, t: Times, io: Io, k: GalleryKey)
    requires Intended(s.people, key, op, t).Change? && Step(cfg, s, key, op, t, io).points == []
    requires Agrees(cfg, s, k)
    ensures Agrees(cfg, Step(cfg, s, key, op, t, io).system, k) <==> !Spoils(cfg, s, key, op, t, io, k)
  {
    var c := Intended(s.people, key, op, t);
    LastPoint(cfg, s.durable, c.people, c.line, io);
    NoOpAt(s.people, key, op, t);
  }

  /** One operation, seen from one person: where disk and memory agree they go on agreeing exactly
      unless the call spoils it. */
  lemma StepAgrees(cfg: Config, s: System, key: GalleryKey, op: Op, t: Times, io: Io, k: GalleryKey)
    requires Sound(s) && FreshFeature(s.people, key, op) && Agrees(cfg, s, k)
    ensures Agrees(cfg, Step(cfg, s, key, op, t, io).system, k) <==> !Spoils(cfg, s, key, op, t, io, k)
  {
    var c, n := Intended(s.people, key, op, t), |Step(cfg, s, key, op, t, io).points|;
    if c.Change? && n == 0 {
      QuietStep(cfg, s, key, op, t, io, k);
    } else if c.Change? {
      LastPoint(cfg, s.durable, c.people, c.line, io);
      PointAgrees(cfg, s, key, op, t, io, n - 1, k);
      if cfg.failClosed {
        ClosedKeeps(cfg, s, key, op, t, io, n - 1, k);
        NoOpAt(s.people, key, op, t);
      } else {
        LastKeeps(cfg, s, key, op, t, io, k);
      }
    }
  }

  lemma StepHeals(cfg: Config, s: System, key: GalleryKey, op: Op, t: Times, io: Io, k: GalleryKey)
    requires Sound(s) && FreshFeature(s.people, key, op) && Heals(cfg, s, key, op, t, io, k)
    ensures Agrees(cfg, Step(cfg, s, key, op, t, io).system, k)
  {
    var c, o := Intended(s.people, key, op, t), Step(cfg, s, key, op, t, io);
    if Compacts(cfg, s.durable.counter, io) {
      CompactionHeals(cfg, s, key, op, t, io);
      AgreesEverywhere(cfg, o.system);
    } else {
      LastPoint(cfg, s.durable, c.people, c.line, io);
      PointAgrees(cfg, s, key, op, t, io, |o.points| - 1, k);
    }
  }

  lemma SoundLoads(people: People)
    requires SoundPeople(people)
    ensures Loadable(people) == people
  {
    forall k | k in people ensures ValidPersonId(people[k].personId) {
      assert SoundRecord(k, people[k]);
    }
  }

  /** Over every run of calls, restarts and file-operation failures, failing closed or open, and for
      every person: unless a failure that concerns them is outstanding, a restart finds what memory holds
      of them. An accepted upsert, patch or delete, a completed compaction or a restart clears it. */
  lemma {:induction false} RunAgrees(cfg: Config, events: seq<Event>, k: GalleryKey)
    requires FreshRun(cfg, events) && !Tainted(cfg, events, k)
    ensures Agrees(cfg, Run(cfg, events), k)
  {
    if events != [] {
      var init, ev := events[..|events| - 1], events[|events| - 1];
      FreshPrefix(cfg, events);
      RunSound(cfg, init);
      var s := Run(cfg, init);
      match ev {
        case Restart =>
          ReplaySound(s.durable.disk.snapshot, s.durable.disk.wal);
          SoundLoads(Recover(cfg, s.durable.disk));
          FoundIsRecovered(cfg, s.durable.disk, k);
        case Call(key, op, t, io) =>
          if Heals(cfg, s, key, op, t, io, k) {
            StepHeals(cfg, s, key, op, t, io, k);
          } else {
            RunAgrees(cfg, init, k);
            StepAgrees(cfg, s, key, op, t, io, k);
          }
      }
    }
  }

  /** With nobody tainted, a restart finds exactly what memory holds. */
  lemma RunRecoverable(cfg: Config, events: seq<Event>)
    requires FreshRun(cfg, events) && forall k :: !Tainted(cfg, events, k)
    ensures Recoverable(cfg, Run(cfg, events))
  {
    forall k ensures Agrees(cfg, Run(cfg, events), k) {
      RunAgrees(cfg, events, k);
    }
    AgreesEverywhere(cfg, Run(cfg, events));
  }

  /** A crash inside the last call of any run, for every untainted person: before the first write a
      restart finds them as they were, at any disk state passed through as the call was making them,
      exactly where that state keeps them -- which failing closed it always does. */
  lemma CrashAnywhere(cfg: Config, events: seq<Event>, key: GalleryKey, op: Op, t: Times, io: Io, i: nat, k: GalleryKey)
    requires FreshRun(cfg, events) && !Tainted(cfg, events, k)
    requires FreshFeature(Run(cfg, events).people, key, op)
    ensures var s := Run(cfg, events);
            && SameRecord(Found(cfg, s.durable.disk, k), Lookup(s.people, k))
            && (i < |Step(cfg, s, key, op, t, io).points| ==>
                  && Intended(s.people, key, op, t).Change?
                  && RecoversIffKept(cfg, s, key, op, t, io, i, k)
                  && (cfg.failClosed ==> PointKeeps(cfg, s, key, op, t, io, i, k)))
  {
    RunSound(cfg, events);
    RunAgrees(cfg, events, k);
    var s := Run(cfg, events);
    if i < |Step(cfg, s, key, op, t, io).points| {
      PointAgrees(cfg, s, key, op, t, io, i, k);
      if cfg.failClosed {
        ClosedKeeps(cfg, s, key, op, t, io, i, k);
      }
    }
  }

  // ----- handles that outlived their record -----

  /** When adding a feature through a dead handle does no harm: nothing was written and memory was not
      changed either; the line was compacted away at once; or the refused call filed a record equal to
      the one already there. */
  ghost predicate StrayHarmless(cfg: Config, s: System, handle: Person, io: Io) {
    var refiled := SameRecord(Lookup(s.people, handle.Key()), Some(handle));
    if !cfg.walEnabled then io.writeOk || !cfg.failClosed || refiled
    else if !io.appendOk && cfg.failClosed then refiled
    else if CompactionDue(cfg, s.durable.counter) && io.unlinkOk then
      io.writeOk || (!cfg.failClosed && Same(s.durable.disk.snapshot, s.people))
    else !io.appendOk
  }

  /** The replay of a stray feature line cannot match a record without that feature. */
  lemma StrayLineShows(base: Option<Person>, wal: seq<Line>, handle: Person, f: Feature, t: Times, held: Option<Person>)
    requires ValidPersonId(handle.personId)
    requires held.Some? ==> f.featureId !in FeatureIds(held.value.features)
    ensures var line := FeatureLine(Extended(handle, f, t.updated), f, t.logged);
            !SameRecord(ReplayKey(base, wal + [line], handle.Key()), held)
  {
    var k, line := handle.Key(), FeatureLine(Extended(handle, f, t.updated), f, t.logged);
    ReplayKeyAppend(base, wal, line, k);
    var before := ReplayKey(base, wal, k);
    FeatureIdsAppend(Without(if before.Some? then before.value.features else [], {f.featureId}), f);
  }

  lemma Refiled(people: People, handle: Person)
    ensures Same(people, people[handle.Key() := handle]) <==> SameRecord(Lookup(people, handle.Key()), Some(handle))
  {
    var next := people[handle.Key() := handle];
    if Same(people, next) {
      assert SameRecord(Lookup(people, handle.Key()), Lookup(next, handle.Key()));
    }
    if SameRecord(Lookup(people, handle.Key()), Some(handle)) {
      forall k ensures SameRecord(Lookup(people, k), Lookup(next, k)) {
      }
    }
  }

  /** Adding a feature through a handle whose record is no longer the filed one: an accepted call logs a
      feature memory does not have; a refused one files the dead record in memory although the files
      know nothing of it. For every configuration and every answer of the file system, disk and memory
      stay in agreement exactly in the harmless cases. */
  lemma StrayHandle(cfg: Config, s: System, handle: Person, f: Feature, t: Times, io: Io)
    requires Sound(s) && Recoverable(cfg, s) && ValidPersonId(handle.personId)
    requires f.featureId !in FeatureIds(handle.features)
    requires forall k :: k in s.people ==> f.featureId !in FeatureIds(s.people[k].features)
    ensures var o := StrayAdd(cfg, s, handle, f, t, io);
            && o.reply == (if Raises(cfg, s.durable.counter, io) then StorageFailed else Done)
            && o.system.people == (if o.reply.Done? then s.people else s.people[handle.Key() := handle])
            && (Recoverable(cfg, o.system) <==> StrayHarmless(cfg, s, handle, io))
  {
    var o := StrayAdd(cfg, s, handle, f, t, io);
    var line := FeatureLine(Extended(handle, f, t.updated), f, t.logged);
    var k, disk := handle.Key(), s.durable.disk;
    var after := o.system.durable.disk;
    if cfg.walEnabled && after.wal == disk.wal + [line] {
      StrayLineShows(Lookup(after.snapshot, k), disk.wal, handle, f, t, Lookup(o.system.people, k));
      FoundIsRecovered(cfg, after, k);
      assert !SameRecord(Lookup(Recover(cfg, after), k), Lookup(o.system.people, k));
    } else {
      StrayUnlogged(cfg, s, handle, f, t, io);
    }
  }

  lemma SameAsNext(found: People, people: People, next: People)
    requires Same(found, people)
    ensures Same(found, next) <==> Same(people, next)
  {
    if Same(found, next) {
      SameSymmetric(found, people);
      SameTransitive(people, found, next);
    }
    if Same(people, next) {
      SameTransitive(found, people, next);
    }
  }

  lemma StrayUnlogged(cfg: Config, s: System, handle: Person, f: Feature, t: Times, io: Io)
    requires Sound(s) && Recoverable(cfg, s)
    requires var line := FeatureLine(Extended(handle, f, t.updated), f, t.logged);
             || !cfg.walEnabled
             || StrayAdd(cfg, s, handle, f, t, io).system.durable.disk.wal != s.durable.disk.wal + [line]
    ensures Recoverable(cfg, StrayAdd(cfg, s, handle, f, t, io).system) <==> StrayHarmless(cfg, s, handle, io)
  {
    var disk := s.durable.disk;
    assert Same(s.people, s.people);
    Refiled(s.people, handle);
    SameAsNext(Recover(cfg, disk), s.people, s.people[handle.Key() := handle]);
    if cfg.walEnabled {
      SnapshotOverOldLog(disk.snapshot, s.people, disk.wal);
      assert Replay(s.people, []) == s.people && Replay(disk.snapshot, []) == disk.snapshot;
    }
  }

  // ----- cases that go wrong -----

  const ALL_OK := Io(true, true, true)
  const MIDNIGHT := Times(0.0, 0.0, 0.0)
  const SOMEBODY := GalleryKey("t", "p")

  function Somebody(): Person {
    Created(SOMEBODY, None, None, MIDNIGHT)
  }

  /** One upsert whose compaction cannot write the snapshot. */
  function LateFailureRun(): seq<Event> {
    [Call(SOMEBODY, Upsert(None, None), MIDNIGHT, Io(true, false, true))]
  }

  lemma FirstEvent(cfg: Config, ev: Event)
    ensures Run(cfg, [ev]) == After(cfg, System(map[], Durable(Disk(map[], []), 0)), ev)
    ensures FreshRun(cfg, [ev])
  {
    assert [ev][..0] == [];
  }

  /** Failing closed, the refused upsert is gone from memory, and back after a restart. */
  lemma LateFailureShows()
    ensures var cfg := Config(true, 1, true);
            && FreshRun(cfg, LateFailureRun()) && Run(cfg, LateFailureRun()).people == map[]
            && SOMEBODY in Recover(cfg, Run(cfg, LateFailureRun()).durable.disk)
            && !Recoverable(cfg, Run(cfg, LateFailureRun()))
  {
    var cfg := Config(true, 1, true);
    FirstEvent(cfg, LateFailureRun()[0]);
    var s := Run(cfg, LateFailureRun());
    var line := PersonLine(Somebody(), 0.0);
    assert s.durable.disk == Disk(map[], [] + [line]);
    ReplayAtKey(map[], [] + [line], SOMEBODY);
    ReplayKeyAppend(None, [], line, SOMEBODY);
    assert !SameRecord(Lookup(Recover(cfg, s.durable.disk), SOMEBODY), Lookup(s.people, SOMEBODY));
  }

  /** Failing open, the same upsert is accepted and held in memory, and the files hold nothing any more. */
  lemma FailOpenLosesTheLog()
    ensures var cfg := Config(true, 1, false);
            var s := Run(cfg, LateFailureRun());
            && FreshRun(cfg, LateFailureRun()) && SOMEBODY in s.people
            && Recover(cfg, s.durable.disk) == map[] && !Recoverable(cfg, s)
  {
    var cfg := Config(true, 1, false);
    FirstEvent(cfg, LateFailureRun()[0]);
    var s := Run(cfg, LateFailureRun());
    assert s.people == map[SOMEBODY := Somebody()] && s.durable.disk == Disk(map[], []);
    assert !SameRecord(Lookup(Recover(cfg, s.durable.disk), SOMEBODY), Lookup(s.people, SOMEBODY));
  }

  /** A person is created and deleted while somebody keeps the handle. */
  function DeletedRun(): seq<Event> {
    [Call(SOMEBODY, Upsert(None, None), MIDNIGHT, ALL_OK), Call(SOMEBODY, Delete, MIDNIGHT, ALL_OK)]
  }

  lemma DeletedState(cfg: Config)
    requires cfg == Config(true, 0, true)
    ensures FreshRun(cfg, DeletedRun())
    ensures Run(cfg, DeletedRun()) ==
            System(map[], Durable(Disk(map[], [PersonLine(Somebody(), 0.0), DeleteLine(SOMEBODY, 0.0)]), 2))
    ensures Sound(Run(cfg, DeletedRun())) && Recoverable(cfg, Run(cfg, DeletedRun()))
  {
    var r := DeletedRun();
    assert r[..1] == [r[0]] && r[..0] == [];
    FirstEvent(cfg, r[0]);
    var s1 := Run(cfg, [r[0]]);
    assert s1.people == map[SOMEBODY := Somebody()];
    assert s1.durable.disk.wal == [PersonLine(Somebody(), 0.0)];
    assert Run(cfg, r).people == map[];
    assert Run(cfg, r).durable.disk.wal == [PersonLine(Somebody(), 0.0)] + [DeleteLine(SOMEBODY, 0.0)];
    RunSound(cfg, r);
    forall k ensures !Tainted(cfg, r, k) {
      assert !Tainted(cfg, [r[0]], k) by {
        assert [r[0]][..0] == [];
      }
    }
    RunRecoverable(cfg, r);
  }

  /** The handle of the deleted person: an accepted feature comes back after a restart, a refused one
      brings the person back into memory only. */
  lemma StrayHandleShows(f: Feature)
    ensures var cfg := Config(true, 0, true);
            var s := Run(cfg, DeletedRun());
            var accepted := StrayAdd(cfg, s, Somebody(), f, MIDNIGHT, ALL_OK);
            var refused := StrayAdd(cfg, s, Somebody(), f, MIDNIGHT, Io(false, true, true));
            && FreshRun(cfg, DeletedRun()) && Recoverable(cfg, s)
            && accepted.reply == Done && SOMEBODY !in accepted.system.people && !Recoverable(cfg, accepted.system)
            && refused.reply == StorageFailed && SOMEBODY in refused.system.people && !Recoverable(cfg, refused.system)
  {
    var cfg := Config(true, 0, true);
    DeletedState(cfg);
    var s := Run(cfg, DeletedRun());
    StrayHandle(cfg, s, Somebody(), f, MIDNIGHT, ALL_OK);
    StrayHandle(cfg, s, Somebody(), f, MIDNIGHT, Io(false, true, true));
  }
}
