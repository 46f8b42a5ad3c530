/** Compensation for a gallery mutation that failed half-way: the person is put back to an
    earlier copy, in memory and in the log, by deleting, re-inserting and re-appending every feature. */
module GalleryMutations {
  import opened Common
  import opened GalleryLog
  import opened GalleryStore
  import opened GalleryRecovery

  datatype RollbackError = CleanupFailed(message: string) | DeleteEmptyFailed | DeleteMutatedFailed | RestoreFailed

  /** The file system's answers and the clock, by persist call: 0 deletes, 1 re-inserts, 2 + i re-appends feature i. */
  type Answers = nat -> Io
  type Clock = nat -> real

  datatype Restored = Restored(durable: Durable, errors: seq<RollbackError>)

  function Reappend(cfg: Config, d: Durable, people: People, p: Person, i: nat, io: Answers, at: Clock): Restored
    requires i <= |p.features|
    decreases |p.features| - i
  {
    if i == |p.features| then Restored(d, [])
    else
      var saved := Append(cfg, d, people, FeatureLine(p, p.features[i], at(2 + i)), io(2 + i));
      if saved.raised then Restored(saved.durable, [RestoreFailed])
      else Reappend(cfg, saved.durable, people, p, i + 1, io, at)
  }

  function Reinsert(cfg: Config, d: Durable, people: People, p: Person, io: Answers, at: Clock): Restored {
    var saved := Append(cfg, d, people, PersonLine(p, at(1)), io(1));
    if saved.raised then Restored(saved.durable, [RestoreFailed])
    else Reappend(cfg, saved.durable, people, p, 0, io, at)
  }

  function Restore(cfg: Config, s: System, key: GalleryKey, previous: Option<Person>, io: Answers, at: Clock): Restored
  {
    var deleted := Append(cfg, s.durable, s.people - {key}, DeleteLine(key, at(0)), io(0));
    match previous
    case None => Restored(deleted.durable, if deleted.raised then [DeleteEmptyFailed] else [])
    case Some(p) =>
      var r := Reinsert(cfg, deleted.durable, s.people[key := p], p, io, at);
      Restored(r.durable, (if deleted.raised then [DeleteMutatedFailed] else []) + r.errors)
  }

  /** Persists the copy already filed in memory: the record, then each feature in order. */
  method PersistCopy(gallery: Gallery, p: Person, io: Answers, at: Clock) returns (raised: bool)
    requires gallery.Valid()
    modifies gallery`snapshot, gallery`wal, gallery`counter, gallery`trail
    ensures gallery.Valid() && gallery.View() == old(gallery.View())
    ensures Restored(gallery.Files(), if raised then [RestoreFailed] else [])
         == Reinsert(gallery.cfg, old(gallery.Files()), gallery.View(), p, io, at)
  {
    ghost var people := gallery.View();
    raised := gallery.AppendGalleryWal(PersonLine(p, at(1)), io(1));
    var i := 0;
    while !raised && i < |p.features|
      invariant i <= |p.features| && gallery.Valid() && gallery.View() == people
      invariant Reinsert(gallery.cfg, old(gallery.Files()), people, p, io, at)
             == if raised then Restored(gallery.Files(), [RestoreFailed])
                else Reappend(gallery.cfg, gallery.Files(), people, p, i, io, at)
      decreases |p.features| - i
    {
      raised := gallery.AppendGalleryWal(FeatureLine(p, p.features[i], at(2 + i)), io(2 + i));
      i := i + 1;
    }
  }

  method FileCopy(gallery: Gallery, p: Person)
    requires gallery.Valid()
    modifies gallery`people
    ensures gallery.Valid() && gallery.View() == old(gallery.View())[p.Key() := p]
  {
    var restored := new PersonRecord(p);
    assert restored.Key() == restored.Value().Key();
    gallery.people := gallery.people[p.Key() := restored];
    gallery.ViewEdited(p.Key());
  }

  method RestoreGalleryPersonSnapshot(gallery: Gallery, key: GalleryKey, previous: Option<Person>,
                                      io: Answers, at: Clock)
    returns (errors: seq<RollbackError>)
    requires gallery.Valid() && (previous.Some? ==> previous.value.Key() == key)
    modifies gallery
    ensures gallery.Valid() && gallery.View() == Put(old(gallery.View()), key, previous)
    ensures Restored(gallery.Files(), errors) == Restore(gallery.cfg, old(gallery.State()), key, previous, io, at)
  {
    errors := [];
    gallery.people := gallery.people - {key};
    assert gallery.View() == old(gallery.View()) - {key};
    var raised := gallery.AppendGalleryWal(DeleteLine(key, at(0)), io(0));
    if previous.None? {
      errors := if raised then [DeleteEmptyFailed] else [];
      return;
    }
    if raised {
      errors := [DeleteMutatedFailed];
    }
    FileCopy(gallery, previous.value);
    assert gallery.View() == old(gallery.View())[key := previous.value];
    raised := PersistCopy(gallery, previous.value, io, at);
    if raised {
      errors := errors + [RestoreFailed];
    }
  }

  /** Created objects are cleaned up newest first, then the person is restored; any error is raised.
      `cleanups` is what cleaning up each object answers, oldest object first. */
  method RollbackGalleryMutation(gallery: Gallery, key: GalleryKey, previous: Option<Person>,
                                 cleanups: seq<Option<string>>, io: Answers, at: Clock)
    returns (raised: bool, errors: seq<RollbackError>)
    requires gallery.Valid() && (previous.Some? ==> previous.value.Key() == key)
    modifies gallery
    ensures gallery.Valid() && gallery.View() == Put(old(gallery.View()), key, previous)
    ensures var r := Restore(gallery.cfg, old(gallery.State()), key, previous, io, at);
            gallery.Files() == r.durable && errors == CleanupErrors(cleanups) + r.errors
    ensures raised <==> errors != []
  {
    errors := [];
    var i := |cleanups|;
    while i > 0
      invariant 0 <= i <= |cleanups|
      invariant errors == CleanupErrors(cleanups[i..])
    {
      i := i - 1;
      if cleanups[i].Some? {
        errors := errors + [CleanupFailed(cleanups[i].value)];
      }
    }
    assert cleanups[0..] == cleanups;
    var more := RestoreGalleryPersonSnapshot(gallery, key, previous, io, at);
    errors := errors + more;
    raised := errors != [];
  }

  /** The error of each object that could not be removed, newest object first. */
  function CleanupErrors(cleanups: seq<Option<string>>): seq<RollbackError> {
    if cleanups == [] then []
    else CleanupErrors(cleanups[1..]) + if cleanups[0].Some? then [CleanupFailed(cleanups[0].value)] else []
  }

  // ----- what the files recover to -----

  /** A persist call that did not raise did what it was asked: failures are reported, or there were none. */
  predicate Honest(cfg: Config, io: Io) {
    cfg.failClosed || (io.appendOk && io.writeOk)
  }

  predicate AllHonest(cfg: Config, io: Answers, n: nat) {
    forall i :: 0 <= i < n ==> Honest(cfg, io(i))
  }

  /** Lines for one person leave every other person's recovery alone, compaction included. */
  lemma AppendElsewhere(cfg: Config, d: Durable, people: People, line: Line, io: Io, k: GalleryKey)
    requires WrittenLog(d.disk.wal) && Written(line) && LineKey(line) != k
    requires SameRecord(Found(cfg, d.disk, k), Lookup(people, k))
    requires Honest(cfg, io) && !Append(cfg, d, people, line, io).raised
    ensures SameRecord(Found(cfg, Append(cfg, d, people, line, io).durable.disk, k), Lookup(people, k))
  {
    if cfg.walEnabled {
      var stored := Lookup(d.disk.snapshot, k);
      assert WrittenLog(d.disk.wal + [line]);
      ReplayKeyAppend(stored, d.disk.wal, line, k);
      SnapshotAt(stored, Lookup(people, k), d.disk.wal + [line], k);
    }
  }

  lemma AppendWritten(cfg: Config, d: Durable, people: People, line: Line, io: Io)
    requires WrittenLog(d.disk.wal) && Written(line)
    ensures WrittenLog(Append(cfg, d, people, line, io).durable.disk.wal)
  {
    assert WrittenLog(d.disk.wal + [line]);
  }

  /** Re-appending is under way: the first i features are in place, the rest are still to be moved behind them. */
  ghost predicate Partial(o: Option<Person>, p: Person, i: nat)
    requires i <= |p.features|
  {
    && o.Some?
    && o.value.Unstamped() == p.(features := o.value.features).Unstamped()
    && Without(o.value.features, FeatureIds(p.features[i..])) == p.features[..i]
  }

  lemma WholeIsPartial(p: Person, i: nat)
    requires DistinctFeatures(p.features) && i <= |p.features|
    ensures Partial(Some(p), p, i)
  {
    var head, tail := p.features[..i], p.features[i..];
    assert p.features == head + tail;
    WithoutConcat(head, tail, FeatureIds(tail));
    WithoutNone(head, FeatureIds(tail));
    WithoutEvery(tail, FeatureIds(tail));
  }

  lemma PartialAdvances(o: Option<Person>, p: Person, i: nat, at: real)
    requires i < |p.features| && DistinctFeatures(p.features) && Partial(o, p, i)
    ensures Partial(Rewrite(o, FeatureLine(p, p.features[i], at)), p, i + 1)
  {
    var f, fs, rest := p.features[i], o.value.features, FeatureIds(p.features[i + 1..]);
    var kept := Without(fs, {f.featureId});
    assert FeatureIds(p.features[i..]) == {f.featureId} + rest by {
      FeatureIdsCons(f, p.features[i + 1..]);
      assert p.features[i..] == [f] + p.features[i + 1..];
    }
    calc {
      Without(kept + [f], rest);
      { WithoutConcat(kept, [f], rest); }
      Without(kept, rest) + Without([f], rest);
      { WithoutTwice(fs, {f.featureId}, rest); }
      p.features[..i] + Without([f], rest);
      { WithoutNone([f], rest); }
      p.features[..i] + [f];
      p.features[..i + 1];
    }
  }

  lemma FeatureIdsCons(f: Feature, fs: seq<Feature>)
    ensures FeatureIds([f] + fs) == {f.featureId} + FeatureIds(fs)
  {
    var all := [f] + fs;
    forall id | id in {f.featureId} + FeatureIds(fs) ensures id in FeatureIds(all) {
      if id == f.featureId {
        assert all[0] == f;
      } else {
        var i :| 0 <= i < |fs| && fs[i].featureId == id;
        assert all[i + 1] == fs[i];
      }
    }
  }

  /** Holds of the files whether or not the snapshot has been rewritten from memory since. */
  ghost predicate Underway(cfg: Config, disk: Disk, p: Person, i: nat)
    requires i <= |p.features|
  {
    if cfg.walEnabled then
      && Partial(ReplayKey(Lookup(disk.snapshot, p.Key()), disk.wal, p.Key()), p, i)
      && Partial(ReplayKey(Some(p), disk.wal, p.Key()), p, i)
    else Lookup(disk.snapshot, p.Key()) == Some(p)
  }

  lemma ReinsertStarts(cfg: Config, d: Durable, people: People, p: Person, io: Io, at: real)
    requires Lookup(people, p.Key()) == Some(p) && p.personId != "" && DistinctFeatures(p.features)
    requires Honest(cfg, io) && !Append(cfg, d, people, PersonLine(p, at), io).raised
    ensures Underway(cfg, Append(cfg, d, people, PersonLine(p, at), io).durable.disk, p, 0)
  {
    var k, line := p.Key(), PersonLine(p, at);
    WholeIsPartial(p, 0);
    ReplayKeyAppend(Lookup(d.disk.snapshot, k), d.disk.wal, line, k);
    ReplayKeyAppend(Some(p), d.disk.wal, line, k);
  }

  lemma ReappendAdvances(cfg: Config, d: Durable, people: People, p: Person, i: nat, io: Io, at: real)
    requires Lookup(people, p.Key()) == Some(p) && p.personId != "" && DistinctFeatures(p.features)
    requires i < |p.features| && Underway(cfg, d.disk, p, i)
    requires Honest(cfg, io) && !Append(cfg, d, people, FeatureLine(p, p.features[i], at), io).raised
    ensures Underway(cfg, Append(cfg, d, people, FeatureLine(p, p.features[i], at), io).durable.disk, p, i + 1)
  {
    var k, line := p.Key(), FeatureLine(p, p.features[i], at);
    WholeIsPartial(p, i + 1);
    if cfg.walEnabled {
      ReplayKeyAppend(Lookup(d.disk.snapshot, k), d.disk.wal, line, k);
      ReplayKeyAppend(Some(p), d.disk.wal, line, k);
      PartialAdvances(ReplayKey(Lookup(d.disk.snapshot, k), d.disk.wal, k), p, i, at);
      PartialAdvances(ReplayKey(Some(p), d.disk.wal, k), p, i, at);
    }
  }

  lemma {:induction false} ReappendRestores(cfg: Config, d: Durable, people: People, p: Person, i: nat,
                                            io: Answers, at: Clock, k: GalleryKey)
    requires Lookup(people, p.Key()) == Some(p) && p.personId != "" && DistinctFeatures(p.features)
    requires i <= |p.features| && Underway(cfg, d.disk, p, i) && WrittenLog(d.disk.wal)
    requires k != p.Key() ==> SameRecord(Found(cfg, d.disk, k), Lookup(people, k))
    requires AllHonest(cfg, io, 2 + |p.features|) && Reappend(cfg, d, people, p, i, io, at).errors == []
    ensures SameRecord(Found(cfg, Reappend(cfg, d, people, p, i, io, at).durable.disk, k), Lookup(people, k))
    decreases |p.features| - i
  {
    if i == |p.features| {
      if k == p.Key() && cfg.walEnabled {
        var o := ReplayKey(Lookup(d.disk.snapshot, k), d.disk.wal, k);
        assert FeatureIds(p.features[i..]) == {};
        WithoutNone(o.value.features, {});
        assert p.features[..i] == p.features;
      }
    } else {
      var line := FeatureLine(p, p.features[i], at(2 + i));
      var saved := Append(cfg, d, people, line, io(2 + i));
      ReappendAdvances(cfg, d, people, p, i, io(2 + i), at(2 + i));
      AppendWritten(cfg, d, people, line, io(2 + i));
      if k != p.Key() {
        AppendElsewhere(cfg, d, people, line, io(2 + i), k);
      }
      ReappendRestores(cfg, saved.durable, people, p, i + 1, io, at, k);
    }
  }

  /** How many persist calls a restore makes. */
  function Calls(previous: Option<Person>): nat {
    match previous
    case None => 1
    case Some(p) => 2 + |p.features|
  }

  /** The compensation theorem: when no hook reports an error, and none was passed over silently, a
      restart finds exactly the restored memory -- the earlier copy (or nothing) at the key, every other
      person as before -- whatever compactions and failed log removals happened on the way. */
  lemma RestoreRecovers(cfg: Config, s: System, key: GalleryKey, previous: Option<Person>, io: Answers, at: Clock)
    requires Sound(s) && ValidPersonId(key.personId) && AllHonest(cfg, io, Calls(previous))
    requires previous.Some? ==> SoundRecord(key, previous.value)
    requires forall k :: k != key ==> Agrees(cfg, s, k)
    requires Restore(cfg, s, key, previous, io, at).errors == []
    ensures Same(Recover(cfg, Restore(cfg, s, key, previous, io, at).durable.disk), Put(s.people, key, previous))
  {
    var r := Restore(cfg, s, key, previous, io, at);
    forall k ensures SameRecord(Lookup(Recover(cfg, r.durable.disk), k), Lookup(Put(s.people, key, previous), k)) {
      assert k != key ==> Agrees(cfg, s, k);
      FoundIsRecovered(cfg, r.durable.disk, k);
      RestoreFinds(cfg, s, key, previous, io, at, k);
    }
  }

  /** After the delete: nothing at the key, everybody else as before. */
  lemma DeleteFinds(cfg: Config, s: System, key: GalleryKey, io: Io, at: real, k: GalleryKey)
    requires Sound(s) && ValidPersonId(key.personId) && Honest(cfg, io)
    requires k != key ==> Agrees(cfg, s, k)
    requires !Append(cfg, s.durable, s.people - {key}, DeleteLine(key, at), io).raised
    ensures var deleted := Append(cfg, s.durable, s.people - {key}, DeleteLine(key, at), io).durable;
            WrittenLog(deleted.disk.wal) && SameRecord(Found(cfg, deleted.disk, k), Lookup(s.people - {key}, k))
  {
    var bare, line := s.people - {key}, DeleteLine(key, at);
    AppendWritten(cfg, s.durable, bare, line, io);
    if k != key {
      AppendElsewhere(cfg, s.durable, bare, line, io, k);
    } else {
      ReplayKeyAppend(Lookup(s.durable.disk.snapshot, key), s.durable.disk.wal, line, key);
      ReplayKeyAppend(None, s.durable.disk.wal, line, key);
    }
  }

  /** From there, re-inserting and re-appending the copy. */
  lemma ReinsertFinds(cfg: Config, d: Durable, people: People, p: Person, io: Answers, at: Clock, k: GalleryKey)
    requires Lookup(people, p.Key()) == Some(p) && ValidPersonId(p.personId) && DistinctFeatures(p.features)
    requires WrittenLog(d.disk.wal) && AllHonest(cfg, io, 2 + |p.features|)
    requires k != p.Key() ==> SameRecord(Found(cfg, d.disk, k), Lookup(people, k))
    requires Reinsert(cfg, d, people, p, io, at).errors == []
    ensures SameRecord(Found(cfg, Reinsert(cfg, d, people, p, io, at).durable.disk, k), Lookup(people, k))
  {
    var line := PersonLine(p, at(1));
    var inserted := Append(cfg, d, people, line, io(1));
    assert Honest(cfg, io(1));
    AppendWritten(cfg, d, people, line, io(1));
    ReinsertStarts(cfg, d, people, p, io(1), at(1));
    if k != p.Key() {
      AppendElsewhere(cfg, d, people, line, io(1), k);
    }
    ReappendRestores(cfg, inserted.durable, people, p, 0, io, at, k);
  }

  lemma RestoreFinds(cfg: Config, s: System, key: GalleryKey, previous: Option<Person>, io: Answers, at: Clock,
                     k: GalleryKey)
    requires Sound(s) && ValidPersonId(key.personId) && AllHonest(cfg, io, Calls(previous))
    requires previous.Some? ==> SoundRecord(key, previous.value)
    requires k != key ==> Agrees(cfg, s, k)
    requires Restore(cfg, s, key, previous, io, at).errors == []
    ensures SameRecord(Found(cfg, Restore(cfg, s, key, previous, io, at).durable.disk, k),
                       Lookup(Put(s.people, key, previous), k))
  {
    assert Honest(cfg, io(0));
    DeleteFinds(cfg, s, key, io(0), at(0), k);
    if previous.Some? {
      var deleted := Append(cfg, s.durable, s.people - {key}, DeleteLine(key, at(0)), io(0));
      ReinsertFinds(cfg, deleted.durable, s.people[key := previous.value], previous.value, io, at, k);
    }
  }

  /** Why the copy's features must have distinct ids: re-appending them all is the identity exactly then. */
  lemma ReappendIdentity(fs: seq<Feature>)
    ensures Merge(fs, fs) == fs <==> DistinctFeatures(fs)
  {
    MergeSplits(fs, fs);
    WithoutEvery(fs, FeatureIds(fs));
    MergeDistinct(fs);
    if DistinctFeatures(fs) {
      MergeOfDistinct(fs);
    }
  }

  lemma {:induction false} MergeDistinct(deltas: seq<Feature>)
    ensures DistinctFeatures(Merge([], deltas))
  {
    if deltas != [] {
      MergeDistinct(deltas[..|deltas| - 1]);
      MovedDistinct(Merge([], deltas[..|deltas| - 1]), deltas[|deltas| - 1]);
    }
  }

  lemma {:induction false} MergeOfDistinct(deltas: seq<Feature>)
    requires DistinctFeatures(deltas)
    ensures Merge([], deltas) == deltas
  {
    if deltas != [] {
      var init, d := deltas[..|deltas| - 1], deltas[|deltas| - 1];
      MergeOfDistinct(init);
      WithoutNone(init, {d.featureId});
      assert deltas == init + [d];
    }
  }

  // ----- a restore that stops half-way -----

  /** The features after i of them were re-appended, the last j.. since the log was last cut. */
  function Shifted(fs: seq<Feature>, j: nat, i: nat): seq<Feature>
    requires j <= i <= |fs|
  {
    fs[..j] + fs[i..] + fs[j..i]
  }

  /** How far re-appending came: where the log was last cut, and how many features are logged. */
  datatype Progress = Progress(cut: nat, logged: nat)

  /** Where the log is cut once feature i is logged. */
  function Cut(saved: Persisted, j: nat, i: nat): nat {
    if saved.durable.disk.wal == [] then i + 1 else j
  }

  /** Read off the file system's answers, failing closed: a compaction that removes the log cuts it; a
      refused append stops before its feature, a late compaction failure after it. */
  function ReappendProgress(cfg: Config, d: Durable, people: People, p: Person, j: nat, i: nat,
                            io: Answers, at: Clock): (r: Progress)
    requires j <= i <= |p.features|
    ensures r.cut <= r.logged <= |p.features|
    decreases |p.features| - i
  {
    if i == |p.features| then Progress(j, i)
    else
      var saved := Append(cfg, d, people, FeatureLine(p, p.features[i], at(2 + i)), io(2 + i));
      if saved.raised then Progress(j, if io(2 + i).appendOk then i + 1 else i)
      else ReappendProgress(cfg, saved.durable, people, p, Cut(saved, j, i), i + 1, io, at)
  }

  function RestoreProgress(cfg: Config, s: System, p: Person, io: Answers, at: Clock): (r: Progress)
    ensures r.cut <= r.logged <= |p.features|
  {
    var deleted := Append(cfg, s.durable, s.people - {p.Key()}, DeleteLine(p.Key(), at(0)), io(0));
    var people := s.people[p.Key() := p];
    var inserted := Append(cfg, deleted.durable, people, PersonLine(p, at(1)), io(1));
    if inserted.raised then Progress(0, 0)
    else ReappendProgress(cfg, inserted.durable, people, p, 0, 0, io, at)
  }

  ghost predicate ShiftedRecord(o: Option<Person>, p: Person, j: nat, i: nat)
    requires j <= i <= |p.features|
  {
    SameRecord(o, Some(p.(features := Shifted(p.features, j, i))))
  }

  /** Over the stored snapshot and over one rewritten from memory alike. */
  ghost predicate ShiftedAt(disk: Disk, p: Person, j: nat, i: nat)
    requires j <= i <= |p.features|
  {
    && ShiftedRecord(ReplayKey(Lookup(disk.snapshot, p.Key()), disk.wal, p.Key()), p, j, i)
    && ShiftedRecord(ReplayKey(Some(p), disk.wal, p.Key()), p, j, i)
  }

  lemma WithoutOther(fs: seq<Feature>, id: string)
    requires id !in FeatureIds(fs)
    ensures Without(fs, {id}) == fs
  {
    WithoutNone(fs, {id});
  }

  lemma MovedLast(a: seq<Feature>, f: Feature, c: seq<Feature>, b: seq<Feature>)
    requires f.featureId !in FeatureIds(a) && f.featureId !in FeatureIds(b) && f.featureId !in FeatureIds(c)
    ensures Without(a + ([f] + c) + b, {f.featureId}) == a + c + b
  {
    var id := f.featureId;
    calc {
      Without(a + ([f] + c) + b, {id});
      { WithoutConcat(a + ([f] + c), b, {id}); WithoutOther(b, id); }
      Without(a + ([f] + c), {id}) + b;
      { WithoutConcat(a, [f] + c, {id}); WithoutOther(a, id); }
      a + Without([f] + c, {id}) + b;
      { WithoutConcat([f], c, {id}); WithoutOther(c, id); WithoutEvery([f], {id}); }
      a + ([] + c) + b;
    }
  }

  /** Moving the next feature to the end. */
  lemma ShiftOne(fs: seq<Feature>, j: nat, i: nat)
    requires DistinctFeatures(fs) && j <= i < |fs|
    ensures Without(Shifted(fs, j, i), {fs[i].featureId}) + [fs[i]] == Shifted(fs, j, i + 1)
  {
    MovedLast(fs[..j], fs[i], fs[i + 1..], fs[j..i]);
    assert fs[i..] == [fs[i]] + fs[i + 1..] && fs[j..i + 1] == fs[j..i] + [fs[i]];
  }

  /** The order is the original one only if nothing was re-appended since the cut, or everything was. */
  lemma ShiftedSame(fs: seq<Feature>, j: nat, i: nat)
    requires DistinctFeatures(fs) && j <= i <= |fs|
    ensures Shifted(fs, j, i) == fs <==> j == i || i == |fs|
  {
    if j < i < |fs| {
      assert Shifted(fs, j, i)[j] == fs[i] && fs[i].featureId != fs[j].featureId;
    }
  }

  lemma ShiftRecord(o: Option<Person>, p: Person, j: nat, i: nat, at: real)
    requires DistinctFeatures(p.features) && j <= i < |p.features| && ShiftedRecord(o, p, j, i)
    ensures ShiftedRecord(Rewrite(o, FeatureLine(p, p.features[i], at)), p, j, i + 1)
  {
    ShiftOne(p.features, j, i);
  }

  lemma Unshifted(p: Person, i: nat)
    requires i <= |p.features|
    ensures Shifted(p.features, i, i) == p.features && ShiftedAt(Disk(map[p.Key() := p], []), p, i, i)
    ensures ShiftedRecord(Some(p), p, i, i)
  {
    assert Shifted(p.features, i, i) == p.features;
  }

  /** One feature line, logged; and the log cut after it. */
  lemma ShiftLogged(d: Disk, p: Person, j: nat, i: nat, at: real)
    requires DistinctFeatures(p.features) && p.personId != "" && j <= i < |p.features| && ShiftedAt(d, p, j, i)
    ensures var wal := d.wal + [FeatureLine(p, p.features[i], at)];
            ShiftedAt(Disk(d.snapshot, wal), p, j, i + 1)
            && forall people: People :: Lookup(people, p.Key()) == Some(p) ==> ShiftedAt(Disk(people, wal), p, j, i + 1)
  {
    var k, line := p.Key(), FeatureLine(p, p.features[i], at);
    ReplayKeyAppend(Lookup(d.snapshot, k), d.wal, line, k);
    ReplayKeyAppend(Some(p), d.wal, line, k);
    ShiftRecord(ReplayKey(Lookup(d.snapshot, k), d.wal, k), p, j, i, at);
    ShiftRecord(ReplayKey(Some(p), d.wal, k), p, j, i, at);
  }

  /** What one more persist call leaves, failing closed. */
  lemma ReappendShifts(cfg: Config, d: Durable, people: People, p: Person, j: nat, i: nat, io: Io, at: real)
    requires cfg.failClosed && cfg.walEnabled && Lookup(people, p.Key()) == Some(p) && p.personId != ""
    requires DistinctFeatures(p.features) && j <= i < |p.features| && ShiftedAt(d.disk, p, j, i)
    ensures var saved := Append(cfg, d, people, FeatureLine(p, p.features[i], at), io);
            if saved.raised && !io.appendOk then saved.durable == d
            else ShiftedAt(saved.durable.disk, p, Cut(saved, j, i), i + 1) && (saved.raised ==> Cut(saved, j, i) == j)
  {
    ShiftLogged(d.disk, p, j, i, at);
    Unshifted(p, i + 1);
  }

  lemma {:induction false} ReappendStops(cfg: Config, d: Durable, people: People, p: Person, j: nat, i: nat,
                                         io: Answers, at: Clock)
    requires cfg.failClosed && cfg.walEnabled && Lookup(people, p.Key()) == Some(p) && p.personId != ""
    requires DistinctFeatures(p.features) && j <= i <= |p.features| && ShiftedAt(d.disk, p, j, i)
    ensures var r := ReappendProgress(cfg, d, people, p, j, i, io, at);
            ShiftedAt(Reappend(cfg, d, people, p, i, io, at).durable.disk, p, r.cut, r.logged)
    decreases |p.features| - i
  {
    if i < |p.features| {
      ReappendShifts(cfg, d, people, p, j, i, io(2 + i), at(2 + i));
      var saved := Append(cfg, d, people, FeatureLine(p, p.features[i], at(2 + i)), io(2 + i));
      if !saved.raised {
        ReappendStops(cfg, saved.durable, people, p, Cut(saved, j, i), i + 1, io, at);
      }
    }
  }

  lemma ReinsertShifts(cfg: Config, d: Durable, people: People, p: Person, io: Io, at: real)
    requires cfg.failClosed && cfg.walEnabled && Lookup(people, p.Key()) == Some(p) && p.personId != "" && io.appendOk
    ensures ShiftedAt(Append(cfg, d, people, PersonLine(p, at), io).durable.disk, p, 0, 0)
  {
    var k, line := p.Key(), PersonLine(p, at);
    Unshifted(p, 0);
    ReplayKeyAppend(Lookup(d.disk.snapshot, k), d.disk.wal, line, k);
    ReplayKeyAppend(Some(p), d.disk.wal, line, k);
  }

  lemma DeletedFound(cfg: Config, d: Durable, people: People, key: GalleryKey, io: Io, at: real)
    requires cfg.failClosed && cfg.walEnabled && key !in people && key.personId != "" && io.appendOk
    ensures Found(cfg, Append(cfg, d, people, DeleteLine(key, at), io).durable.disk, key) == None
  {
    ReplayKeyAppend(Lookup(d.disk.snapshot, key), d.disk.wal, DeleteLine(key, at), key);
    ReplayKeyAppend(None, d.disk.wal, DeleteLine(key, at), key);
  }

  /** A restore that failed, failing closed. Memory holds the copy whatever happened; a restart finds the
      copy with the features logged since the last cut moved behind the others, once the record itself
      was logged, and nothing or the old files' record before that. The two agree exactly when no
      feature was moved, or all that remained after the cut were. */
  lemma RestoreHalfway(cfg: Config, s: System, p: Person, io: Answers, at: Clock)
    requires cfg.failClosed && cfg.walEnabled && ValidPersonId(p.personId) && DistinctFeatures(p.features)
    ensures var found := Found(cfg, Restore(cfg, s, p.Key(), Some(p), io, at).durable.disk, p.Key());
            var g := RestoreProgress(cfg, s, p, io, at);
            if io(1).appendOk then
              && SameRecord(found, Some(p.(features := Shifted(p.features, g.cut, g.logged))))
              && (SameRecord(found, Some(p)) <==> g.cut == g.logged || g.logged == |p.features|)
            else found == if io(0).appendOk then None else Found(cfg, s.durable.disk, p.Key())
  {
    var deleted := Append(cfg, s.durable, s.people - {p.Key()}, DeleteLine(p.Key(), at(0)), io(0));
    var people := s.people[p.Key() := p];
    if io(1).appendOk {
      var inserted := Append(cfg, deleted.durable, people, PersonLine(p, at(1)), io(1));
      ReinsertShifts(cfg, deleted.durable, people, p, io(1), at(1));
      if !inserted.raised {
        ReappendStops(cfg, inserted.durable, people, p, 0, 0, io, at);
      }
      var g := RestoreProgress(cfg, s, p, io, at);
      ShiftedSame(p.features, g.cut, g.logged);
    } else if io(0).appendOk {
      DeletedFound(cfg, s.durable, s.people - {p.Key()}, p.Key(), io(0), at(0));
    }
  }

  /** Two features, and the log refuses the second: on disk they have changed places. */
  lemma HalfwayShows(f: Feature, g: Feature, io: Answers, at: Clock)
    requires f.featureId != g.featureId
    requires io(0) == io(1) == io(2) == ALL_OK && !io(3).appendOk
    ensures var cfg, p := Config(true, 0, true), Somebody().(features := [f, g]);
            var r := Restore(cfg, Run(cfg, []), SOMEBODY, Some(p), io, at);
            && r.errors == [RestoreFailed]
            && SameRecord(Found(cfg, r.durable.disk, SOMEBODY), Some(p.(features := [g, f])))
  {
    var cfg, p, s := Config(true, 0, true), Somebody().(features := [f, g]), Run(Config(true, 0, true), []);
    RestoreHalfway(cfg, s, p, io, at);
    var deleted := Append(cfg, s.durable, s.people - {SOMEBODY}, DeleteLine(SOMEBODY, at(0)), io(0)).durable;
    var people := s.people[SOMEBODY := p];
    var inserted := Append(cfg, deleted, people, PersonLine(p, at(1)), io(1)).durable;
    SecondRefused(cfg, inserted, people, p, io, at);
    assert Shifted(p.features, 0, 1) == [g, f];
  }

  lemma SecondRefused(cfg: Config, d: Durable, people: People, p: Person, io: Answers, at: Clock)
    requires cfg == Config(true, 0, true) && |p.features| == 2 && io(2) == ALL_OK && !io(3).appendOk
    ensures ReappendProgress(cfg, d, people, p, 0, 0, io, at) == Progress(0, 1)
    ensures Reappend(cfg, d, people, p, 0, io, at).errors == [RestoreFailed]
  {
    var first := Append(cfg, d, people, FeatureLine(p, p.features[0], at(2)), io(2)).durable;
    assert ReappendProgress(cfg, first, people, p, 0, 1, io, at) == Progress(0, 1);
    assert Reappend(cfg, first, people, p, 1, io, at).errors == [RestoreFailed];
  }
}
