/** The gallery service: the in-memory map of live person records, the snapshot
    file and the log file, and what each operation does to them when file
    operations may fail. */
module GalleryStore {
  import opened Common
  import opened GalleryLog

  datatype Config = Config(walEnabled: bool, compactEvery: int, failClosed: bool)

  /** How the environment answers the file operations of one persist call. */
  datatype Io = Io(appendOk: bool, writeOk: bool, unlinkOk: bool)

  /** The wall-clock readings one operation takes. */
  datatype Times = Times(created: real, updated: real, logged: real)

  datatype Disk = Disk(snapshot: People, wal: seq<Line>)
  datatype Durable = Durable(disk: Disk, counter: int)
  datatype System = System(people: People, durable: Durable)

  /** `points` are the disk states the call passes through: a crash leaves one of them. */
  datatype Persisted = Persisted(durable: Durable, raised: bool, points: seq<Disk>)

  datatype Reply = Done | BadId | NotFound | StorageFailed

  datatype Op =
    | Upsert(displayName: Option<string>, metadata: Option<map<string, string>>)
    | AddFeature(feature: Feature)
    | Patch(newName: Option<Option<string>>, newMetadata: Option<map<string, string>>)
    | Delete

  datatype Change = Unchanged(reply: Reply) | Change(people: People, line: Line)

  datatype Outcome = Outcome(system: System, reply: Reply, points: seq<Disk>)

  predicate IdStart(c: char) {
    'A' <= c <= 'Z' || 'a' <= c <= 'z' || '0' <= c <= '9'
  }

  predicate ValidPersonId(id: string) {
    && 1 <= |id| <= 128
    && IdStart(id[0])
    && forall i :: 1 <= i < |id| ==> IdStart(id[i]) || id[i] in {'_', '.', ':', '-'}
  }

  // ----- persistence -----

  function Save(cfg: Config, d: Durable, people: People, io: Io): Persisted {
    if !io.writeOk && cfg.failClosed then Persisted(d, true, [])
    else
      var written := if io.writeOk then Disk(people, d.disk.wal) else d.disk;
      var first := if io.writeOk then [written] else [];
      if cfg.walEnabled && io.unlinkOk then
        var bare := Disk(written.snapshot, []);
        Persisted(Durable(bare, 0), false, first + [bare])
      else Persisted(Durable(written, d.counter), false, first)
  }

  predicate CompactionDue(cfg: Config, counter: int) {
    cfg.compactEvery > 0 && counter + 1 >= cfg.compactEvery
  }

  /** The files after a log line was appended, or failed to be and was passed over. */
  function Logged(d: Durable, line: Line, io: Io): Durable {
    Durable(if io.appendOk then Disk(d.disk.snapshot, d.disk.wal + [line]) else d.disk, d.counter + 1)
  }

  function Append(cfg: Config, d: Durable, people: People, line: Line, io: Io): Persisted {
    if !cfg.walEnabled then Save(cfg, d, people, io)
    else if !io.appendOk && cfg.failClosed then Persisted(d, true, [])
    else
      var logged := Logged(d, line, io);
      var first := if io.appendOk then [logged.disk] else [];
      if CompactionDue(cfg, d.counter) then
        var saved := Save(cfg, logged, people, io);
        saved.(points := first + saved.points)
      else Persisted(logged, false, first)
  }

  // ----- operations -----

  function PersonLine(p: Person, at: real): Line {
    Entry("upsert_person", Some(p.tenantId), p.personId, Some(p), None, Some(at))
  }

  function FeatureLine(p: Person, f: Feature, at: real): Line {
    Entry("upsert_feature", Some(p.tenantId), p.personId, Some(p.(features := [])), Some(f), Some(at))
  }

  function DeleteLine(key: GalleryKey, at: real): Line {
    Entry("delete_person", Some(key.tenantId), key.personId, None, None, Some(at))
  }

  function Created(key: GalleryKey, name: Option<string>, metadata: Option<map<string, string>>, t: Times): Person {
    Person(key.tenantId, key.personId, name, metadata.GetOr(map[]), [], t.created, t.updated)
  }

  function Upserted(p: Person, name: Option<string>, metadata: Option<map<string, string>>, at: real): Person {
    p.(displayName := if name.Some? then name else p.displayName,
       metadata := p.metadata + metadata.GetOr(map[]),
       updatedAt := at)
  }

  function Touched(
    was: Option<Person>, key: GalleryKey, name: Option<string>, metadata: Option<map<string, string>>, t: Times): Person
  {
    if was.Some? then Upserted(was.value, name, metadata, t.updated) else Created(key, name, metadata, t)
  }

  function Patched(p: Person, name: Option<Option<string>>, metadata: Option<map<string, string>>, at: real): Person {
    p.(displayName := name.GetOr(p.displayName), metadata := p.metadata + metadata.GetOr(map[]), updatedAt := at)
  }

  function Extended(p: Person, f: Feature, at: real): Person {
    p.(features := p.features + [f], updatedAt := at)
  }

  /** The memory an operation is about to make durable, and the line it logs. */
  function Intended(people: People, key: GalleryKey, op: Op, t: Times): Change {
    if !ValidPersonId(key.personId) then Unchanged(BadId)
    else match op
      case Upsert(name, metadata) =>
        var p := Touched(Lookup(people, key), key, name, metadata, t);
        Change(people[key := p], PersonLine(p, t.logged))
      case AddFeature(f) =>
        if key !in people then Unchanged(NotFound)
        else
          var p := Extended(people[key], f, t.updated);
          Change(people[key := p], FeatureLine(p, f, t.logged))
      case Patch(name, metadata) =>
        if key !in people then Unchanged(NotFound)
        else
          var p := Patched(people[key], name, metadata, t.updated);
          Change(people[key := p], PersonLine(p, t.logged))
      case Delete =>
        if key !in people then Unchanged(NotFound)
        else Change(people - {key}, DeleteLine(key, t.logged))
  }

  /** Change memory, persist, and put memory back when persisting raises. */
  function Commit(cfg: Config, s: System, change: Change, io: Io): Outcome {
    match change
    case Unchanged(reply) => Outcome(s, reply, [])
    case Change(people, line) =>
      var saved := Append(cfg, s.durable, people, line, io);
      if saved.raised then Outcome(System(s.people, saved.durable), StorageFailed, saved.points)
      else Outcome(System(people, saved.durable), Done, saved.points)
  }

  function Traced(trail: seq<Disk>, o: Outcome): Outcome {
    o.(points := trail + o.points)
  }

  function Step(cfg: Config, s: System, key: GalleryKey, op: Op, t: Times, io: Io): Outcome {
    Commit(cfg, s, Intended(s.people, key, op, t), io)
  }

  /** What the service loads from these files. */
  function Recover(cfg: Config, d: Disk): People {
    if cfg.walEnabled then Replay(d.snapshot, d.wal) else d.snapshot
  }

  /** Records with invalid ids are not loaded. */
  function Loadable(found: People): People {
    map k | k in found && ValidPersonId(found[k].personId) :: found[k]
  }

  predicate SelfKeyed(found: People) {
    forall k :: k in found ==> found[k].Key() == k
  }

  /** A new process: memory is read back, the counter starts at zero. */
  function Restarted(cfg: Config, s: System): System {
    System(Loadable(Recover(cfg, s.durable.disk)), s.durable.(counter := 0))
  }

  /** What loading files: every valid record under the key it carries itself, and nothing else. Which of
      several records carrying one key is kept is left open. */
  predicate LoadedFrom(found: People, loaded: People) {
    && (forall k :: k in loaded ==> loaded[k].Key() == k && loaded[k] in found.Values)
    && (forall k :: k in loaded ==> ValidPersonId(loaded[k].personId))
    && (forall j :: j in found && ValidPersonId(found[j].personId) ==> found[j].Key() in loaded)
  }

  /** Where records sit under their own key, loading keeps exactly the valid ones. */
  lemma LoadedIsLoadable(found: People, loaded: People)
    requires LoadedFrom(found, loaded) && SelfKeyed(found)
    ensures loaded == Loadable(found)
  {
    forall k | k in loaded ensures k in found && loaded[k] == found[k] {
      var j :| j in found && found[j] == loaded[k];
    }
  }

  // ----- the imperative service -----

  /** A live person record: callers hold references to it and the service updates it in place. */
  class PersonRecord {
    const tenantId: string
    const personId: string
    const createdAt: real
    var displayName: Option<string>
    var metadata: map<string, string>
    var features: seq<Feature>
    var updatedAt: real

    constructor (p: Person)
      ensures Value() == p
    {
      tenantId, personId, createdAt := p.tenantId, p.personId, p.createdAt;
      displayName, metadata, features, updatedAt := p.displayName, p.metadata, p.features, p.updatedAt;
    }

    function Key(): GalleryKey {
      GalleryKey(tenantId, personId)
    }

    function Value(): Person
      reads this
    {
      Person(tenantId, personId, displayName, metadata, features, createdAt, updatedAt)
    }
  }

  lemma UndoneChange(people: People, key: GalleryKey, p: Person)
    ensures Put(people[key := p], key, Lookup(people, key)) == people
  {
  }

  class Gallery {
    const cfg: Config
    var people: map<GalleryKey, PersonRecord>
    var counter: int
    var snapshot: People
    var wal: seq<Line>
    ghost var trail: seq<Disk>  // every disk state so far, oldest first

    ghost predicate Valid()
      reads `people, people.Values
    {
      forall k :: k in people ==> people[k].Key() == k
    }

    ghost function View(): People
      reads `people, people.Values
    {
      map k | k in people :: people[k].Value()
    }

    ghost function Files(): Durable
      reads `snapshot, `wal, `counter
    {
      Durable(Disk(snapshot, wal), counter)
    }

    ghost function State(): System
      reads `people, `snapshot, `wal, `counter, people.Values
    {
      System(View(), Files())
    }

    constructor (cfg: Config)
      ensures Valid() && this.cfg == cfg && State() == System(map[], Durable(Disk(map[], []), 0)) && trail == []
      ensures fresh(people.Values)
    {
      this.cfg, people, counter, snapshot, wal := cfg, map[], 0, map[], [];
      trail := [];
    }

    /** Editing or filing one record changes the view at its key only. */
    twostate lemma ViewEdited(key: GalleryKey)
      requires key in people && people == old(people)[key := people[key]]
      requires forall k :: k in old(people) && k != key ==> people[k].Value() == old(people[k].Value())
      ensures View() == old(View())[key := people[key].Value()]
    {
    }

    twostate lemma ViewKept()
      requires people == old(people) && forall k :: k in people ==> unchanged(people[k])
      ensures View() == old(View())
    {
    }

    method Payload() returns (all: People)
      requires Valid()
      ensures all == View()
    {
      all := map k | k in people :: people[k].Value();
    }

    method SaveGalleryState(io: Io) returns (raised: bool)
      requires Valid()
      modifies this`snapshot, this`wal, this`counter, this`trail
      ensures Valid() && View() == old(View())
      ensures var s := Save(cfg, old(Files()), View(), io);
              Files() == s.durable && raised == s.raised && trail == old(trail) + s.points
    {
      if io.writeOk {
        snapshot := Payload();
        trail := trail + [Disk(snapshot, wal)];
      } else if cfg.failClosed {
        return true;
      }
      if cfg.walEnabled && io.unlinkOk {
        wal, counter := [], 0;
        trail := trail + [Disk(snapshot, wal)];
      }
      ViewKept();
      raised := false;
    }

    /** The log half: one line, and one more on the counter; a failing append raises or is passed over. */
    method AppendLine(line: Line, io: Io) returns (raised: bool)
      requires cfg.walEnabled
      modifies this`wal, this`counter, this`trail
      ensures raised <==> !io.appendOk && cfg.failClosed
      ensures raised ==> Files() == old(Files()) && trail == old(trail)
      ensures !raised ==> Files() == Logged(old(Files()), line, io)
      ensures !raised ==> trail == old(trail) + if io.appendOk then [Files().disk] else []
    {
      raised := false;
      if io.appendOk {
        wal := wal + [line];
        trail := trail + [Disk(snapshot, wal)];
      } else if cfg.failClosed {
        return true;
      }
      counter := counter + 1;
    }

    method AppendGalleryWal(line: Line, io: Io) returns (raised: bool)
      requires Valid()
      modifies this`snapshot, this`wal, this`counter, this`trail
      ensures Valid() && View() == old(View())
      ensures var s := Append(cfg, old(Files()), View(), line, io);
              Files() == s.durable && raised == s.raised && trail == old(trail) + s.points
    {
      if !cfg.walEnabled {
        raised := SaveGalleryState(io);
        return;
      }
      raised := AppendLine(line, io);
      ViewKept();
      if !raised && cfg.compactEvery > 0 && counter >= cfg.compactEvery {
        raised := SaveGalleryState(io);
      }
    }

    /** Logs a change already made in memory; when that raises, an untouched copy (or nothing) is filed
        under its key. */
    method PersistOrRestore(key: GalleryKey, line: Line, previous: Option<Person>, io: Io) returns (reply: Reply)
      requires Valid() && (previous.Some? ==> previous.value.Key() == key)
      modifies `people, `snapshot, `wal, `counter, `trail
      ensures Valid()
      ensures forall k :: k in people ==> fresh(people[k]) || (k in old(people) && people[k] == old(people)[k])
      ensures reply.Done? ==> people == old(people)
      ensures !reply.Done? && previous.Some? ==> key in people && fresh(people[key])
      ensures reply.Done? || reply.StorageFailed?
      ensures var before := System(Put(old(View()), key, previous), old(Files()));
              Outcome(State(), reply, trail) == Traced(old(trail), Commit(cfg, before, Change(old(View()), line), io))
    {
      var raised := AppendGalleryWal(line, io);
      if !raised {
        return Done;
      }
      reply := StorageFailed;
      if previous.None? {
        people := people - {key};
        assert View() == old(View()) - {key};
      } else {
        var copy := new PersonRecord(previous.value);
        assert copy.Key() == copy.Value().Key();
        people := people[key := copy];
        ViewEdited(key);
      }
    }

    /** The in-memory half of upsert_person. */
    method CreateOrTouch(key: GalleryKey, displayName: Option<string>, metadata: Option<map<string, string>>, t: Times)
      returns (live: PersonRecord, previous: Option<Person>)
      requires Valid()
      modifies `people, if key in people then {people[key]} else {}
      ensures Valid() && key in people && people[key] == live
      ensures forall k :: k in people ==> fresh(people[k]) || (k in old(people) && people[k] == old(people)[k])
      ensures previous == Lookup(old(View()), key) && Put(View(), key, previous) == old(View())
      ensures View() == old(View())[key := live.Value()]
      ensures live.Value() == Touched(previous, key, displayName, metadata, t)
    {
      previous := None;
      if key in people {
        live := people[key];
        previous := Some(live.Value());
        if displayName.Some? {
          live.displayName := displayName;
        }
        if metadata.Some? {
          live.metadata := live.metadata + metadata.value;
        } else {
          assert live.metadata + map[] == live.metadata;
        }
        live.updatedAt := t.updated;
      } else {
        live := new PersonRecord(Created(key, displayName, metadata, t));
        assert live.Key() == live.Value().Key();
        people := people[key := live];
      }
      ViewEdited(key);
      UndoneChange(old(View()), key, live.Value());
    }

    method UpsertPerson(key: GalleryKey, displayName: Option<string>, metadata: Option<map<string, string>>,
                        t: Times, io: Io)
      returns (reply: Reply, person: Option<PersonRecord>)
      requires Valid()
      modifies this, if key in people then {people[key]} else {}
      ensures Valid()
      ensures forall k :: k in people ==> fresh(people[k]) || (k in old(people) && people[k] == old(people)[k])
      ensures var o := Step(cfg, old(State()), key, Upsert(displayName, metadata), t, io);
              Outcome(State(), reply, trail) == Traced(old(trail), o)
      ensures reply.Done? ==> key in people && person == Some(people[key])
    {
      if !ValidPersonId(key.personId) {
        return BadId, None;
      }
      var live, previous := CreateOrTouch(key, displayName, metadata, t);
      var line := PersonLine(live.Value(), t.logged);
      assert Intended(old(View()), key, Upsert(displayName, metadata), t) == Change(View(), line);
      reply := PersistOrRestore(key, line, previous, io);
      person := if reply.Done? then Some(live) else None;
    }

    predicate Live(person: PersonRecord)
      reads `people
    {
      person.Key() in people && people[person.Key()] == person
    }

    /** The in-memory half of add_feature. */
    method AppendToRecord(person: PersonRecord, feature: Feature, at: real)
      requires Valid()
      modifies person
      ensures person.Value() == Extended(old(person.Value()), feature, at)
      ensures View() == if Live(person) then old(View())[person.Key() := person.Value()] else old(View())
    {
      person.features := person.features + [feature];
      person.updatedAt := at;
      if Live(person) {
        ViewEdited(person.Key());
      } else {
        assert forall k :: k in people ==> people[k].Key() == k;
        ViewKept();
      }
    }

    /** `person` is a handle a caller obtained earlier; the map may hold another record under its key by now. */
    method AddFeature(person: PersonRecord, feature: Feature, t: Times, io: Io) returns (reply: Reply)
      requires Valid() && ValidPersonId(person.personId)
      modifies this, person
      ensures Valid()
      ensures forall k :: k in people ==> fresh(people[k]) || (k in old(people) && people[k] == old(people)[k])
      ensures var o := if old(Live(person)) then Step(cfg, old(State()), person.Key(), Op.AddFeature(feature), t, io)
                       else StrayAdd(cfg, old(State()), old(person.Value()), feature, t, io);
              Outcome(State(), reply, trail) == Traced(old(trail), o)
    {
      var key := person.Key();
      var previous := person.Value();
      AppendToRecord(person, feature, t.updated);
      UndoneChange(old(View()), key, person.Value());
      var line := FeatureLine(person.Value(), feature, t.logged);
      assert Live(person) ==>
          Intended(old(View()), key, Op.AddFeature(feature), t) == Change(View(), line);
      reply := PersistOrRestore(key, line, Some(previous), io);
      if reply.StorageFailed? {
        assert forall k :: k in people ==> people[k] != person && people[k].Key() == k;
        label restored:
        person.features, person.updatedAt := previous.features, previous.updatedAt;
        person.displayName, person.metadata := previous.displayName, previous.metadata;
        ViewKept@restored();
      }
    }

    /** The in-memory half of patch_person. */
    method EditFields(person: PersonRecord, displayName: Option<Option<string>>, metadata: Option<map<string, string>>,
                      at: real)
      requires Valid() && person.Key() in people && people[person.Key()] == person
      modifies person
      ensures View() == old(View())[person.Key() := person.Value()]
      ensures person.Value() == Patched(old(person.Value()), displayName, metadata, at)
    {
      if displayName.Some? {
        person.displayName := displayName.value;
      }
      if metadata.Some? {
        person.metadata := person.metadata + metadata.value;
      } else {
        assert person.metadata + map[] == person.metadata;
      }
      person.updatedAt := at;
      ViewEdited(person.Key());
    }

    method PatchPerson(key: GalleryKey, displayName: Option<Option<string>>, metadata: Option<map<string, string>>,
                       t: Times, io: Io)
      returns (reply: Reply)
      requires Valid()
      modifies this, if key in people then {people[key]} else {}
      ensures Valid()
      ensures forall k :: k in people ==> fresh(people[k]) || (k in old(people) && people[k] == old(people)[k])
      ensures var o := Step(cfg, old(State()), key, Patch(displayName, metadata), t, io);
              Outcome(State(), reply, trail) == Traced(old(trail), o)
    {
      if !ValidPersonId(key.personId) {
        return BadId;
      }
      if key !in people {
        return NotFound;
      }
      var person := people[key];
      var previous := person.Value();
      EditFields(person, displayName, metadata, t.updated);
      UndoneChange(old(View()), key, person.Value());
      var line := PersonLine(person.Value(), t.logged);
      assert Intended(old(View()), key, Patch(displayName, metadata), t) == Change(View(), line);
      reply := PersistOrRestore(key, line, Some(previous), io);
      if reply.StorageFailed? {
        assert View() == old(View());
        assert forall k :: k in people ==> people[k] != person && people[k].Key() == k;
        label restored:
        person.displayName, person.metadata := previous.displayName, previous.metadata;
        person.updatedAt, person.features := previous.updatedAt, previous.features;
        ViewKept@restored();
      }
    }

    method DeletePerson(key: GalleryKey, t: Times, io: Io) returns (reply: Reply)
      requires Valid()
      modifies this
      ensures Valid() && forall k :: k in people ==> k in old(people) && people[k] == old(people)[k]
      ensures Outcome(State(), reply, trail) == Traced(old(trail), Step(cfg, old(State()), key, Delete, t, io))
    {
      if !ValidPersonId(key.personId) {
        return BadId;
      }
      if key !in people {
        return NotFound;
      }
      var removed := people[key];
      people := people - {key};
      var line := DeleteLine(key, t.logged);
      assert Intended(old(View()), key, Delete, t) == Change(View(), line);
      var raised := AppendGalleryWal(line, io);
      reply := if raised then StorageFailed else Done;
      if raised {
        people := people[key := removed];
        ViewKept();
      }
    }

    /** Memory becomes the valid records of `found`. */
    method FileRecords(found: People)
      modifies this`people, this`counter
      ensures Valid() && fresh(people.Values) && counter == 0 && LoadedFrom(found, View())
    {
      people, counter := map[], 0;
      var todo := found.Keys;
      while todo != {}
        invariant todo <= found.Keys && counter == 0
        invariant Valid() && forall k :: k in people ==> fresh(people[k])
        invariant forall k :: k in people ==> ValidPersonId(k.personId) && people[k].Value() in found.Values
        invariant forall j :: j in found.Keys - todo && ValidPersonId(found[j].personId) ==> found[j].Key() in people
        decreases todo
      {
        var k :| k in todo;
        todo := todo - {k};
        if ValidPersonId(found[k].personId) {
          var record := new PersonRecord(found[k]);
          assert record.Key() == record.Value().Key() && record.Value() in found.Values;
          people := people[record.Key() := record];
        }
      }
    }

    /** Reads the files back into memory: records are filed under the key they carry themselves, those
        with invalid ids are skipped. */
    method LoadGalleryState() returns (raised: bool)
      modifies this`people, this`counter
      ensures raised <==> cfg.walEnabled && Torn in wal
      ensures raised ==> people == old(people) && counter == old(counter)
      ensures !raised ==> Valid() && fresh(people.Values) && counter == 0
      ensures !raised ==> LoadedFrom(Recover(cfg, Disk(snapshot, wal)), View())
      ensures !raised && SelfKeyed(Recover(cfg, Disk(snapshot, wal))) ==>
                State() == Restarted(cfg, System(map[], old(Files())))
    {
      var found := snapshot;
      raised := false;
      if cfg.walEnabled {
        raised, found := ApplyGalleryWal(snapshot, wal);
        if raised {
          return;
        }
      }
      assert found == Recover(cfg, Disk(snapshot, wal));
      FileRecords(found);
      if SelfKeyed(found) {
        LoadedIsLoadable(found, View());
      }
    }
  }

  /** `add_feature` on a handle that is not the live record: an accepted call changes the log but not
      memory, a refused one files the handle's record in memory. */
  function StrayAdd(cfg: Config, s: System, handle: Person, f: Feature, t: Times, io: Io): Outcome {
    var p := Extended(handle, f, t.updated);
    var saved := Append(cfg, s.durable, s.people, FeatureLine(p, f, t.logged), io);
    if saved.raised then
      Outcome(System(s.people[handle.Key() := handle], saved.durable), StorageFailed, saved.points)
    else Outcome(System(s.people, saved.durable), Done, saved.points)
  }
}
