/** The gallery's write-ahead log: records, log lines, and what replaying a log
    over a snapshot yields. */
module GalleryLog {
  import opened Common

  datatype Feature = Feature(
    featureId: string, modality: string, embedding: seq<real>, modelId: string, modelVersion: string,
    qualityScore: real, sourceId: string, createdAt: real, objectInfo: Option<map<string, string>>)

  datatype GalleryKey = GalleryKey(tenantId: string, personId: string)

  datatype Person = Person(
    tenantId: string, personId: string, displayName: Option<string>, metadata: map<string, string>,
    features: seq<Feature>, createdAt: real, updatedAt: real)
  {
    function Key(): GalleryKey { GalleryKey(tenantId, personId) }

    /** Replay takes the time stamp from the log line, so records are compared without it. */
    function Unstamped(): Person { this.(updatedAt := 0.0) }
  }

  type People = map<GalleryKey, Person>

  /** One line of the log file, as the replay loop meets it. */
  datatype Line =
    | Blank
    | Torn       // not JSON: the replay raises
    | NotObject  // JSON, but not an object: skipped
    | Entry(op: string, tenantId: Option<string>, personId: string,
            person: Option<Person>, feature: Option<Feature>, updatedAt: Option<real>)

  function LineKey(e: Line): GalleryKey
    requires e.Entry?
  {
    GalleryKey(e.tenantId.GetOr("default"), e.personId)
  }

  // ----- feature lists -----

  function FeatureIds(fs: seq<Feature>): set<string> {
    set i | 0 <= i < |fs| :: fs[i].featureId
  }

  ghost predicate DistinctFeatures(fs: seq<Feature>) {
    forall i, j :: 0 <= i < j < |fs| ==> fs[i].featureId != fs[j].featureId
  }

  /** The features whose id is not among `ids`, in order. */
  function Without(fs: seq<Feature>, ids: set<string>): (r: seq<Feature>) {
    if fs == [] then []
    else
      var rest := Without(fs[..|fs| - 1], ids);
      var last := fs[|fs| - 1];
      if last.featureId in ids then rest else rest + [last]
  }

  /** Replay a list of feature deltas: each one moves its id to the end. */
  function Merge(fs: seq<Feature>, deltas: seq<Feature>): seq<Feature> {
    if deltas == [] then fs
    else
      var d := deltas[|deltas| - 1];
      Without(Merge(fs, deltas[..|deltas| - 1]), {d.featureId}) + [d]
  }

  // ----- replay -----

  function ApplyFeature(p: Person, feature: Option<Feature>, updatedAt: Option<real>): Person {
    match feature
    case None => p
    case Some(f) =>
      p.(features := Without(p.features, {f.featureId}) + [f], updatedAt := updatedAt.GetOr(p.updatedAt))
  }

  /** What a line makes of the record stored under its own key. */
  function Rewrite(o: Option<Person>, e: Line): Option<Person>
    requires e.Entry?
  {
    if e.op == "delete_person" then None
    else if e.op == "upsert_feature" then
      match o
      case Some(p) => Some(ApplyFeature(p, e.feature, e.updatedAt))
      case None =>
        if e.person.None? then None
        else Some(ApplyFeature(e.person.value.(features := []), e.feature, e.updatedAt))
    else if e.person.Some? then e.person
    else o
  }

  predicate Addressed(e: Line) {
    e.Entry? && e.personId != ""
  }

  function ApplyLine(people: People, e: Line): People {
    if Addressed(e) then Put(people, LineKey(e), Rewrite(Lookup(people, LineKey(e)), e)) else people
  }

  function Replay(people: People, lines: seq<Line>): People {
    if lines == [] then people
    else ApplyLine(Replay(people, lines[..|lines| - 1]), lines[|lines| - 1])
  }

  /** The same replay, seen from one key. */
  function ReplayKey(o: Option<Person>, lines: seq<Line>, k: GalleryKey): Option<Person> {
    if lines == [] then o
    else
      var before := ReplayKey(o, lines[..|lines| - 1], k);
      var e := lines[|lines| - 1];
      if Addressed(e) && LineKey(e) == k then Rewrite(before, e) else before
  }

  /** Lines as the service itself appends them. */
  predicate Written(e: Line) {
    && Addressed(e)
    && e.tenantId.Some?
    && e.updatedAt.Some?
    && match e.op
       case "upsert_person" => e.person.Some? && e.person.value.Key() == LineKey(e)
       case "upsert_feature" =>
         e.person.Some? && e.person.value.Key() == LineKey(e) && e.person.value.features == [] && e.feature.Some?
       case _ => e.op == "delete_person"
  }

  predicate WrittenLog(lines: seq<Line>) {
    forall i :: 0 <= i < |lines| ==> Written(lines[i])
  }

  /** Replays the log file over the snapshot. */
  method ApplyGalleryWal(snapshot: People, lines: seq<Line>) returns (raised: bool, people: People)
    ensures raised <==> Torn in lines
    ensures !raised ==> people == Replay(snapshot, lines)
  {
    people := snapshot;
    raised := false;
    for i := 0 to |lines|
      invariant Torn !in lines[..i]
      invariant people == Replay(snapshot, lines[..i])
    {
      var e := lines[i];
      assert lines[..i + 1][..i] == lines[..i];
      if e.Torn? {
        raised := true;
        return;
      }
      if !e.Entry? || e.personId == "" {
        continue;
      }
      var key := GalleryKey(e.tenantId.GetOr("default"), e.personId);
      if e.op == "delete_person" {
        people := people - {key};
      } else if e.op == "upsert_feature" {
        if key !in people {
          if e.person.None? {
            assert people - {key} == people;
            continue;
          }
          people := people[key := e.person.value.(features := [])];
        }
        people := people[key := ApplyFeature(people[key], e.feature, e.updatedAt)];
      } else if e.person.Some? {
        people := people[key := e.person.value];
      } else {
        assert Put(people, key, Lookup(people, key)) == people;
      }
    }
    assert lines[..|lines|] == lines;
  }

  // ----- laws of replay -----

  lemma {:induction false} WithoutConcat(a: seq<Feature>, b: seq<Feature>, ids: set<string>)
    ensures Without(a + b, ids) == Without(a, ids) + Without(b, ids)
  {
    if b == [] {
      assert a + b == a;
    } else {
      assert (a + b)[..|a + b| - 1] == a + b[..|b| - 1];
      WithoutConcat(a, b[..|b| - 1], ids);
    }
  }

  lemma {:induction false} WithoutTwice(fs: seq<Feature>, ids: set<string>, more: set<string>)
    ensures Without(Without(fs, ids), more) == Without(fs, ids + more)
  {
    if fs != [] {
      var init, last := fs[..|fs| - 1], fs[|fs| - 1];
      WithoutTwice(init, ids, more);
      WithoutConcat(Without(init, ids), [last], more);
      assert Without([last], more) == if last.featureId in more then [] else [last];
    }
  }

  lemma FeatureIdsAppend(fs: seq<Feature>, f: Feature)
    ensures FeatureIds(fs + [f]) == FeatureIds(fs) + {f.featureId}
  {
    var all := fs + [f];
    forall id | id in FeatureIds(fs) + {f.featureId} ensures id in FeatureIds(all) {
      if id == f.featureId {
        assert all[|fs|] == f;
      } else {
        var i :| 0 <= i < |fs| && fs[i].featureId == id;
        assert all[i] == fs[i];
      }
    }
  }

  lemma {:induction false} WithoutNone(fs: seq<Feature>, ids: set<string>)
    requires FeatureIds(fs) !! ids
    ensures Without(fs, ids) == fs
  {
    if fs != [] {
      var init, last := fs[..|fs| - 1], fs[|fs| - 1];
      assert fs == init + [last];
      FeatureIdsAppend(init, last);
      WithoutNone(init, ids);
    }
  }

  lemma {:induction false} WithoutEvery(fs: seq<Feature>, ids: set<string>)
    requires FeatureIds(fs) <= ids
    ensures Without(fs, ids) == []
  {
    if fs != [] {
      var init, last := fs[..|fs| - 1], fs[|fs| - 1];
      assert fs == init + [last];
      FeatureIdsAppend(init, last);
      WithoutEvery(init, ids);
    }
  }

  lemma {:induction false} WithoutIds(fs: seq<Feature>, ids: set<string>)
    ensures FeatureIds(Without(fs, ids)) == FeatureIds(fs) - ids
  {
    if fs != [] {
      var init, last := fs[..|fs| - 1], fs[|fs| - 1];
      WithoutIds(init, ids);
      FeatureIdsAppend(init, last);
      FeatureIdsAppend(Without(init, ids), last);
      assert fs == init + [last];
    }
  }

  /** Deltas replace what they name and leave the rest in order, in front. */
  lemma {:induction false} MergeSplits(fs: seq<Feature>, deltas: seq<Feature>)
    ensures Merge(fs, deltas) == Without(fs, FeatureIds(deltas)) + Merge([], deltas)
  {
    if deltas == [] {
      WithoutNone(fs, {});
      assert FeatureIds(deltas) == {};
    } else {
      var init, d := deltas[..|deltas| - 1], deltas[|deltas| - 1];
      var kept, moved := Without(fs, FeatureIds(init)), Merge([], init);
      assert FeatureIds(deltas) == FeatureIds(init) + {d.featureId} by {
        assert deltas == init + [d];
        FeatureIdsAppend(init, d);
      }
      calc {
        Merge(fs, deltas);
        Without(Merge(fs, init), {d.featureId}) + [d];
        { MergeSplits(fs, init); }
        Without(kept + moved, {d.featureId}) + [d];
        { WithoutConcat(kept, moved, {d.featureId}); }
        Without(kept, {d.featureId}) + Without(moved, {d.featureId}) + [d];
        { WithoutTwice(fs, FeatureIds(init), {d.featureId}); }
        Without(fs, FeatureIds(deltas)) + Without(moved, {d.featureId}) + [d];
        Without(fs, FeatureIds(deltas)) + (Without(moved, {d.featureId}) + [d]);
        Without(fs, FeatureIds(deltas)) + Merge([], deltas);
      }
    }
  }

  lemma {:induction false} MergeIds(deltas: seq<Feature>)
    ensures FeatureIds(Merge([], deltas)) == FeatureIds(deltas)
  {
    if deltas != [] {
      var init, d := deltas[..|deltas| - 1], deltas[|deltas| - 1];
      MergeIds(init);
      WithoutIds(Merge([], init), {d.featureId});
      FeatureIdsAppend(Without(Merge([], init), {d.featureId}), d);
      assert deltas == init + [d];
      FeatureIdsAppend(init, d);
    }
  }

  /** A list of deltas can be replayed twice. */
  lemma {:induction false} MergeIdempotent(fs: seq<Feature>, deltas: seq<Feature>)
    ensures Merge(Merge(fs, deltas), deltas) == Merge(fs, deltas)
  {
    var ids, moved := FeatureIds(deltas), Merge([], deltas);
    calc {
      Merge(Merge(fs, deltas), deltas);
      { MergeSplits(Merge(fs, deltas), deltas); }
      Without(Merge(fs, deltas), ids) + moved;
      { MergeSplits(fs, deltas); }
      Without(Without(fs, ids) + moved, ids) + moved;
      { WithoutConcat(Without(fs, ids), moved, ids); }
      Without(Without(fs, ids), ids) + Without(moved, ids) + moved;
      { WithoutTwice(fs, ids, ids); assert ids + ids == ids; MergeIds(deltas); WithoutEvery(moved, ids); }
      Without(fs, ids) + moved;
      { MergeSplits(fs, deltas); }
      Merge(fs, deltas);
    }
  }

  lemma {:induction false} ReplayAtKey(people: People, lines: seq<Line>, k: GalleryKey)
    ensures Lookup(Replay(people, lines), k) == ReplayKey(Lookup(people, k), lines, k)
  {
    if lines != [] {
      ReplayAtKey(people, lines[..|lines| - 1], k);
    }
  }

  lemma {:induction false} ReplayConcat(people: People, a: seq<Line>, b: seq<Line>)
    ensures Replay(people, a + b) == Replay(Replay(people, a), b)
  {
    if b == [] {
      assert a + b == a;
    } else {
      assert (a + b)[..|a + b| - 1] == a + b[..|b| - 1];
      ReplayConcat(people, a, b[..|b| - 1]);
    }
  }

  lemma ReplayKeyAppend(o: Option<Person>, lines: seq<Line>, e: Line, k: GalleryKey)
    ensures ReplayKey(o, lines + [e], k)
         == (var r := ReplayKey(o, lines, k); if Addressed(e) && LineKey(e) == k then Rewrite(r, e) else r)
  {
    assert (lines + [e])[..|lines|] == lines;
  }

  /** A line that fixes its key's record whatever was there before. */
  predicate Resets(e: Line, k: GalleryKey) {
    Addressed(e) && LineKey(e) == k && (e.op == "delete_person" || (e.op != "upsert_feature" && e.person.Some?))
  }

  predicate HasReset(lines: seq<Line>, k: GalleryKey) {
    exists i :: 0 <= i < |lines| && Resets(lines[i], k)
  }

  lemma NoReset(lines: seq<Line>, k: GalleryKey)
    requires lines != [] && !HasReset(lines, k)
    ensures !HasReset(lines[..|lines| - 1], k) && !Resets(lines[|lines| - 1], k)
  {
    var init := lines[..|lines| - 1];
    assert forall i :: 0 <= i < |init| ==> init[i] == lines[i];
  }

  lemma {:induction false} ResetForgets(o: Option<Person>, other: Option<Person>, lines: seq<Line>, k: GalleryKey)
    requires HasReset(lines, k)
    ensures ReplayKey(o, lines, k) == ReplayKey(other, lines, k)
  {
    var init, e := lines[..|lines| - 1], lines[|lines| - 1];
    if !Resets(e, k) {
      var i :| 0 <= i < |lines| && Resets(lines[i], k);
      assert init[i] == lines[i];
      ResetForgets(o, other, init, k);
    }
  }

  predicate IsDelta(e: Line, k: GalleryKey) {
    Addressed(e) && LineKey(e) == k && e.op == "upsert_feature" && e.feature.Some?
  }

  /** The deltas a log carries for one key. */
  function Deltas(lines: seq<Line>, k: GalleryKey): seq<Feature> {
    if lines == [] then []
    else
      var rest := Deltas(lines[..|lines| - 1], k);
      var e := lines[|lines| - 1];
      if IsDelta(e, k) then rest + [e.feature.value] else rest
  }

  /** The time stamp a record ends with when no line of the log resets it. */
  function Stamp(lines: seq<Line>, k: GalleryKey, before: real): real {
    if lines == [] then before
    else
      var e := lines[|lines| - 1];
      var earlier := Stamp(lines[..|lines| - 1], k, before);
      if IsDelta(e, k) then e.updatedAt.GetOr(earlier) else earlier
  }

  /** Without a reset, replay merges the deltas into the record and stamps it last. */
  lemma {:induction false} ReplayMerges(p: Person, lines: seq<Line>, k: GalleryKey)
    requires !HasReset(lines, k)
    ensures ReplayKey(Some(p), lines, k)
         == Some(p.(features := Merge(p.features, Deltas(lines, k)), updatedAt := Stamp(lines, k, p.updatedAt)))
  {
    if lines != [] {
      var init, e := lines[..|lines| - 1], lines[|lines| - 1];
      NoReset(lines, k);
      ReplayMerges(p, init, k);
      if IsDelta(e, k) {
        var ds := Deltas(lines, k);
        assert ds[..|ds| - 1] == Deltas(init, k);
      }
    }
  }

  /** The last stamp in a log either comes from the log or is the one before it. */
  lemma {:induction false} StampSettles(lines: seq<Line>, k: GalleryKey, before: real, other: real)
    ensures Deltas(lines, k) == [] ==> Stamp(lines, k, before) == before
    ensures (Stamp(lines, k, before) == before && Stamp(lines, k, other) == other)
         || Stamp(lines, k, before) == Stamp(lines, k, other)
  {
    if lines != [] {
      StampSettles(lines[..|lines| - 1], k, before, other);
    }
  }

  /** Every feature line carries the record it belongs to. */
  predicate Based(e: Line) {
    e.Entry? && e.op == "upsert_feature" && e.feature.Some? ==> e.person.Some?
  }

  predicate BasedLog(lines: seq<Line>) {
    forall i :: 0 <= i < |lines| ==> Based(lines[i])
  }

  lemma WrittenIsBased(lines: seq<Line>)
    requires WrittenLog(lines)
    ensures BasedLog(lines)
  {
    forall i | 0 <= i < |lines| ensures Based(lines[i]) {
      assert Written(lines[i]);
    }
  }

  /** Started on an absent record, a log without resets behaves as started on its first base. */
  lemma {:induction false} ReplayFromBase(lines: seq<Line>, k: GalleryKey) returns (base: Option<Person>)
    requires BasedLog(lines) && !HasReset(lines, k)
    ensures base.None? ==> ReplayKey(None, lines, k) == None && Deltas(lines, k) == []
    ensures base.Some? ==> ReplayKey(None, lines, k) == ReplayKey(base, lines, k)
  {
    if lines == [] {
      base := None;
    } else {
      var init, e := lines[..|lines| - 1], lines[|lines| - 1];
      assert forall i :: 0 <= i < |init| ==> init[i] == lines[i];
      NoReset(lines, k);
      assert Based(e);
      base := ReplayFromBase(init, k);
      if base.None? && Addressed(e) && LineKey(e) == k && e.op == "upsert_feature" && e.person.Some? {
        base := Some(e.person.value.(features := []));
        ReplayMerges(base.value, init, k);
        StampSettles(init, k, base.value.updatedAt, 0.0);
      }
    }
  }

  /** Replaying a log twice is replaying it once, at every key. */
  lemma {:induction false} ReplayKeyIdempotent(o: Option<Person>, lines: seq<Line>, k: GalleryKey)
    requires BasedLog(lines)
    ensures ReplayKey(ReplayKey(o, lines, k), lines, k) == ReplayKey(o, lines, k)
  {
    var once := ReplayKey(o, lines, k);
    if HasReset(lines, k) {
      ResetForgets(once, o, lines, k);
    } else {
      var start := o;
      if o.None? {
        start := ReplayFromBase(lines, k);
      }
      if start.Some? {
        ReplayMerges(start.value, lines, k);
        ReplayMerges(once.value, lines, k);
        StampSettles(lines, k, start.value.updatedAt, once.value.updatedAt);
        MergeIdempotent(start.value.features, Deltas(lines, k));
      }
    }
  }

  /** Replay idempotence, feature order and time stamps included, for any snapshot and any log --
      blank lines, unknown operations and missing fields included -- whose feature lines carry their record. */
  lemma ReplayIdempotent(people: People, lines: seq<Line>)
    requires BasedLog(lines)
    ensures Replay(Replay(people, lines), lines) == Replay(people, lines)
  {
    var once := Replay(people, lines);
    var twice := Replay(once, lines);
    forall k ensures Lookup(twice, k) == Lookup(once, k) {
      ReplayAtKey(people, lines, k);
      ReplayAtKey(once, lines, k);
      ReplayKeyIdempotent(Lookup(people, k), lines, k);
    }
    LookupExtensional(twice, once);
  }

  function FeatureEntry(key: GalleryKey, base: Option<Person>, f: Feature): Line {
    Entry("upsert_feature", Some(key.tenantId), key.personId, base, Some(f), None)
  }

  lemma TwoLines(o: Option<Person>, first: Line, second: Line, k: GalleryKey)
    requires Addressed(first) && LineKey(first) == k && Addressed(second) && LineKey(second) == k
    ensures ReplayKey(o, [first, second], k) == Rewrite(Rewrite(o, first), second)
  {
    assert [first, second] == [] + [first] + [second];
    ReplayKeyAppend(o, [] + [first], second, k);
    ReplayKeyAppend(o, [], first, k);
  }

  lemma SwapsFeatures(f: Feature, orphan: Feature)
    requires orphan.featureId != f.featureId
    ensures Merge([f], [orphan, f]) == [orphan, f]
  {
    var one := [orphan, f][..1];
    assert one == [orphan] && one[..0] == [];
    assert Merge([f], one[..0]) == [f];
    WithoutNone([f], {orphan.featureId});
    assert Merge([f], one) == [f] + [orphan];
    WithoutConcat([f], [orphan], {f.featureId});
    WithoutEvery([f], {f.featureId});
    WithoutNone([orphan], {f.featureId});
  }

  /** Without its record a feature line is lost on the first replay and found by the second. */
  lemma OrphanLineNotIdempotent(key: GalleryKey, p: Person, orphan: Feature, f: Feature)
    requires key.personId != "" && orphan.featureId != f.featureId
    ensures var lines := [FeatureEntry(key, None, orphan), FeatureEntry(key, Some(p), f)];
            Replay(Replay(map[], lines), lines) != Replay(map[], lines)
  {
    var first, second := FeatureEntry(key, None, orphan), FeatureEntry(key, Some(p), f);
    var lines := [first, second];
    var once := Replay(map[], lines);
    ReplayAtKey(map[], lines, key);
    TwoLines(None, first, second, key);
    var kept := p.(features := [f]);
    assert Lookup(once, key) == Some(kept) by {
      assert Without([], {f.featureId}) + [f] == [f];
    }
    ReplayAtKey(once, lines, key);
    TwoDeltas(first, second, key);
    ReplayMerges(kept, lines, key);
    SwapsFeatures(f, orphan);
    assert Lookup(Replay(once, lines), key).value.features[0] == orphan;
  }

  lemma TwoDeltas(first: Line, second: Line, k: GalleryKey)
    requires IsDelta(first, k) && IsDelta(second, k)
    ensures Deltas([first, second], k) == [first.feature.value, second.feature.value]
    ensures !HasReset([first, second], k)
  {
    assert [first, second][..1] == [first] && [first][..0] == [];
    assert Deltas([first], k) == [first.feature.value];
  }

  /** A log left behind by a failed removal does not disturb the lines appended after it. */
  lemma StaleLogHarmless(people: People, lines: seq<Line>, later: seq<Line>)
    requires BasedLog(lines)
    ensures Replay(Replay(people, lines), lines + later) == Replay(Replay(people, lines), later)
  {
    ReplayConcat(Replay(people, lines), lines, later);
    ReplayIdempotent(people, lines);
  }

  lemma LookupExtensional(a: People, b: People)
    requires forall k :: Lookup(a, k) == Lookup(b, k)
    ensures a == b
  {
    forall k ensures k in a <==> k in b {
      assert Lookup(a, k) == Lookup(b, k);
    }
    forall k | k in a ensures a[k] == b[k] {
      assert Lookup(a, k) == Lookup(b, k);
    }
  }
}
