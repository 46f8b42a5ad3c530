/** The usage ledger of one project, with idempotent recording and reversals, and its aggregation into a report. */
module Metering {
  import opened Common

  datatype Quantities = Quantities(
    requests: real, images: real, video: real, gpu: real, storage: real, network: real, thirdParty: real)

  const NOTHING := Quantities(0.0, 0.0, 0.0, 0.0, 0.0, 0.0, 0.0)

  datatype Labels = Labels(application: string, capability: string, model: string, endpoint: string, resource: string)

  datatype Event = Event(
    id: string, reversal: bool, time: real, labels: Labels, outcome: string, delivery: string, q: Quantities,
    key: Option<string>, digest: Option<string>, seal: string, reverses: Option<string>)

  /** A usage report as submitted, with the digest of its content. */
  datatype Payload = Payload(
    key: string, digest: string, outcome: string, delivery: string, time: real, labels: Labels, q: Quantities)

  datatype Error =
    | KeyReused
    | BadOutcome
    | BadDelivery
    | NegativeQuantity
    | EmptyUsage
    | NoSuchEvent
    | IsReversal
    | NoReason

  datatype Result = Appended(event: Event) | Existing(event: Event) | Refused(error: Error)

  const OUTCOMES := {"success", "business_rejection", "system_failure"}
  const DELIVERIES := {"original", "retry", "duplicate"}
  const KEY_LIMIT := 256

  // ----- quantities -----

  function Plus(a: Quantities, b: Quantities): Quantities {
    Quantities(a.requests + b.requests, a.images + b.images, a.video + b.video, a.gpu + b.gpu,
               a.storage + b.storage, a.network + b.network, a.thirdParty + b.thirdParty)
  }

  function Negated(q: Quantities): Quantities {
    Quantities(-q.requests, -q.images, -q.video, -q.gpu, -q.storage, -q.network, -q.thirdParty)
  }

  predicate SomeNegative(q: Quantities) {
    q.requests < 0.0 || q.images < 0.0 || q.video < 0.0 || q.gpu < 0.0 || q.storage < 0.0 || q.network < 0.0
    || q.thirdParty < 0.0
  }

  // ----- recording and reversing -----

  function First(events: seq<Event>, p: Event -> bool): (r: Option<nat>)
    ensures r.Some? ==> r.value < |events| && p(events[r.value])
    ensures r.Some? ==> forall i :: 0 <= i < r.value ==> !p(events[i])
    ensures r.None? ==> forall i :: 0 <= i < |events| ==> !p(events[i])
  {
    if events == [] then None
    else
      var n := |events| - 1;
      var earlier := First(events[..n], p);
      if earlier.Some? then earlier else if p(events[n]) then Some(n) else None
  }

  function Clip(s: string, n: nat): string {
    if |s| <= n then s else s[..n]
  }

  function Named(s: string, default: string, n: nat): string {
    Clip(if s == "" then default else s, n)
  }

  function LabelsOf(l: Labels): Labels {
    Labels(Named(l.application, "--", 128), Named(l.capability, "unknown", 128), Named(l.model, "unknown", 256),
           Named(l.endpoint, "unknown", 512), Named(l.resource, "request", 64))
  }

  /** Only the first 256 characters of an idempotency key are stored. */
  function StoredKey(key: string): Option<string> {
    if key == "" then None else Some(Clip(key, KEY_LIMIT))
  }

  function Usage(p: Payload, id: string, now: real, seal: string): Event {
    Event(id, false, if p.time != 0.0 then p.time else now, LabelsOf(p.labels),
          if p.outcome == "" then "success" else p.outcome, if p.delivery == "" then "original" else p.delivery,
          p.q, StoredKey(p.key), Some(p.digest), seal, None)
  }

  function UsageError(p: Payload): Option<Error> {
    if p.outcome != "" && p.outcome !in OUTCOMES then Some(BadOutcome)
    else if p.delivery != "" && p.delivery !in DELIVERIES then Some(BadDelivery)
    else if SomeNegative(p.q) then Some(NegativeQuantity)
    else if p.q == NOTHING then Some(EmptyUsage)
    else None
  }

  /** A submitted key is looked up in full. */
  function WithKey(key: string): Event -> bool {
    (e: Event) => e.key == Some(key)
  }

  function RecordAnswer(events: seq<Event>, p: Payload, id: string, now: real, seal: string): Result {
    var i := if p.key == "" then None else First(events, WithKey(p.key));
    if i.Some? then
      (if events[i.value].digest in {None, Some(p.digest)} then Existing(events[i.value]) else Refused(KeyReused))
    else if UsageError(p).Some? then Refused(UsageError(p).value)
    else Appended(Usage(p, id, now, seal))
  }

  function WithId(id: string): Event -> bool {
    (e: Event) => e.id == id
  }

  function Reversing(id: string): Event -> bool {
    (e: Event) => e.reverses == Some(id)
  }

  function Reversal(e: Event, id: string, now: real, seal: string): Event {
    Event(id, true, now, e.labels, e.outcome, "reversal", Negated(e.q), Some("reversal:" + e.id), Some(e.seal), seal,
          Some(e.id))
  }

  function ReverseAnswer(events: seq<Event>, target: string, reason: string, id: string, now: real, seal: string)
    : Result
  {
    var i := First(events, WithId(target));
    if i.None? then Refused(NoSuchEvent)
    else if events[i.value].reversal then Refused(IsReversal)
    else
      var r := First(events, Reversing(target));
      if r.Some? then Existing(events[r.value])
      else if reason == "" then Refused(NoReason)
      else Appended(Reversal(events[i.value], id, now, seal))
  }

  function Extended(events: seq<Event>, answer: Result): seq<Event> {
    if answer.Appended? then events + [answer.event] else events
  }

  lemma FirstFound(events: seq<Event>, p: Event -> bool, i: nat)
    requires i < |events| && p(events[i]) && forall k :: 0 <= k < i ==> !p(events[k])
    ensures First(events, p) == Some(i)
  {
  }

  class UsageLedger {
    var events: seq<Event>

    constructor ()
      ensures events == []
    {
      events := [];
    }

    method Find(p: Event -> bool) returns (found: Option<nat>)
      ensures found == First(events, p)
    {
      for i := 0 to |events|
        invariant forall k :: 0 <= k < i ==> !p(events[k])
      {
        if p(events[i]) {
          FirstFound(events, p, i);
          return Some(i);
        }
      }
      found := None;
    }

    method RecordUsageEvent(p: Payload, id: string, now: real, seal: string) returns (answer: Result)
      modifies this
      ensures answer == RecordAnswer(old(events), p, id, now, seal)
      ensures events == Extended(old(events), answer)
    {
      if p.key != "" {
        var i := Find(WithKey(p.key));
        if i.Some? {
          if events[i.value].digest.Some? && events[i.value].digest != Some(p.digest) {
            return Refused(KeyReused);
          }
          return Existing(events[i.value]);
        }
      }
      var error := UsageError(p);
      if error.Some? {
        return Refused(error.value);
      }
      var record := Usage(p, id, now, seal);
      events := events + [record];
      answer := Appended(record);
    }

    method ReverseUsageEvent(target: string, reason: string, id: string, now: real, seal: string)
      returns (answer: Result)
      modifies this
      ensures answer == ReverseAnswer(old(events), target, reason, id, now, seal)
      ensures events == Extended(old(events), answer)
    {
      var original := Find(WithId(target));
      if original.None? {
        return Refused(NoSuchEvent);
      }
      if events[original.value].reversal {
        return Refused(IsReversal);
      }
      var existing := Find(Reversing(target));
      if existing.Some? {
        return Existing(events[existing.value]);
      }
      if reason == "" {
        return Refused(NoReason);
      }
      var record := Reversal(events[original.value], id, now, seal);
      events := events + [record];
      answer := Appended(record);
    }
  }

  // ----- prices -----

  datatype Prices = Prices(
    request: real, image: real, video: real, gpu: real, storageGbMonth: real, networkGb: real, thirdParty: real)

  datatype CostModel = CostModel(effectiveAt: real, version: string, currency: string, prices: Prices)

  const GIB := 1073741824.0
  const MONTH := 2592000.0

  /** Among the models in effect at this time, the one that took effect last; the earliest listed breaks ties. */
  function ModelFor(models: seq<CostModel>, time: real): (m: Option<CostModel>)
    ensures m.None? <==> forall x :: x in models ==> x.effectiveAt > time
    ensures m.Some? ==> m.value in models && m.value.effectiveAt <= time
    ensures m.Some? ==> forall x :: x in models && x.effectiveAt <= time ==> x.effectiveAt <= m.value.effectiveAt
  {
    if models == [] then None
    else
      var n := |models| - 1;
      var best := ModelFor(models[..n], time);
      assert models == models[..n] + [models[n]];
      if models[n].effectiveAt <= time && (best.None? || models[n].effectiveAt > best.value.effectiveAt)
      then Some(models[n]) else best
  }

  function Cost(q: Quantities, p: Prices): real {
    q.requests * p.request + q.images * p.image + q.video * p.video + q.gpu * p.gpu
    + q.storage / GIB / MONTH * p.storageGbMonth + q.network / GIB * p.networkGb + q.thirdParty * p.thirdParty
  }

  function CostOf(models: seq<CostModel>, e: Event): real {
    var m := ModelFor(models, e.time);
    if m.None? then 0.0 else Cost(e.q, m.value.prices)
  }

  // ----- aggregation -----

  datatype Bucket = Bucket(
    requests: real, success: real, rejection: real, failure: real, retry: real, duplicate: real,
    images: real, video: real, gpu: real, cost: real)

  const EMPTY_BUCKET := Bucket(0.0, 0.0, 0.0, 0.0, 0.0, 0.0, 0.0, 0.0, 0.0, 0.0)

  datatype Report = Report(
    totals: Quantities, outcomes: map<string, real>, deliveries: map<string, real>,
    endpoints: map<string, real>, models: map<string, real>, capabilities: map<string, real>,
    resources: map<string, real>, applications: map<string, real>,
    buckets: map<string, Bucket>, cost: real, priced: nat, unpriced: nat, currencies: set<string>)

  const EMPTY_REPORT := Report(NOTHING, map[], map[], map[], map[], map[], map[], map[], map[], 0.0, 0, 0, {})

  function Bump(m: map<string, real>, k: string, x: real): map<string, real> {
    m[k := (if k in m then m[k] else 0.0) + x]
  }

  function AddTo(b: Bucket, e: Event, cost: real): Bucket {
    var n := e.q.requests;
    Bucket(b.requests + n,
           if e.outcome == "success" then b.success + n else b.success,
           if e.outcome == "business_rejection" then b.rejection + n else b.rejection,
           if e.outcome == "system_failure" then b.failure + n else b.failure,
           if e.delivery == "retry" then b.retry + n else b.retry,
           if e.delivery == "duplicate" then b.duplicate + n else b.duplicate,
           b.images + e.q.images, b.video + e.q.video, b.gpu + e.q.gpu, b.cost + cost)
  }

  function BucketOf(m: map<string, Bucket>, k: string): Bucket {
    if k in m then m[k] else EMPTY_BUCKET
  }

  /** The report of one more event, priced at `cost` by model m and falling in period k. */
  function CountedAs(r: Report, e: Event, m: Option<CostModel>, cost: real, k: string): Report {
    var n := e.q.requests;
    Report(Plus(r.totals, e.q), Bump(r.outcomes, e.outcome, n), Bump(r.deliveries, e.delivery, n),
           Bump(r.endpoints, e.labels.endpoint, n), Bump(r.models, e.labels.model, n),
           Bump(r.capabilities, e.labels.capability, n), Bump(r.resources, e.labels.resource, n),
           Bump(r.applications, e.labels.application, n),
           r.buckets[k := AddTo(BucketOf(r.buckets, k), e, cost)],
           r.cost + cost, r.priced + (if m.Some? then 1 else 0), r.unpriced + (if m.Some? then 0 else 1),
           r.currencies + if m.Some? then {m.value.currency} else {})
  }

  /** `period` names the day or month an instant falls in. */
  function Counted(r: Report, e: Event, models: seq<CostModel>, period: real -> string): Report {
    CountedAs(r, e, ModelFor(models, e.time), CostOf(models, e), period(e.time))
  }

  function Aggregated(events: seq<Event>, models: seq<CostModel>, period: real -> string): Report {
    if events == [] then EMPTY_REPORT
    else Counted(Aggregated(events[..|events| - 1], models, period), events[|events| - 1], models, period)
  }

  /** Counts one event into the running report. */
  method CountEvent(r: Report, e: Event, models: seq<CostModel>, period: real -> string) returns (s: Report)
    ensures s == Counted(r, e, models, period)
  {
    var n, k := e.q.requests, period(e.time);
    s := r.(totals := Plus(r.totals, e.q), outcomes := Bump(r.outcomes, e.outcome, n),
            deliveries := Bump(r.deliveries, e.delivery, n), endpoints := Bump(r.endpoints, e.labels.endpoint, n),
            models := Bump(r.models, e.labels.model, n), capabilities := Bump(r.capabilities, e.labels.capability, n),
            resources := Bump(r.resources, e.labels.resource, n),
            applications := Bump(r.applications, e.labels.application, n));
    var bucket := AddTo(BucketOf(r.buckets, k), e, 0.0);
    var m := ModelFor(models, e.time);
    if m.None? {
      return s.(unpriced := s.unpriced + 1, buckets := s.buckets[k := bucket]);
    }
    var cost := Cost(e.q, m.value.prices);
    s := s.(priced := s.priced + 1, cost := s.cost + cost,
            buckets := s.buckets[k := bucket.(cost := bucket.cost + cost)],
            currencies := s.currencies + {m.value.currency});
  }

  method AggregateUsage(events: seq<Event>, models: seq<CostModel>, period: real -> string) returns (r: Report)
    ensures r == Aggregated(events, models, period)
  {
    r := EMPTY_REPORT;
    for i := 0 to |events|
      invariant r == Aggregated(events[..i], models, period)
    {
      assert events[..i + 1][..i] == events[..i];
      r := CountEvent(r, events[i], models, period);
    }
    assert events[..|events|] == events;
  }
}
