/** Conservation in the usage report, and what idempotency and reversals mean for the ledger. */
module MeteringLaws {
  import opened Common
  import opened Metering

  // ----- sums -----

  function Sum(events: seq<Event>, g: Event -> real): real {
    if events == [] then 0.0 else Sum(events[..|events| - 1], g) + g(events[|events| - 1])
  }

  /** The sum of a quantity over the entries of a map, in any order. */
  ghost function SumOver<V>(m: map<string, V>, f: V -> real): real {
    if m == map[] then 0.0
    else
      var k :| k in m;
      f(m[k]) + SumOver(m - {k}, f)
  }

  lemma {:induction false} SumOverAt<V>(m: map<string, V>, f: V -> real, k: string)
    requires k in m
    ensures SumOver(m, f) == f(m[k]) + SumOver(m - {k}, f)
    decreases |m|
  {
    var j :| j in m && SumOver(m, f) == f(m[j]) + SumOver(m - {j}, f);
    if j != k {
      SumOverAt(m - {j}, f, k);
      SumOverAt(m - {k}, f, j);
      assert m - {j} - {k} == m - {k} - {j};
    }
  }

  lemma SumOverPut<V>(m: map<string, V>, f: V -> real, k: string, v: V)
    ensures SumOver(m[k := v], f) == SumOver(m - {k}, f) + f(v)
  {
    SumOverAt(m[k := v], f, k);
    assert m[k := v] - {k} == m - {k};
  }

  lemma SumOverAbsent<V>(m: map<string, V>, k: string)
    requires k !in m
    ensures m - {k} == m
  {
  }

  lemma {:induction false} SumConcat(a: seq<Event>, b: seq<Event>, g: Event -> real)
    ensures Sum(a + b, g) == Sum(a, g) + Sum(b, g)
  {
    if b == [] {
      assert a + b == a;
    } else {
      assert (a + b)[..|a + b| - 1] == a + b[..|b| - 1];
      SumConcat(a, b[..|b| - 1], g);
    }
  }

  // ----- what each accumulator of the report means -----

  function Requests(e: Event): real {
    e.q.requests
  }

  /** Requests of the events carrying one label. */
  function Labelled(tag: Event -> string, k: string): Event -> real {
    (e: Event) => if tag(e) == k then e.q.requests else 0.0
  }

  /** The accumulation of one dimension. */
  function Grouped(events: seq<Event>, tag: Event -> string): map<string, real> {
    if events == [] then map[]
    else
      var e := events[|events| - 1];
      Bump(Grouped(events[..|events| - 1], tag), tag(e), e.q.requests)
  }

  /** An entry exists for every label that occurs, and holds the requests of its events. */
  lemma {:induction false} GroupedAt(events: seq<Event>, tag: Event -> string, k: string)
    ensures k in Grouped(events, tag) <==> exists e :: e in events && tag(e) == k
    ensures Sum(events, Labelled(tag, k)) == Lookup(Grouped(events, tag), k).GetOr(0.0)
  {
    if events != [] {
      var init, last := events[..|events| - 1], events[|events| - 1];
      assert events == init + [last];
      GroupedAt(init, tag, k);
    }
  }

  function Id(x: real): real {
    x
  }

  /** The entries of one dimension add up to all requests. */
  lemma {:induction false} GroupedTotal(events: seq<Event>, tag: Event -> string)
    ensures SumOver(Grouped(events, tag), Id) == Sum(events, Requests)
  {
    if events != [] {
      var init, e := events[..|events| - 1], events[|events| - 1];
      var m := Grouped(init, tag);
      GroupedTotal(init, tag);
      SumOverPut(m, Id, tag(e), (if tag(e) in m then m[tag(e)] else 0.0) + e.q.requests);
      if tag(e) in m {
        SumOverAt(m, Id, tag(e));
      } else {
        SumOverAbsent(m, tag(e));
      }
    }
  }

  function Outcome(e: Event): string { e.outcome }
  function Delivery(e: Event): string { e.delivery }
  function Endpoint(e: Event): string { e.labels.endpoint }
  function Model(e: Event): string { e.labels.model }
  function Capability(e: Event): string { e.labels.capability }
  function Resource(e: Event): string { e.labels.resource }
  function Application(e: Event): string { e.labels.application }

  function Images(e: Event): real { e.q.images }
  function Video(e: Event): real { e.q.video }
  function Gpu(e: Event): real { e.q.gpu }
  function Storage(e: Event): real { e.q.storage }
  function Network(e: Event): real { e.q.network }
  function ThirdParty(e: Event): real { e.q.thirdParty }

  lemma {:induction false} ReportDimensions(events: seq<Event>, models: seq<CostModel>, period: real -> string)
    ensures var r := Aggregated(events, models, period);
            && r.outcomes == Grouped(events, Outcome) && r.deliveries == Grouped(events, Delivery)
            && r.endpoints == Grouped(events, Endpoint) && r.models == Grouped(events, Model)
            && r.capabilities == Grouped(events, Capability) && r.resources == Grouped(events, Resource)
            && r.applications == Grouped(events, Application)
  {
    if events != [] {
      ReportDimensions(events[..|events| - 1], models, period);
    }
  }

  /** The price of each event under the project's cost models. */
  function Priced(models: seq<CostModel>): Event -> real {
    (e: Event) => CostOf(models, e)
  }

  lemma {:induction false} ReportCost(events: seq<Event>, models: seq<CostModel>, period: real -> string)
    ensures Aggregated(events, models, period).cost == Sum(events, Priced(models))
    ensures Aggregated(events, models, period).priced + Aggregated(events, models, period).unpriced == |events|
  {
    if events != [] {
      ReportCost(events[..|events| - 1], models, period);
    }
  }

  function Totals(events: seq<Event>): Quantities {
    Quantities(Sum(events, Requests), Sum(events, Images), Sum(events, Video), Sum(events, Gpu),
               Sum(events, Storage), Sum(events, Network), Sum(events, ThirdParty))
  }

  lemma TotalsStep(events: seq<Event>)
    requires events != []
    ensures Totals(events) == Plus(Totals(events[..|events| - 1]), events[|events| - 1].q)
  {
  }

  lemma {:induction false} ReportTotals(events: seq<Event>, models: seq<CostModel>, period: real -> string)
    ensures Aggregated(events, models, period).totals == Totals(events)
  {
    if events != [] {
      ReportTotals(events[..|events| - 1], models, period);
      TotalsStep(events);
    }
  }

  /** Outcomes, delivery kinds and each of the five dimensions partition the requests: every one of
      them adds up to the total. */
  lemma DimensionsConserve(events: seq<Event>, models: seq<CostModel>, period: real -> string)
    ensures var r := Aggregated(events, models, period);
            var all := r.totals.requests;
            && SumOver(r.outcomes, Id) == all && SumOver(r.deliveries, Id) == all && SumOver(r.endpoints, Id) == all
            && SumOver(r.models, Id) == all && SumOver(r.capabilities, Id) == all && SumOver(r.resources, Id) == all
            && SumOver(r.applications, Id) == all
  {
    ReportDimensions(events, models, period);
    ReportTotals(events, models, period);
    GroupedTotal(events, Outcome);
    GroupedTotal(events, Delivery);
    GroupedTotal(events, Endpoint);
    GroupedTotal(events, Model);
    GroupedTotal(events, Capability);
    GroupedTotal(events, Resource);
    GroupedTotal(events, Application);
  }

  /** A field of a bucket that grows by g with each event adds up, over all buckets, to the sum of g. */
  lemma {:induction false} BucketsConserve(
    events: seq<Event>, models: seq<CostModel>, period: real -> string, f: Bucket -> real, g: Event -> real)
    requires f(EMPTY_BUCKET) == 0.0
    requires forall b, e :: f(AddTo(b, e, CostOf(models, e))) == f(b) + g(e)
    ensures SumOver(Aggregated(events, models, period).buckets, f) == Sum(events, g)
  {
    if events != [] {
      var init, e := events[..|events| - 1], events[|events| - 1];
      var m, k := Aggregated(init, models, period).buckets, period(e.time);
      BucketsConserve(init, models, period, f, g);
      SumOverPut(m, f, k, AddTo(BucketOf(m, k), e, CostOf(models, e)));
      if k in m {
        SumOverAt(m, f, k);
      } else {
        SumOverAbsent(m, k);
      }
    }
  }

  /** The periods of the series partition the totals and the cost. */
  lemma SeriesConserves(events: seq<Event>, models: seq<CostModel>, period: real -> string)
    ensures var r := Aggregated(events, models, period);
            && SumOver(r.buckets, (b: Bucket) => b.requests) == r.totals.requests
            && SumOver(r.buckets, (b: Bucket) => b.images) == r.totals.images
            && SumOver(r.buckets, (b: Bucket) => b.video) == r.totals.video
            && SumOver(r.buckets, (b: Bucket) => b.gpu) == r.totals.gpu
            && SumOver(r.buckets, (b: Bucket) => b.cost) == r.cost
  {
    ReportTotals(events, models, period);
    ReportCost(events, models, period);
    BucketsConserve(events, models, period, (b: Bucket) => b.requests, Requests);
    BucketsConserve(events, models, period, (b: Bucket) => b.images, Images);
    BucketsConserve(events, models, period, (b: Bucket) => b.video, Video);
    BucketsConserve(events, models, period, (b: Bucket) => b.gpu, Gpu);
    BucketsConserve(events, models, period, (b: Bucket) => b.cost, Priced(models));
  }

  /** Within every period, the three outcomes add up to the requests, when no other outcome was recorded. */
  lemma {:induction false} BucketOutcomes(events: seq<Event>, models: seq<CostModel>, period: real -> string, k: string)
    requires forall e :: e in events ==> e.outcome in OUTCOMES
    ensures var b := BucketOf(Aggregated(events, models, period).buckets, k);
            b.success + b.rejection + b.failure == b.requests
  {
    if events != [] {
      assert events[|events| - 1] in events;
      BucketOutcomes(events[..|events| - 1], models, period, k);
    }
  }

  // ----- the order of the events -----

  lemma SplitAt(s: seq<Event>, i: nat)
    requires i < |s|
    ensures s == s[..i] + [s[i]] + s[i + 1..]
  {
  }

  lemma Without(s: seq<Event>, i: nat)
    requires i < |s|
    ensures multiset(s) == multiset(s[..i] + s[i + 1..]) + multiset{s[i]}
  {
    SplitAt(s, i);
  }

  lemma Cancel(m: multiset<Event>, a: multiset<Event>, b: multiset<Event>, x: Event)
    requires m == a + multiset{x} && m == b + multiset{x}
    ensures a == b
  {
    assert a == m - multiset{x} && b == m - multiset{x};
  }

  lemma SameRest(a: seq<Event>, b: seq<Event>, i: nat)
    requires a != [] && i < |b| && b[i] == a[0] && multiset(a) == multiset(b)
    ensures multiset(a[..0] + a[1..]) == multiset(b[..i] + b[i + 1..])
  {
    Without(a, 0);
    Without(b, i);
    Cancel(multiset(a), multiset(a[..0] + a[1..]), multiset(b[..i] + b[i + 1..]), a[0]);
  }

  lemma SumSnoc(s: seq<Event>, e: Event, g: Event -> real)
    ensures Sum(s + [e], g) == Sum(s, g) + g(e)
  {
    assert (s + [e])[..|s|] == s;
  }

  lemma SumMiddle(a: seq<Event>, x: Event, b: seq<Event>, g: Event -> real)
    ensures Sum(a + [x] + b, g) == Sum(a + b, g) + g(x)
  {
    SumConcat(a + [x], b, g);
    SumSnoc(a, x, g);
    SumConcat(a, b, g);
  }

  lemma SumWithout(s: seq<Event>, i: nat, g: Event -> real)
    requires i < |s|
    ensures Sum(s, g) == Sum(s[..i] + s[i + 1..], g) + g(s[i])
  {
    SplitAt(s, i);
    SumMiddle(s[..i], s[i], s[i + 1..], g);
  }

  /** The report's sums depend on which events there are, not on their order. */
  lemma {:induction false} OrderDoesNotMatter(a: seq<Event>, b: seq<Event>, g: Event -> real)
    requires multiset(a) == multiset(b)
    ensures Sum(a, g) == Sum(b, g)
    decreases |a|
  {
    if a == [] {
      assert |multiset(b)| == 0;
    } else {
      assert a[0] in multiset(b);
      var i :| 0 <= i < |b| && b[i] == a[0];
      SameRest(a, b, i);
      OrderDoesNotMatter(a[..0] + a[1..], b[..i] + b[i + 1..], g);
      SumWithout(a, 0, g);
      SumWithout(b, i, g);
    }
  }

  lemma BumpCommutes(m: map<string, real>, j: string, x: real, k: string, y: real)
    ensures Bump(Bump(m, j, x), k, y) == Bump(Bump(m, k, y), j, x)
  {
  }

  lemma AddCommutes(b: Bucket, e: Event, x: real, f: Event, y: real)
    ensures AddTo(AddTo(b, e, x), f, y) == AddTo(AddTo(b, f, y), e, x)
  {
  }

  lemma BucketsCommute(m: map<string, Bucket>, j: string, e: Event, x: real, k: string, f: Event, y: real)
    ensures var one, two := m[j := AddTo(BucketOf(m, j), e, x)], m[k := AddTo(BucketOf(m, k), f, y)];
            one[k := AddTo(BucketOf(one, k), f, y)] == two[j := AddTo(BucketOf(two, j), e, x)]
  {
    AddCommutes(BucketOf(m, k), e, x, f, y);
  }

  /** Two events can be counted in either order: tables and buckets. */
  lemma TablesCommute(r: Report, e: Event, m: Option<CostModel>, x: real, j: string,
                      f: Event, n: Option<CostModel>, y: real, k: string)
    ensures var a := CountedAs(CountedAs(r, e, m, x, j), f, n, y, k);
            var b := CountedAs(CountedAs(r, f, n, y, k), e, m, x, j);
            && a.outcomes == b.outcomes && a.deliveries == b.deliveries && a.endpoints == b.endpoints
            && a.models == b.models && a.capabilities == b.capabilities && a.resources == b.resources
            && a.applications == b.applications && a.buckets == b.buckets
  {
    var u, v := e.q.requests, f.q.requests;
    BumpCommutes(r.outcomes, e.outcome, u, f.outcome, v);
    BumpCommutes(r.deliveries, e.delivery, u, f.delivery, v);
    BumpCommutes(r.endpoints, e.labels.endpoint, u, f.labels.endpoint, v);
    BumpCommutes(r.models, e.labels.model, u, f.labels.model, v);
    BumpCommutes(r.capabilities, e.labels.capability, u, f.labels.capability, v);
    BumpCommutes(r.resources, e.labels.resource, u, f.labels.resource, v);
    BumpCommutes(r.applications, e.labels.application, u, f.labels.application, v);
    BucketsCommute(r.buckets, j, e, x, k, f, y);
  }

  lemma TotalsCommute(t: Quantities, p: Quantities, q: Quantities)
    ensures Plus(Plus(t, p), q) == Plus(Plus(t, q), p)
  {
  }

  lemma CountedCommutes(r: Report, e: Event, m: Option<CostModel>, x: real, j: string,
                        f: Event, n: Option<CostModel>, y: real, k: string)
    ensures CountedAs(CountedAs(r, e, m, x, j), f, n, y, k) == CountedAs(CountedAs(r, f, n, y, k), e, m, x, j)
  {
    TablesCommute(r, e, m, x, j, f, n, y, k);
    TotalsCommute(r.totals, e.q, f.q);
  }

  lemma AggregatedSnoc(s: seq<Event>, e: Event, models: seq<CostModel>, period: real -> string)
    ensures Aggregated(s + [e], models, period) == Counted(Aggregated(s, models, period), e, models, period)
  {
    assert (s + [e])[..|s|] == s;
  }

  /** Any event can be counted last. */
  lemma {:induction false} CountedLast(
    a: seq<Event>, e: Event, b: seq<Event>, models: seq<CostModel>, period: real -> string)
    ensures Aggregated(a + [e] + b, models, period) == Counted(Aggregated(a + b, models, period), e, models, period)
  {
    if b == [] {
      assert a + [e] + b == a + [e] && a + b == a;
      AggregatedSnoc(a, e, models, period);
    } else {
      var init, f := b[..|b| - 1], b[|b| - 1];
      assert a + [e] + b == a + [e] + init + [f] && a + b == a + init + [f];
      CountedLast(a, e, init, models, period);
      AggregatedSnoc(a + [e] + init, f, models, period);
      AggregatedSnoc(a + init, f, models, period);
      CountedCommutes(Aggregated(a + init, models, period), e, ModelFor(models, e.time), CostOf(models, e),
                      period(e.time), f, ModelFor(models, f.time), CostOf(models, f), period(f.time));
    }
  }

  /** The whole report -- totals, tables, buckets, cost, counters and currencies -- depends on which
      events there are, not on their order. */
  lemma {:induction false} ReportIgnoresOrder(
    a: seq<Event>, b: seq<Event>, models: seq<CostModel>, period: real -> string)
    requires multiset(a) == multiset(b)
    ensures Aggregated(a, models, period) == Aggregated(b, models, period)
    decreases |a|
  {
    if a == [] {
      assert |multiset(b)| == 0;
    } else {
      assert a[0] in multiset(b);
      var i :| 0 <= i < |b| && b[i] == a[0];
      SameRest(a, b, i);
      ReportIgnoresOrder(a[..0] + a[1..], b[..i] + b[i + 1..], models, period);
      SplitAt(a, 0);
      SplitAt(b, i);
      CountedLast(a[..0], a[0], a[1..], models, period);
      CountedLast(b[..i], b[i], b[i + 1..], models, period);
    }
  }

  // ----- reversals -----

  /** Two events whose contributions cancel leave no trace in the sum, wherever they stand. */
  lemma PairCancels(a: seq<Event>, x: Event, b: seq<Event>, y: Event, c: seq<Event>, g: Event -> real)
    requires g(x) + g(y) == 0.0
    ensures Sum(a + [x] + b + [y] + c, g) == Sum(a + b + c, g)
  {
    SumMiddle(a + [x] + b, y, c, g);
    SumConcat(a + [x] + b, c, g);
    SumMiddle(a, x, b, g);
    SumConcat(a + b, c, g);
  }

  predicate Reverses(x: Event, r: Event) {
    r.labels == x.labels && r.outcome == x.outcome && r.q == Negated(x.q)
  }

  /** A quantity that a reversal takes back in full. */
  ghost predicate Odd(g: Event -> real) {
    forall x, r :: Reverses(x, r) ==> g(x) + g(r) == 0.0
  }

  lemma QuantitiesOdd()
    ensures Odd(Requests) && Odd(Images) && Odd(Video) && Odd(Gpu) && Odd(Storage) && Odd(Network) && Odd(ThirdParty)
  {
  }

  /** In a report that includes both, they leave no trace in the entry of any outcome or dimension;
      among the delivery kinds, the requests move from the event's kind to "reversal". */
  lemma ReversalLeavesNoTrace(
    a: seq<Event>, x: Event, b: seq<Event>, r: Event, c: seq<Event>, tag: Event -> string, k: string)
    requires Reverses(x, r)
    ensures var with, without := a + [x] + b + [r] + c, a + b + c;
            Sum(with, Labelled(tag, k)) == Sum(without, Labelled(tag, k))
              + if tag(x) == tag(r) then 0.0
                else if tag(x) == k then x.q.requests
                else if tag(r) == k then -x.q.requests
                else 0.0
  {
    var g := Labelled(tag, k);
    SumMiddle(a + [x] + b, r, c, g);
    SumConcat(a + [x] + b, c, g);
    SumMiddle(a, x, b, g);
    SumConcat(a + b, c, g);
  }

  /** A label that reversals inherit, as all but the delivery kind are. */
  ghost predicate Inherited(tag: Event -> string) {
    forall x, r :: Reverses(x, r) ==> tag(x) == tag(r)
  }

  lemma InheritedTags()
    ensures Inherited(Outcome) && Inherited(Endpoint) && Inherited(Model)
    ensures Inherited(Capability) && Inherited(Resource) && Inherited(Application)
  {
  }

  lemma InheritedOdd(tag: Event -> string, k: string)
    requires Inherited(tag)
    ensures Odd(Labelled(tag, k))
  {
    forall x, r | Reverses(x, r) ensures Labelled(tag, k)(x) + Labelled(tag, k)(r) == 0.0 {
      assert tag(x) == tag(r);
    }
  }

  /** One entry of a report's table; a label that does not occur counts nothing. */
  function EntryOf(m: map<string, real>, k: string): real {
    Lookup(m, k).GetOr(0.0)
  }

  lemma PairInDimension(
    a: seq<Event>, x: Event, b: seq<Event>, r: Event, c: seq<Event>, tag: Event -> string, k: string)
    requires Reverses(x, r)
    ensures var with, without := Grouped(a + [x] + b + [r] + c, tag), Grouped(a + b + c, tag);
            EntryOf(with, k) == EntryOf(without, k)
              + if tag(x) == tag(r) then 0.0
                else if tag(x) == k then x.q.requests
                else if tag(r) == k then -x.q.requests
                else 0.0
  {
    ReversalLeavesNoTrace(a, x, b, r, c, tag, k);
    GroupedAt(a + [x] + b + [r] + c, tag, k);
    GroupedAt(a + b + c, tag, k);
  }

  /** A report whose window holds an event and its reversal: the outcome and dimension tables are those
      without the two. Among the delivery kinds the requests move from the event's
      kind to the reversal's. */
  lemma PairInReport(
    a: seq<Event>, x: Event, b: seq<Event>, r: Event, c: seq<Event>,
    models: seq<CostModel>, period: real -> string, k: string)
    requires Reverses(x, r) && x.delivery != r.delivery
    ensures var with := Aggregated(a + [x] + b + [r] + c, models, period);
            var without := Aggregated(a + b + c, models, period);
            && EntryOf(with.outcomes, k) == EntryOf(without.outcomes, k)
            && EntryOf(with.endpoints, k) == EntryOf(without.endpoints, k)
            && EntryOf(with.models, k) == EntryOf(without.models, k)
            && EntryOf(with.capabilities, k) == EntryOf(without.capabilities, k)
            && EntryOf(with.resources, k) == EntryOf(without.resources, k)
            && EntryOf(with.applications, k) == EntryOf(without.applications, k)
            && EntryOf(with.deliveries, k) == EntryOf(without.deliveries, k)
                 + (if k == x.delivery then x.q.requests else if k == r.delivery then -x.q.requests else 0.0)
  {
    ReportDimensions(a + [x] + b + [r] + c, models, period);
    ReportDimensions(a + b + c, models, period);
    InheritedTags();
    PairInDimension(a, x, b, r, c, Outcome, k);
    PairInDimension(a, x, b, r, c, Endpoint, k);
    PairInDimension(a, x, b, r, c, Model, k);
    PairInDimension(a, x, b, r, c, Capability, k);
    PairInDimension(a, x, b, r, c, Resource, k);
    PairInDimension(a, x, b, r, c, Application, k);
    PairInDimension(a, x, b, r, c, Delivery, k);
  }

  lemma PairInTotals(
    a: seq<Event>, x: Event, b: seq<Event>, r: Event, c: seq<Event>, models: seq<CostModel>, period: real -> string)
    requires Reverses(x, r)
    ensures Aggregated(a + [x] + b + [r] + c, models, period).totals == Aggregated(a + b + c, models, period).totals
  {
    ReportTotals(a + [x] + b + [r] + c, models, period);
    ReportTotals(a + b + c, models, period);
    QuantitiesOdd();
    PairCancels(a, x, b, r, c, Requests);
    PairCancels(a, x, b, r, c, Images);
    PairCancels(a, x, b, r, c, Video);
    PairCancels(a, x, b, r, c, Gpu);
    PairCancels(a, x, b, r, c, Storage);
    PairCancels(a, x, b, r, c, Network);
    PairCancels(a, x, b, r, c, ThirdParty);
  }

  lemma CostNegates(q: Quantities, p: Prices)
    ensures Cost(Negated(q), p) == -Cost(q, p)
  {
    assert -q.requests * p.request == -(q.requests * p.request);
    assert -q.images * p.image == -(q.images * p.image);
    assert -q.video * p.video == -(q.video * p.video);
    assert -q.gpu * p.gpu == -(q.gpu * p.gpu);
    assert -q.storage / GIB / MONTH * p.storageGbMonth == -(q.storage / GIB / MONTH * p.storageGbMonth);
    assert -q.network / GIB * p.networkGb == -(q.network / GIB * p.networkGb);
    assert -q.thirdParty * p.thirdParty == -(q.thirdParty * p.thirdParty);
  }

  /** What the usage would have cost at another time. */
  function CostAt(models: seq<CostModel>, q: Quantities, time: real): real {
    var m := ModelFor(models, time);
    if m.None? then 0.0 else Cost(q, m.value.prices)
  }

  /** The pair cancels in the cost exactly when the usage costs the same at both times; in
      particular when the same model is in effect. */
  lemma ReversalCost(models: seq<CostModel>, x: Event, r: Event)
    requires Reverses(x, r)
    ensures CostOf(models, x) + CostOf(models, r) == 0.0 <==> CostAt(models, x.q, x.time) == CostAt(models, x.q, r.time)
    ensures ModelFor(models, x.time) == ModelFor(models, r.time) ==> CostOf(models, x) + CostOf(models, r) == 0.0
  {
    var m := ModelFor(models, r.time);
    if m.Some? {
      CostNegates(x.q, m.value.prices);
    }
  }

  /** A report whose window holds an event and its reversal: the cost is that without the two exactly when
      the usage costs the same at both times. */
  lemma PairInCost(
    a: seq<Event>, x: Event, b: seq<Event>, r: Event, c: seq<Event>, models: seq<CostModel>, period: real -> string)
    requires Reverses(x, r)
    ensures Aggregated(a + [x] + b + [r] + c, models, period).cost == Aggregated(a + b + c, models, period).cost <==>
            CostAt(models, x.q, x.time) == CostAt(models, x.q, r.time)
  {
    var g := Priced(models);
    ReportCost(a + [x] + b + [r] + c, models, period);
    ReportCost(a + b + c, models, period);
    SumMiddle(a + [x] + b, r, c, g);
    SumConcat(a + [x] + b, c, g);
    SumMiddle(a, x, b, g);
    SumConcat(a + b, c, g);
    ReversalCost(models, x, r);
  }

  // ----- the ledger over whole runs -----

  datatype Op =
    | Record(p: Payload, id: string, now: real, seal: string)
    | Reverse(target: string, reason: string, id: string, now: real, seal: string)

  function Answer(events: seq<Event>, op: Op): Result {
    match op
    case Record(p, id, now, seal) => RecordAnswer(events, p, id, now, seal)
    case Reverse(target, reason, id, now, seal) => ReverseAnswer(events, target, reason, id, now, seal)
  }

  function Ledger(ops: seq<Op>): seq<Event> {
    if ops == [] then [] else
      var before := Ledger(ops[..|ops| - 1]);
      Extended(before, Answer(before, ops[|ops| - 1]))
  }

  /** New ids are new. */
  predicate Fresh(ops: seq<Op>) {
    ops == [] ||
    (var init := ops[..|ops| - 1];
     Fresh(init) && forall e :: e in Ledger(init) ==> e.id != ops[|ops| - 1].id)
  }

  ghost predicate LedgerInv(events: seq<Event>) {
    && (forall i, j :: 0 <= i < j < |events| ==> events[i].id != events[j].id)
    && (forall i :: 0 <= i < |events| ==> (events[i].reversal <==> events[i].reverses.Some?))
    && (forall i :: 0 <= i < |events| && events[i].reverses.Some? ==> HasOriginal(events, i))
    && (forall i, j :: 0 <= i < j < |events| && events[i].reverses.Some? ==> events[i].reverses != events[j].reverses)
    && (forall i :: 0 <= i < |events| ==> events[i].outcome in OUTCOMES)
  }

  /** A reversal names an earlier usage event and negates it. */
  ghost predicate HasOriginal(events: seq<Event>, i: nat)
    requires i < |events|
  {
    exists j :: 0 <= j < i && !events[j].reversal
      && events[i].reverses == Some(events[j].id) && Reverses(events[j], events[i])
  }

  lemma OriginalStays(a: seq<Event>, e: Event, i: nat)
    requires i < |a| && HasOriginal(a, i)
    ensures HasOriginal(a + [e], i)
  {
    var j :| 0 <= j < i && !a[j].reversal && a[i].reverses == Some(a[j].id) && Reverses(a[j], a[i]);
    var b := a + [e];
    assert b[j] == a[j] && b[i] == a[i];
  }

  lemma ExtendedKeeps(events: seq<Event>, op: Op)
    requires LedgerInv(events) && forall e :: e in events ==> e.id != op.id
    ensures LedgerInv(Extended(events, Answer(events, op)))
  {
    var answer := Answer(events, op);
    if answer.Appended? {
      var b, n := events + [answer.event], |events|;
      forall i | 0 <= i < |b| && b[i].reverses.Some? ensures HasOriginal(b, i) {
        if i < n {
          OriginalStays(events, answer.event, i);
        } else {
          var j := First(events, WithId(op.target)).value;
          assert b[j] == events[j];
        }
      }
      if op.Reverse? {
        assert First(events, Reversing(op.target)).None?;
        assert forall i :: 0 <= i < n ==> !Reversing(op.target)(events[i]);
        assert forall i :: 0 <= i < n ==> events[i].reverses != Some(op.target);
      }
    }
  }

  lemma {:induction false} LedgerKeeps(ops: seq<Op>)
    requires Fresh(ops)
    ensures LedgerInv(Ledger(ops))
  {
    if ops != [] {
      LedgerKeeps(ops[..|ops| - 1]);
      ExtendedKeeps(Ledger(ops[..|ops| - 1]), ops[|ops| - 1]);
    }
  }

  lemma OneReversalIn(events: seq<Event>, i: nat, j: nat)
    requires LedgerInv(events) && i < |events| && j < |events|
    requires events[i].reverses.Some? && events[i].reverses == events[j].reverses
    ensures i == j
    ensures forall k :: 0 <= k < |events| && Some(events[k].id) == events[i].reverses ==> !events[k].reversal
  {
    assert HasOriginal(events, i);
    var o :| 0 <= o < i && !events[o].reversal && events[i].reverses == Some(events[o].id);
    assert forall k :: 0 <= k < |events| && k != o ==> events[k].id != events[o].id;
  }

  /** In every run, each usage event has at most one reversal, and a reversal is never reversed. */
  lemma OneReversal(ops: seq<Op>, i: nat, j: nat)
    requires Fresh(ops) && i < |Ledger(ops)| && j < |Ledger(ops)|
    requires Ledger(ops)[i].reverses.Some? && Ledger(ops)[i].reverses == Ledger(ops)[j].reverses
    ensures i == j && forall e :: e in Ledger(ops) && Some(e.id) == Ledger(ops)[i].reverses ==> !e.reversal
  {
    LedgerKeeps(ops);
    OneReversalIn(Ledger(ops), i, j);
  }

  /** Recording the same report again changes nothing and answers the same event, if and only if its
      key is stored whole: not empty and at most 256 characters. */
  lemma RepeatedRecord(events: seq<Event>, p: Payload, id: string, now: real, seal: string,
                       id2: string, later: real, seal2: string)
    requires RecordAnswer(events, p, id, now, seal).Appended?
    ensures var once := Extended(events, RecordAnswer(events, p, id, now, seal));
            RecordAnswer(once, p, id2, later, seal2) == Existing(RecordAnswer(events, p, id, now, seal).event)
            <==> 0 < |p.key| <= KEY_LIMIT
  {
    var e := RecordAnswer(events, p, id, now, seal).event;
    var once := events + [e];
    assert once[..|once| - 1] == events;
    if |p.key| > KEY_LIMIT {
      assert e.key != Some(p.key);
    }
  }

  lemma LedgerSnoc(ops: seq<Op>, op: Op)
    ensures Ledger(ops + [op]) == Extended(Ledger(ops), Answer(Ledger(ops), op))
    ensures Fresh(ops + [op]) <==> Fresh(ops) && forall e :: e in Ledger(ops) ==> e.id != op.id
  {
    assert (ops + [op])[..|ops|] == ops;
  }

  lemma {:induction false} LedgerGrows(ops: seq<Op>, later: seq<Op>)
    ensures Ledger(ops) <= Ledger(ops + later)
  {
    if later == [] {
      assert ops + later == ops;
    } else {
      var init := later[..|later| - 1];
      assert (ops + later)[..|ops + later| - 1] == ops + init;
      LedgerGrows(ops, init);
    }
  }

  /** The same over whole runs: whatever is recorded and reversed in between, the repeated report is
      answered with the event it recorded first, if and only if its key has 1 to 256 characters. */
  lemma RepeatedRecordLater(ops: seq<Op>, p: Payload, id: string, now: real, seal: string, between: seq<Op>,
                            id2: string, later: real, seal2: string)
    requires RecordAnswer(Ledger(ops), p, id, now, seal).Appended?
    ensures var ledger := Ledger(ops + [Record(p, id, now, seal)] + between);
            RecordAnswer(ledger, p, id2, later, seal2) == Existing(Usage(p, id, now, seal)) <==>
            0 < |p.key| <= KEY_LIMIT
  {
    var e, before := Usage(p, id, now, seal), Ledger(ops);
    var with := ops + [Record(p, id, now, seal)];
    LedgerSnoc(ops, Record(p, id, now, seal));
    LedgerGrows(with, between);
    var ledger := Ledger(with + between);
    assert before + [e] <= ledger;
    assert ledger[|before|] == e && forall k :: 0 <= k < |before| ==> ledger[k] == before[k];
    if 0 < |p.key| <= KEY_LIMIT {
      assert WithKey(p.key)(e);
      forall k | 0 <= k < |before| ensures !WithKey(p.key)(ledger[k]) {
        assert !WithKey(p.key)(before[k]);
      }
      FirstFound(ledger, WithKey(p.key), |before|);
    } else {
      assert e.key != Some(p.key);
    }
  }

  /** Reversing again answers the reversal already there. */
  lemma RepeatedReversal(events: seq<Event>, target: string, reason: string, id: string, now: real, seal: string,
                         reason2: string, id2: string, later: real, seal2: string)
    requires ReverseAnswer(events, target, reason, id, now, seal).Appended?
    requires id != target
    ensures var r := ReverseAnswer(events, target, reason, id, now, seal);
            ReverseAnswer(Extended(events, r), target, reason2, id2, later, seal2) == Existing(r.event)
  {
    var e := ReverseAnswer(events, target, reason, id, now, seal).event;
    var once := events + [e];
    assert once[..|once| - 1] == events;
  }

  /** The usage events nobody reversed. */
  function Standing(events: seq<Event>, reversed: set<string>): seq<Event> {
    if events == [] then []
    else
      var rest, e := Standing(events[..|events| - 1], reversed), events[|events| - 1];
      if e.reversal || e.id in reversed then rest else rest + [e]
  }

  function Reversed(events: seq<Event>): set<string> {
    set e | e in events && e.reverses.Some? :: e.reverses.value
  }

  lemma {:induction false} StandingSame(events: seq<Event>, a: set<string>, b: set<string>)
    requires forall e :: e in events ==> (e.id in a <==> e.id in b)
    ensures Standing(events, a) == Standing(events, b)
  {
    if events != [] {
      assert events[|events| - 1] in events;
      StandingSame(events[..|events| - 1], a, b);
    }
  }

  lemma StandingLast(events: seq<Event>, reversed: set<string>, g: Event -> real)
    requires events != []
    ensures var e := events[|events| - 1];
            Sum(Standing(events, reversed), g) ==
            Sum(Standing(events[..|events| - 1], reversed), g) + if e.reversal || e.id in reversed then 0.0 else g(e)
  {
    SumSnoc(Standing(events[..|events| - 1], reversed), events[|events| - 1], g);
  }

  lemma StandingStep(events: seq<Event>, e: Event, reversed: set<string>, g: Event -> real)
    ensures Sum(Standing(events + [e], reversed), g) ==
            Sum(Standing(events, reversed), g) + if e.reversal || e.id in reversed then 0.0 else g(e)
  {
    assert (events + [e])[..|events|] == events;
    StandingLast(events + [e], reversed, g);
  }

  /** Reversing one more usage event removes exactly that event from those that stand. */
  lemma {:induction false} StandingDrops(events: seq<Event>, reversed: set<string>, j: nat, g: Event -> real)
    requires forall i, k :: 0 <= i < k < |events| ==> events[i].id != events[k].id
    requires j < |events| && !events[j].reversal && events[j].id !in reversed
    ensures Sum(Standing(events, reversed), g) == Sum(Standing(events, reversed + {events[j].id}), g) + g(events[j])
  {
    var n := |events| - 1;
    var init, id := events[..n], events[j].id;
    var more := reversed + {id};
    StandingLast(events, reversed, g);
    StandingLast(events, more, g);
    if j == n {
      assert id in more;
      forall e | e in init ensures e.id != id {
        var i :| 0 <= i < n && init[i] == e;
        assert events[i].id != events[n].id;
      }
      StandingSame(init, reversed, more);
      assert Sum(Standing(events, reversed), g) == Sum(Standing(init, reversed), g) + g(events[n]);
      assert Sum(Standing(events, more), g) == Sum(Standing(init, reversed), g);
    } else {
      assert events[n].id != id && init[j] == events[j];
      assert events[n].id in more <==> events[n].id in reversed;
      StandingDrops(init, reversed, j, g);
      assert Sum(Standing(events, reversed), g) - Sum(Standing(events, more), g)
          == Sum(Standing(init, reversed), g) - Sum(Standing(init, more), g);
    }
  }

  lemma ReversedAppend(events: seq<Event>, e: Event)
    ensures Reversed(events + [e]) == Reversed(events) + if e.reverses.Some? then {e.reverses.value} else {}
  {
    assert forall x :: x in events + [e] <==> x in events || x == e;
  }

  lemma NewNotReversed(events: seq<Event>, id: string)
    requires LedgerInv(events) && forall x :: x in events ==> x.id != id
    ensures id !in Reversed(events)
  {
    forall r | r in events && r.reverses.Some? ensures r.reverses.value != id {
      var i :| 0 <= i < |events| && events[i] == r;
      assert HasOriginal(events, i);
      var j :| 0 <= j < i && events[i].reverses == Some(events[j].id);
      assert events[j] in events;
    }
  }

  /** What the reversals of a ledger fail to take back. */
  function Drift(events: seq<Event>, g: Event -> real): real {
    if events == [] then 0.0
    else
      var init, e := events[..|events| - 1], events[|events| - 1];
      Drift(init, g) + if e.reverses.Some? then Undone(init, e, g) else 0.0
  }

  /** What is left of a reversal and its original together. */
  function Undone(earlier: seq<Event>, r: Event, g: Event -> real): real
    requires r.reverses.Some?
  {
    var j := First(earlier, WithId(r.reverses.value));
    if j.Some? then g(earlier[j.value]) + g(r) else 0.0
  }

  lemma DriftSnoc(events: seq<Event>, e: Event, g: Event -> real)
    ensures Drift(events + [e], g) == Drift(events, g) + if e.reverses.Some? then Undone(events, e, g) else 0.0
  {
    assert (events + [e])[..|events|] == events;
  }

  ghost predicate Net(events: seq<Event>, g: Event -> real) {
    Sum(events, g) == Sum(Standing(events, Reversed(events)), g) + Drift(events, g)
  }

  /** A new usage event stands. */
  lemma UsageNet(events: seq<Event>, e: Event, g: Event -> real)
    requires !e.reversal && e.reverses.None? && e.id !in Reversed(events) && Net(events, g)
    ensures Net(events + [e], g)
  {
    ReversedAppend(events, e);
    assert Reversed(events + [e]) == Reversed(events);
    SumSnoc(events, e, g);
    DriftSnoc(events, e, g);
    StandingStep(events, e, Reversed(events), g);
  }

  /** A reversal takes its original away. */
  lemma ReversalNet(events: seq<Event>, j: nat, r: Event, g: Event -> real)
    requires forall i, k :: 0 <= i < k < |events| ==> events[i].id != events[k].id
    requires j < |events| && First(events, WithId(events[j].id)) == Some(j)
    requires !events[j].reversal && events[j].id !in Reversed(events)
    requires r.reversal && r.reverses == Some(events[j].id) && Net(events, g)
    ensures Net(events + [r], g)
  {
    ReversedAppend(events, r);
    SumSnoc(events, r, g);
    DriftSnoc(events, r, g);
    StandingDrops(events, Reversed(events), j, g);
    StandingStep(events, r, Reversed(events) + {events[j].id}, g);
  }

  lemma NetStep(events: seq<Event>, op: Op, g: Event -> real)
    requires LedgerInv(events) && forall e :: e in events ==> e.id != op.id
    requires Net(events, g)
    ensures Net(Extended(events, Answer(events, op)), g)
  {
    var answer := Answer(events, op);
    if answer.Appended? {
      if op.Record? {
        NewNotReversed(events, op.id);
        UsageNet(events, answer.event, g);
      } else {
        var j := First(events, WithId(op.target)).value;
        assert WithId(op.target)(events[j]);
        forall e | e in events ensures e.reverses != Some(op.target) {
          assert !Reversing(op.target)(e);
        }
        ReversalNet(events, j, answer.event, g);
      }
    }
  }

  /** Over every run and for any quantity at all: the ledger sums to the usage never reversed plus what
      the reversals failed to take back. */
  lemma {:induction false} NetUsage(ops: seq<Op>, g: Event -> real)
    requires Fresh(ops)
    ensures Sum(Ledger(ops), g) ==
            Sum(Standing(Ledger(ops), Reversed(Ledger(ops))), g) + Drift(Ledger(ops), g)
  {
    if ops != [] {
      var init := ops[..|ops| - 1];
      NetUsage(init, g);
      LedgerKeeps(init);
      NetStep(Ledger(init), ops[|ops| - 1], g);
    }
  }

  /** Nothing is left where every reversal cancels its original. */
  ghost predicate Cancels(events: seq<Event>, g: Event -> real) {
    forall x, r :: x in events && r in events && Reverses(x, r) ==> g(x) + g(r) == 0.0
  }

  lemma {:induction false} NoDrift(events: seq<Event>, g: Event -> real)
    requires LedgerInv(events) && Cancels(events, g)
    ensures Drift(events, g) == 0.0
  {
    if events != [] {
      var n := |events| - 1;
      var init, r := events[..n], events[n];
      assert events == init + [r];
      InvPrefix(init, r);
      NoDrift(init, g);
      if r.reverses.Some? {
        OriginalFound(init, r);
      }
    }
  }

  lemma InvPrefix(events: seq<Event>, e: Event)
    requires LedgerInv(events + [e])
    ensures LedgerInv(events)
  {
    var all := events + [e];
    assert forall i :: 0 <= i < |events| ==> all[i] == events[i];
    forall i | 0 <= i < |events| && events[i].reverses.Some? ensures HasOriginal(events, i) {
      assert HasOriginal(all, i);
      var j :| 0 <= j < i && !all[j].reversal && all[i].reverses == Some(all[j].id) && Reverses(all[j], all[i]);
      assert events[j] == all[j];
    }
  }

  lemma OriginalFound(events: seq<Event>, r: Event)
    requires LedgerInv(events + [r]) && r.reverses.Some?
    ensures var j := First(events, WithId(r.reverses.value)); j.Some? && Reverses(events[j.value], r)
  {
    var all, n := events + [r], |events|;
    assert HasOriginal(all, n);
    var j :| 0 <= j < n && !all[j].reversal && all[n].reverses == Some(all[j].id) && Reverses(all[j], all[n]);
    forall k | 0 <= k < j ensures !WithId(r.reverses.value)(events[k]) {
      assert all[k].id != all[j].id;
    }
    FirstFound(events, WithId(r.reverses.value), j);
  }

  /** So whatever negates with its reversal sums to the same over the ledger as over the usage that stands. */
  lemma OddIsNet(ops: seq<Op>, g: Event -> real)
    requires Fresh(ops) && Odd(g)
    ensures Sum(Ledger(ops), g) == Sum(Standing(Ledger(ops), Reversed(Ledger(ops))), g)
  {
    NetUsage(ops, g);
    LedgerKeeps(ops);
    NoDrift(Ledger(ops), g);
  }

  /** So the totals of the whole ledger are the totals of the usage that stands. */
  lemma TotalsAreNet(ops: seq<Op>, models: seq<CostModel>, period: real -> string)
    requires Fresh(ops)
    ensures Aggregated(Ledger(ops), models, period).totals == Totals(Standing(Ledger(ops), Reversed(Ledger(ops))))
  {
    ReportTotals(Ledger(ops), models, period);
    QuantitiesOdd();
    OddIsNet(ops, Requests);
    OddIsNet(ops, Images);
    OddIsNet(ops, Video);
    OddIsNet(ops, Gpu);
    OddIsNet(ops, Storage);
    OddIsNet(ops, Network);
    OddIsNet(ops, ThirdParty);
  }

  /** The usage of a run that was never reversed. */
  function NetLedger(ops: seq<Op>): seq<Event> {
    Standing(Ledger(ops), Reversed(Ledger(ops)))
  }

  lemma DimensionIsNet(ops: seq<Op>, tag: Event -> string, k: string)
    requires Fresh(ops) && Inherited(tag)
    ensures EntryOf(Grouped(Ledger(ops), tag), k) == EntryOf(Grouped(NetLedger(ops), tag), k)
  {
    InheritedOdd(tag, k);
    OddIsNet(ops, Labelled(tag, k));
    GroupedAt(Ledger(ops), tag, k);
    GroupedAt(NetLedger(ops), tag, k);
  }

  /** Reversals in the report: in every run, each entry of the outcomes and of the five dimensions is
      what the usage never reversed makes it. */
  lemma DimensionsAreNet(ops: seq<Op>, models: seq<CostModel>, period: real -> string, k: string)
    requires Fresh(ops)
    ensures var all, net := Aggregated(Ledger(ops), models, period), Aggregated(NetLedger(ops), models, period);
            && EntryOf(all.outcomes, k) == EntryOf(net.outcomes, k)
            && EntryOf(all.endpoints, k) == EntryOf(net.endpoints, k)
            && EntryOf(all.models, k) == EntryOf(net.models, k)
            && EntryOf(all.capabilities, k) == EntryOf(net.capabilities, k)
            && EntryOf(all.resources, k) == EntryOf(net.resources, k)
            && EntryOf(all.applications, k) == EntryOf(net.applications, k)
  {
    ReportDimensions(Ledger(ops), models, period);
    ReportDimensions(NetLedger(ops), models, period);
    InheritedTags();
    DimensionIsNet(ops, Outcome, k);
    DimensionIsNet(ops, Endpoint, k);
    DimensionIsNet(ops, Model, k);
    DimensionIsNet(ops, Capability, k);
    DimensionIsNet(ops, Resource, k);
    DimensionIsNet(ops, Application, k);
  }

  /** The reported cost is that of the usage never reversed plus, for every reversal, the difference
      between the prices at the two times; it is exactly net when one model is in effect throughout. */
  lemma CostIsNet(ops: seq<Op>, models: seq<CostModel>, period: real -> string)
    requires Fresh(ops)
    ensures var all, net := Aggregated(Ledger(ops), models, period), Aggregated(NetLedger(ops), models, period);
            && all.cost == net.cost + Drift(Ledger(ops), Priced(models))
            && (OneModel(Ledger(ops), models) ==> all.cost == net.cost)
  {
    ReportCost(Ledger(ops), models, period);
    ReportCost(NetLedger(ops), models, period);
    NetUsage(ops, Priced(models));
    if OneModel(Ledger(ops), models) {
      forall x, r | x in Ledger(ops) && r in Ledger(ops) && Reverses(x, r)
        ensures Priced(models)(x) + Priced(models)(r) == 0.0
      {
        ReversalCost(models, x, r);
      }
      LedgerKeeps(ops);
      NoDrift(Ledger(ops), Priced(models));
    }
  }

  ghost predicate OneModel(events: seq<Event>, models: seq<CostModel>) {
    forall a, b :: a in events && b in events ==> ModelFor(models, a.time) == ModelFor(models, b.time)
  }

  // ----- cases that go wrong -----

  function OneRequest(key: string): Payload {
    Payload(key, "digest", "success", "original", 0.0, Labels("app", "face", "m", "/v1", "request"),
            NOTHING.(requests := 1.0))
  }

  lemma ReverseAlone(x: Event, reason: string, id: string, now: real, seal: string)
    requires reason != "" && !x.reversal && x.reverses.None?
    ensures ReverseAnswer([x], x.id, reason, id, now, seal) == Appended(Reversal(x, id, now, seal))
  {
    FirstFound([x], WithId(x.id), 0);
    assert First([x], Reversing(x.id)).None?;
  }

  lemma TwoOps(a: Op, b: Op, x: Event, y: Event)
    requires Answer([], a) == Appended(x) && Answer([x], b) == Appended(y) && x.id != b.id
    ensures Fresh([a, b]) && Ledger([a, b]) == [x, y]
  {
    assert [a, b] == [] + [a] + [b];
    LedgerSnoc([], a);
    LedgerSnoc([] + [a], b);
    assert Ledger([]) == [] && Ledger([] + [a]) == [x];
  }

  lemma CostOfRequest(q: Quantities, p: Prices)
    requires q == NOTHING.(requests := 1.0)
    ensures Cost(q, p) == p.request && Cost(Negated(q), p) == -p.request
  {
    CostNegates(q, p);
  }

  lemma NothingStands(x: Event, r: Event)
    requires r.reverses == Some(x.id) && r.reversal
    ensures Standing([x, r], Reversed([x, r])) == []
  {
    var ledger := [x, r];
    assert r in ledger;
    assert x.id in Reversed(ledger);
    assert ledger[..|ledger| - 1] == [x];
    assert [x][..|[x]| - 1] == [];
    assert Standing([x], Reversed(ledger)) == [];
  }

  lemma PairReport(x: Event, r: Event, models: seq<CostModel>, period: real -> string)
    ensures Aggregated([x, r], models, period).cost == CostOf(models, x) + CostOf(models, r)
  {
    ReportCost([x, r], models, period);
    assert [x, r] == [] + [x] + [r];
    SumSnoc([] + [x], r, Priced(models));
    SumSnoc([], x, Priced(models));
  }

  lemma PriceAt(cheap: CostModel, dear: CostModel, time: real)
    requires cheap.effectiveAt < dear.effectiveAt
    ensures time < dear.effectiveAt && cheap.effectiveAt <= time ==> ModelFor([cheap, dear], time) == Some(cheap)
    ensures dear.effectiveAt <= time ==> ModelFor([cheap, dear], time) == Some(dear)
  {
    var models := [cheap, dear];
    assert models[..|models| - 1] == [cheap] && [cheap][..|[cheap]| - 1] == [];
  }

  /** A price change between a request and its reversal leaves the difference of the prices behind:
      such a run exists, nothing stands in it, and its report shows a cost. */
  lemma PriceChangeLeavesCost(cheap: CostModel, dear: CostModel, at: real, later: real, period: real -> string)
    returns (ops: seq<Op>)
    requires cheap.effectiveAt <= at < dear.effectiveAt <= later
    ensures Fresh(ops) && NetLedger(ops) == []
    ensures Aggregated(Ledger(ops), [cheap, dear], period).cost == cheap.prices.request - dear.prices.request
  {
    var p := OneRequest("");
    var x := Usage(p, "a", at, "");
    var r := Reversal(x, "b", later, "");
    ops := [Record(p, "a", at, ""), Reverse("a", "mistake", "b", later, "")];
    ReverseAlone(x, "mistake", "b", later, "");
    TwoOps(ops[0], ops[1], x, r);
    NothingStands(x, r);
    PairReport(x, r, [cheap, dear], period);
    PriceAt(cheap, dear, at);
    PriceAt(cheap, dear, later);
    CostOfRequest(x.q, cheap.prices);
    CostOfRequest(x.q, dear.prices);
  }

  function LongKey(): string {
    seq(KEY_LIMIT + 1, i => 'k')
  }

  /** A report with a key of 257 characters, sent twice, is recorded twice. */
  lemma LongKeyRecordedTwice()
    ensures var p := OneRequest(LongKey());
            var ops := [Record(p, "a", 5.0, ""), Record(p, "b", 6.0, "")];
            Fresh(ops) && |Ledger(ops)| == 2
  {
    var p := OneRequest(LongKey());
    var ops := [Record(p, "a", 5.0, ""), Record(p, "b", 6.0, "")];
    var x := Usage(p, "a", 5.0, "");
    assert UsageError(p).None? && !WithKey(p.key)(x);
    assert First([x], WithKey(p.key)).None?;
    TwoOps(ops[0], ops[1], x, Usage(p, "b", 6.0, ""));
  }
}
