/** Weighted rollout of a model alias: normalising the candidates, picking one by traffic key, resolving the alias. */
module Rollout {
  import opened Common

  /** One entry of the configured list. A target that is missing, blank or not a string is None; so is
      a weight that is not a number. */
  datatype Item = NotAnObject | Item(target: Option<string>, weight: Option<int>, status: Option<string>)

  datatype Candidate = Candidate(target: string, weight: nat, status: Option<string>)

  /** Checks and normalises a target reference; None when it is not a valid one. */
  type Validator = string -> Option<string>

  // ----- normalisation -----

  predicate Relevant(item: Item) {
    item.Item? && item.target.Some?
  }

  predicate Acceptable(validate: Validator, items: seq<Item>) {
    forall i :: i in items && Relevant(i) ==> validate(i.target.value).Some?
  }

  function WeightOf(item: Item): nat
    requires item.Item?
  {
    MaxInt(0, item.weight.GetOr(0))
  }

  /** The well-formed items with their configured weights, in order. */
  function Listed(validate: Validator, items: seq<Item>): seq<Candidate>
    requires Acceptable(validate, items)
  {
    if items == [] then []
    else
      assert items[|items| - 1] in items;
      var rest, last := Listed(validate, items[..|items| - 1]), items[|items| - 1];
      if Relevant(last)
      then rest + [Candidate(validate(last.target.value).value, WeightOf(last), last.status)]
      else rest
  }

  predicate SomeWeight(cs: seq<Candidate>) {
    exists c :: c in cs && c.weight > 0
  }

  function Levelled(cs: seq<Candidate>): seq<Candidate> {
    if SomeWeight(cs) then cs else seq(|cs|, i requires 0 <= i < |cs| => cs[i].(weight := 1))
  }

  /** None stands for the rejection of an invalid target. */
  function Candidates(validate: Validator, items: seq<Item>): Option<seq<Candidate>> {
    if Acceptable(validate, items) then Some(Levelled(Listed(validate, items))) else None
  }

  lemma {:induction false} ListedPrefix(validate: Validator, items: seq<Item>, i: nat)
    requires i < |items| && Acceptable(validate, items)
    ensures Acceptable(validate, items[..i]) && Acceptable(validate, items[..i + 1])
    ensures var item := items[i];
            Listed(validate, items[..i + 1]) == Listed(validate, items[..i]) +
              if Relevant(item) then [Candidate(validate(item.target.value).value, WeightOf(item), item.status)] else []
  {
    assert items[..i + 1][..i] == items[..i];
  }

  method RolloutCandidates(validate: Validator, items: seq<Item>) returns (r: Option<seq<Candidate>>)
    ensures r == Candidates(validate, items)
  {
    var candidates: seq<Candidate> := [];
    for n := 0 to |items|
      invariant Acceptable(validate, items[..n]) && candidates == Listed(validate, items[..n])
    {
      assert items[..n + 1] == items[..n] + [items[n]];
      if !items[n].Item? || items[n].target.None? {
        ListedPrefix(validate, items[..n + 1], n);
        assert items[..n + 1][..n] == items[..n] && items[..n + 1][..n + 1] == items[..n + 1];
        continue;
      }
      var target := validate(items[n].target.value);
      if target.None? {
        assert items[n] in items;
        return None;
      }
      candidates := candidates + [Candidate(target.value, MaxInt(0, items[n].weight.GetOr(0)), items[n].status)];
      ListedPrefix(validate, items[..n + 1], n);
      assert items[..n + 1][..n] == items[..n] && items[..n + 1][..n + 1] == items[..n + 1];
    }
    assert items[..|items|] == items;
    if candidates != [] && !SomeWeight(candidates) {
      var levelled := candidates;
      for i := 0 to |levelled|
        invariant |levelled| == |candidates|
        invariant forall k :: 0 <= k < |levelled| ==>
          levelled[k] == if k < i then candidates[k].(weight := 1) else candidates[k]
      {
        levelled := levelled[i := levelled[i].(weight := 1)];
      }
      assert levelled == Levelled(candidates);
      return Some(levelled);
    }
    if candidates == [] {
      assert Levelled(candidates) == [];
    }
    r := Some(candidates);
  }

  // ----- picking by weight -----

  function Total(cs: seq<Candidate>): nat {
    if cs == [] then 0 else Total(cs[..|cs| - 1]) + cs[|cs| - 1].weight
  }

  /** The position whose share of the total contains the bucket. */
  predicate Selects(cs: seq<Candidate>, bucket: nat, i: nat) {
    i < |cs| && Total(cs[..i]) <= bucket < Total(cs[..i + 1])
  }

  lemma {:induction false} TotalMonotone(cs: seq<Candidate>, i: nat, j: nat)
    requires i <= j <= |cs|
    ensures Total(cs[..i]) <= Total(cs[..j])
  {
    if i < j {
      TotalMonotone(cs, i, j - 1);
      assert cs[..j][..j - 1] == cs[..j - 1];
    }
  }

  lemma TotalStep(cs: seq<Candidate>, i: nat)
    requires i < |cs|
    ensures Total(cs[..i + 1]) == Total(cs[..i]) + cs[i].weight
  {
    assert cs[..i + 1][..i] == cs[..i];
  }

  datatype Choice = Choice(target: string, bucket: nat, total: nat)

  /** Walks the candidates with a cursor; `digest` is the number read off the hash of alias and
      traffic key. The chosen position is returned beside the target. None: no positive weight. */
  method WeightedRolloutTarget(cs: seq<Candidate>, digest: nat) returns (r: Option<Choice>, position: nat)
    ensures r.None? <==> Total(cs) == 0
    ensures r.Some? ==> r.value.total == Total(cs) && r.value.bucket == digest % Total(cs)
    ensures r.Some? ==> Selects(cs, r.value.bucket, position) && r.value.target == cs[position].target
  {
    position := 0;
    var total := 0;
    for i := 0 to |cs|
      invariant total == Total(cs[..i])
    {
      TotalStep(cs, i);
      if cs[i].weight > 0 {
        total := total + cs[i].weight;
      }
    }
    assert cs[..|cs|] == cs;
    if total <= 0 {
      return None, position;
    }
    var bucket := digest % total;
    var cursor := 0;
    for i := 0 to |cs|
      invariant cursor == Total(cs[..i]) <= bucket
    {
      TotalStep(cs, i);
      if cs[i].weight <= 0 {
        continue;
      }
      cursor := cursor + cs[i].weight;
      if bucket < cursor {
        return Some(Choice(cs[i].target, bucket, total)), i;
      }
    }
    assert false;
  }

  /** A bucket below the total selects exactly one position, and one of positive weight: the scan
      never falls through to the last candidate. */
  lemma {:induction false} ExactlyOne(cs: seq<Candidate>, bucket: nat) returns (i: nat)
    requires bucket < Total(cs)
    ensures Selects(cs, bucket, i) && cs[i].weight > 0
    ensures forall j: nat :: Selects(cs, bucket, j) ==> j == i
  {
    var n := |cs| - 1;
    if bucket < Total(cs[..n]) {
      i := ExactlyOne(cs[..n], bucket);
      assert cs[..n][..i] == cs[..i] && cs[..n][..i + 1] == cs[..i + 1];
    } else {
      i := n;
      assert cs[..n + 1] == cs;
    }
    TotalStep(cs, i);
    forall j: nat | Selects(cs, bucket, j) ensures j == i {
      if j < i {
        TotalMonotone(cs, j + 1, i);
      } else if i < j {
        TotalMonotone(cs, i + 1, j);
      }
    }
  }

  function BucketsOf(cs: seq<Candidate>, i: nat): set<nat> {
    set b: nat | b < Total(cs) && Selects(cs, b, i)
  }

  lemma {:induction false} IntervalSize(s: set<nat>, low: nat, high: nat)
    requires low <= high && forall b: nat :: b in s <==> low <= b < high
    ensures |s| == high - low
    decreases high
  {
    if low < high {
      IntervalSize(s - {high - 1}, low, high - 1);
    } else {
      assert s == {};
    }
  }

  /** Position i receives exactly as many of the total-weight buckets as its weight. */
  lemma ExactShare(cs: seq<Candidate>, i: nat)
    requires i < |cs|
    ensures |BucketsOf(cs, i)| == cs[i].weight
  {
    TotalStep(cs, i);
    TotalMonotone(cs, i + 1, |cs|);
    assert cs[..|cs|] == cs;
    IntervalSize(BucketsOf(cs, i), Total(cs[..i]), Total(cs[..i + 1]));
  }

  lemma {:induction false} TotalPositive(cs: seq<Candidate>)
    ensures Total(cs) > 0 <==> SomeWeight(cs)
  {
    if cs != [] {
      var n := |cs| - 1;
      TotalPositive(cs[..n]);
      assert cs == cs[..n] + [cs[n]];
    }
  }

  /** After normalisation any nonempty list can be split: its total is positive. */
  lemma NormalisedSplits(validate: Validator, items: seq<Item>)
    requires Candidates(validate, items).Some? && Candidates(validate, items).value != []
    ensures Total(Candidates(validate, items).value) > 0
  {
    var cs := Candidates(validate, items).value;
    TotalPositive(cs);
    assert cs[0] in cs;
    if !SomeWeight(Listed(validate, items)) {
      assert cs[0].weight == 1;
    }
  }

  // ----- resolving an alias -----

  /** What an alias is configured as; in an object, fields that are missing or of the wrong type are None. */
  datatype Config =
    | Invalid
    | Plain(ref: string)
    | Settings(target: Option<string>, project: Option<string>, model: Option<string>, rollout: seq<Item>)

  datatype Strategy = Static | Weighted(bucket: nat, total: nat) | HighestWeight

  datatype Resolution = Resolved(target: string, strategy: Strategy) | Rejected

  /** The first position of greatest weight. */
  function Heaviest(cs: seq<Candidate>): (i: nat)
    requires cs != []
    ensures i < |cs| && (forall j :: 0 <= j < |cs| ==> cs[j].weight <= cs[i].weight)
    ensures forall j :: 0 <= j < i ==> cs[j].weight < cs[i].weight
  {
    if |cs| == 1 then 0
    else
      var n := |cs| - 1;
      var best := Heaviest(cs[..n]);
      if cs[n].weight > cs[best].weight then n else best
  }

  function Direct(r: Option<string>): Resolution {
    if r.Some? then Resolved(r.value, Static) else Rejected
  }

  /** A direct target wins over a project and model pair, which wins over the rollout. `digest` is
      None without a traffic key. `pair` names the target of a project and model. */
  method AliasResolution(validate: Validator, pair: (string, string) -> Option<string>, c: Config, digest: Option<nat>)
    returns (r: Resolution)
    ensures c.Invalid? ==> r == Rejected
    ensures c.Plain? ==> r == Direct(validate(c.ref))
    ensures c.Settings? && c.target.Some? ==> r == Direct(validate(c.target.value))
    ensures c.Settings? && c.target.None? && c.project.Some? && c.model.Some? ==>
              r == Direct(pair(c.project.value, c.model.value))
    ensures c.Settings? && c.target.None? && !(c.project.Some? && c.model.Some?) ==>
              var cs := Candidates(validate, c.rollout);
              if cs.None? || cs.value == [] then r == Rejected
              else if digest.Some? then
                && r.Resolved? && Total(cs.value) > 0
                && r.strategy == Weighted(digest.value % Total(cs.value), Total(cs.value))
                && exists i: nat :: Selects(cs.value, r.strategy.bucket, i) && r.target == cs.value[i].target
              else r == Resolved(cs.value[Heaviest(cs.value)].target, HighestWeight)
  {
    match c
    case Invalid => r := Rejected;
    case Plain(ref) => r := Direct(validate(ref));
    case Settings(target, project, model, rollout) =>
      if target.Some? {
        return Direct(validate(target.value));
      }
      if project.Some? && model.Some? {
        return Direct(pair(project.value, model.value));
      }
      var cs := RolloutCandidates(validate, rollout);
      if cs.None? || cs.value == [] {
        return Rejected;
      }
      NormalisedSplits(validate, rollout);
      if digest.Some? {
        var choice, i := WeightedRolloutTarget(cs.value, digest.value);
        return Resolved(choice.value.target, Weighted(choice.value.bucket, choice.value.total));
      }
      r := Resolved(cs.value[Heaviest(cs.value)].target, HighestWeight);
  }

  /** Without a traffic key the alias still resolves to a candidate that receives traffic. */
  lemma HeaviestIsLive(validate: Validator, items: seq<Item>)
    requires Candidates(validate, items).Some? && Candidates(validate, items).value != []
    ensures var cs := Candidates(validate, items).value; cs[Heaviest(cs)].weight > 0
  {
    var cs := Candidates(validate, items).value;
    NormalisedSplits(validate, items);
    TotalPositive(cs);
    var c :| c in cs && c.weight > 0;
  }
}
