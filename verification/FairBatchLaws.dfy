/** What every batch selection guarantees: an order-preserving split of the queue, the capacity
    bound, weighted shares, work conservation, and the turn of the scope served last. */
module FairBatchLaws {
  import opened Common
  import opened FairBatch

  // ----- sequences of requests -----

  lemma OfAppend(rs: seq<Request>, r: Request, scope: string)
    ensures Of(rs + [r], scope) == Of(rs, scope) + if r.scope == scope then [r] else []
  {
    assert (rs + [r])[..|rs|] == rs;
  }

  lemma {:induction false} OfConcat(a: seq<Request>, b: seq<Request>, scope: string)
    ensures Of(a + b, scope) == Of(a, scope) + Of(b, scope)
  {
    if b == [] {
      assert a + b == a;
    } else {
      assert (a + b)[..|a + b| - 1] == a + b[..|b| - 1];
      OfConcat(a, b[..|b| - 1], scope);
    }
  }

  lemma {:induction false} OfAbsent(rs: seq<Request>, scope: string)
    requires forall r :: r in rs ==> r.scope != scope
    ensures Of(rs, scope) == []
  {
    if rs != [] {
      OfAbsent(rs[..|rs| - 1], scope);
    }
  }

  lemma {:induction false} OfMembers(rs: seq<Request>, scope: string)
    ensures forall r :: r in Of(rs, scope) <==> r in rs && r.scope == scope
  {
    if rs != [] {
      OfMembers(rs[..|rs| - 1], scope);
    }
  }

  lemma {:induction false} CandidateMembers(queue: seq<Request>, seed: Request)
    ensures forall r :: r in Candidates(queue, seed) <==> r in queue && r.Compatible(seed)
  {
    if queue != [] {
      CandidateMembers(queue[..|queue| - 1], seed);
    }
  }

  lemma {:induction false} ScopesDistinct(rs: seq<Request>)
    ensures Distinct(Scopes(rs))
    ensures forall s :: s in Scopes(rs) <==> Of(rs, s) != []
  {
    if rs != [] {
      ScopesDistinct(rs[..|rs| - 1]);
    }
  }

  ghost predicate DistinctIds(rs: seq<Request>) {
    forall i, j :: 0 <= i < j < |rs| ==> rs[i].id != rs[j].id
  }

  lemma {:induction false} TotalSizeConcat(a: seq<Request>, b: seq<Request>)
    ensures TotalSize(a + b) == TotalSize(a) + TotalSize(b)
  {
    if b == [] {
      assert a + b == a;
    } else {
      assert (a + b)[..|a + b| - 1] == a + b[..|b| - 1];
      TotalSizeConcat(a, b[..|b| - 1]);
    }
  }

  // ----- a selection is a sequence of legal takes -----

  ghost predicate MayTake(p: Pick, s: string, cap: nat) {
    s in p.waiting && p.waiting[s] != [] && p.Size() < cap && !p.Blocked(p.waiting[s][0], cap)
  }

  ghost predicate Legal(p: Pick, trace: seq<string>, cap: nat)
    decreases |trace|
  {
    trace == [] || (MayTake(p, trace[0], cap) && Legal(p.Take(trace[0]), trace[1..], cap))
  }

  ghost function After(p: Pick, trace: seq<string>, cap: nat): Pick
    requires Legal(p, trace, cap)
    decreases |trace|
  {
    if trace == [] then p else After(p.Take(trace[0]), trace[1..], cap)
  }

  lemma {:induction false} AfterConcat(p: Pick, a: seq<string>, b: seq<string>, cap: nat)
    requires Legal(p, a, cap) && Legal(After(p, a, cap), b, cap)
    ensures Legal(p, a + b, cap) && After(p, a + b, cap) == After(After(p, a, cap), b, cap)
    decreases |a|
  {
    if a == [] {
      assert a + b == b;
    } else {
      AfterConcat(p.Take(a[0]), a[1..], b, cap);
      assert (a + b)[1..] == a[1..] + b;
    }
  }

  lemma {:induction false} VisitTrace(p: Pick, scope: string, allowance: nat, cap: nat) returns (t: seq<string>)
    requires scope in p.waiting && p.Size() < cap
    ensures Legal(p, t, cap) && After(p, t, cap) == Visit(p, scope, allowance, cap)
    ensures t != [] ==> t[0] == scope
    ensures allowance > 0 && MayTake(p, scope, cap) ==> t != []
    decreases allowance
  {
    t := [];
    if allowance != 0 && MayTake(p, scope, cap) {
      var next := p.Take(scope);
      var rest: seq<string> := [];
      if next.Size() < cap {
        rest := VisitTrace(next, scope, allowance - 1, cap);
      }
      t := [scope] + rest;
      assert t[1..] == rest;
    }
  }

  lemma {:induction false} RoundTrace(p: Pick, scopes: seq<string>, cap: nat) returns (t: seq<string>)
    requires (forall s :: s in scopes ==> s in p.waiting) && p.Size() < cap
    ensures Legal(p, t, cap) && After(p, t, cap) == Round(p, scopes, cap).pick
    ensures scopes != [] && Allowance(p.waiting[scopes[0]]) > 0 && MayTake(p, scopes[0], cap) ==>
              t != [] && t[0] == scopes[0]
    decreases |scopes|
  {
    t := [];
    if scopes != [] {
      t := VisitTrace(p, scopes[0], Allowance(p.waiting[scopes[0]]), cap);
      var next := Visit(p, scopes[0], Allowance(p.waiting[scopes[0]]), cap);
      if next.Size() < cap {
        var rest := RoundTrace(next, scopes[1..], cap);
        AfterConcat(p, t, rest, cap);
        t := t + rest;
      }
    }
  }

  lemma {:induction false} RoundsTrace(p: Pick, scopes: seq<string>, cap: nat)
    returns (first: seq<string>, t: seq<string>)
    requires forall s :: s in scopes ==> s in p.waiting
    ensures Legal(p, first + t, cap) && After(p, first + t, cap) == Rounds(p, scopes, cap)
    ensures scopes != [] && p.Size() < cap && Allowance(p.waiting[scopes[0]]) > 0 && MayTake(p, scopes[0], cap) ==>
              first != [] && first[0] == scopes[0]
    ensures p.Size() < cap ==> Legal(p, first, cap) && After(p, first, cap) == Round(p, scopes, cap).pick
    ensures p.Size() < cap ==> Legal(After(p, first, cap), t, cap)
    ensures p.Size() < cap ==> After(After(p, first, cap), t, cap) == Rounds(p, scopes, cap)
    decreases MaxInt(0, cap - p.Size())
  {
    first, t := [], [];
    if p.Size() < cap {
      first := RoundTrace(p, scopes, cap);
      var round := Round(p, scopes, cap);
      if scopes != [] && round.pick.Size() != p.Size() {
        var more, rest := RoundsTrace(round.pick, round.remaining, cap);
        t := more + rest;
      }
      AfterConcat(p, first, t, cap);
    } else {
      assert first + t == [];
    }
  }

  // ----- one turn, exactly -----

  /** r is p after its scope's oldest k requests were picked. */
  ghost predicate Took(p: Pick, r: Pick, scope: string, k: nat)
    requires scope in p.waiting
  {
    && k <= |p.waiting[scope]|
    && r.waiting == p.waiting[scope := p.waiting[scope][k..]]
    && r.selected == p.selected + p.waiting[scope][..k]
  }

  lemma TookNone(p: Pick, scope: string)
    requires scope in p.waiting
    ensures Took(p, p, scope, 0)
  {
    assert p.waiting[scope := p.waiting[scope][0..]] == p.waiting;
  }

  lemma TookOneMore(p: Pick, r: Pick, scope: string, k: nat)
    requires scope in p.waiting && p.waiting[scope] != [] && Took(p.Take(scope), r, scope, k)
    ensures Took(p, r, scope, k + 1)
  {
    var q := p.waiting[scope];
    assert q[..k + 1] == [q[0]] + q[1..][..k] && q[k + 1..] == q[1..][k..];
    assert (p.selected + [q[0]]) + q[1..][..k] == p.selected + ([q[0]] + q[1..][..k]);
    assert p.waiting[scope := q[1..]][scope := q[k + 1..]] == p.waiting[scope := q[k + 1..]];
  }

  /** A turn takes a prefix of its scope's queue: as long as the weight, the queue and the room allow, and no longer. */
  lemma {:induction false} VisitTakes(p: Pick, scope: string, allowance: nat, cap: nat) returns (k: nat)
    requires scope in p.waiting
    ensures var r, q := Visit(p, scope, allowance, cap), p.waiting[scope];
            && k <= allowance && Took(p, r, scope, k)
            && (k == allowance || k == |q| || (k > 0 && r.Size() >= cap) || r.Blocked(q[k], cap))
    decreases allowance
  {
    var q := p.waiting[scope];
    TookNone(p, scope);
    if allowance == 0 || q == [] || p.Blocked(q[0], cap) {
      k := 0;
    } else {
      var next, more := p.Take(scope), 0;
      TotalSizeAppend(p.selected, q[0]);
      TookNone(next, scope);
      if next.Size() < cap {
        more := VisitTakes(next, scope, allowance - 1, cap);
      }
      TookOneMore(p, Visit(p, scope, allowance, cap), scope, more);
      k := more + 1;
    }
  }

  // ----- what stays true through a selection -----

  /** p descends from the fresh selection p0. */
  ghost predicate Descends(p0: Pick, p: Pick, cap: nat) {
    && p.waiting.Keys == p0.waiting.Keys
    && (forall s, r :: s in p.waiting && r in p.waiting[s] ==> r.scope == s)
    && (forall r :: r in p.selected ==> r.scope in p0.waiting)
    && (forall s :: s in p.waiting ==> Of(p.selected, s) + p.waiting[s] == p0.waiting[s])
    && (p.Size() <= cap || |p.selected| == 1)
    && p.last == if p.selected == [] then p0.last else Some(p.selected[|p.selected| - 1].scope)
  }

  lemma TakeDescends(p0: Pick, p: Pick, scope: string, cap: nat)
    requires Descends(p0, p, cap) && MayTake(p, scope, cap)
    ensures Descends(p0, p.Take(scope), cap)
  {
    var next, q := p.Take(scope), p.waiting[scope];
    TotalSizeAppend(p.selected, q[0]);
    assert q[0].scope == scope;
    forall s | s in next.waiting ensures Of(next.selected, s) + next.waiting[s] == p0.waiting[s] {
      OfAppend(p.selected, q[0], s);
      assert Of(p.selected, s) + p.waiting[s] == p0.waiting[s];
      if s == scope {
        assert (Of(p.selected, s) + [q[0]]) + q[1..] == Of(p.selected, s) + q;
      } else {
        assert Of(p.selected, s) + [] == Of(p.selected, s);
      }
    }
  }

  lemma {:induction false} AfterDescends(p0: Pick, p: Pick, trace: seq<string>, cap: nat)
    requires Descends(p0, p, cap) && Legal(p, trace, cap)
    ensures Descends(p0, After(p, trace, cap), cap)
    decreases |trace|
  {
    if trace != [] {
      TakeDescends(p0, p, trace[0], cap);
      AfterDescends(p0, p.Take(trace[0]), trace[1..], cap);
    }
  }

  lemma {:induction false} AfterExtends(p: Pick, trace: seq<string>, cap: nat)
    requires Legal(p, trace, cap)
    ensures p.selected <= After(p, trace, cap).selected
    ensures trace != [] ==> p.selected + [p.waiting[trace[0]][0]] <= After(p, trace, cap).selected
    decreases |trace|
  {
    if trace != [] {
      AfterExtends(p.Take(trace[0]), trace[1..], cap);
    }
  }

  lemma RoundDescends(p0: Pick, p: Pick, scopes: seq<string>, cap: nat)
    requires Descends(p0, p, cap) && p.Size() < cap && forall s :: s in scopes ==> s in p.waiting
    ensures Descends(p0, Round(p, scopes, cap).pick, cap)
    ensures p.selected <= Round(p, scopes, cap).pick.selected
  {
    var t := RoundTrace(p, scopes, cap);
    AfterDescends(p0, p, t, cap);
    AfterExtends(p, t, cap);
  }

  lemma RoundsDescends(p0: Pick, p: Pick, scopes: seq<string>, cap: nat)
    requires Descends(p0, p, cap) && forall s :: s in scopes ==> s in p.waiting
    ensures Descends(p0, Rounds(p, scopes, cap), cap)
    ensures p.Size() < cap ==> Round(p, scopes, cap).pick.selected <= Rounds(p, scopes, cap).selected
  {
    var first, t := RoundsTrace(p, scopes, cap);
    AfterDescends(p0, p, first + t, cap);
    if p.Size() < cap {
      AfterExtends(After(p, first, cap), t, cap);
    }
  }

  lemma StartDescends(queue: seq<Request>, seed: Request, last: Option<string>, cap: nat)
    ensures var p0 := Start(queue, seed, last); Descends(p0, p0, cap)
  {
    var p0 := Start(queue, seed, last);
    forall s, r | s in p0.waiting && r in p0.waiting[s] ensures r.scope == s {
      OfMembers(Candidates(queue, seed), s);
    }
    forall s | s in p0.waiting ensures Of([], s) + p0.waiting[s] == p0.waiting[s] {
    }
  }

  // ----- the split of the queue -----

  ghost predicate Prefix<T>(a: seq<T>, b: seq<T>) {
    a <= b
  }

  /** Every scope contributes the oldest of its compatible requests, and nothing else is picked. */
  lemma SelectionSplits(queue: seq<Request>, seed: Request, last: Option<string>, cap: nat)
    ensures var p := Selection(queue, seed, last, cap);
            && (forall r :: r in p.selected ==> r in queue && r.Compatible(seed))
            && (forall s :: Prefix(Of(p.selected, s), Of(Candidates(queue, seed), s)))
            && (p.Size() <= cap || |p.selected| == 1)
            && p.last == (if p.selected == [] then last else Some(p.selected[|p.selected| - 1].scope))
  {
    var p0, order, cands := Start(queue, seed, last), Order(queue, seed, last), Candidates(queue, seed);
    StartDescends(queue, seed, last, cap);
    RotatedSame(Scopes(cands), last);
    RoundsDescends(p0, p0, order, cap);
    var p := Selection(queue, seed, last, cap);
    ScopesDistinct(cands);
    forall s ensures Prefix(Of(p.selected, s), Of(cands, s)) {
      if s in p0.waiting {
        assert Of(p.selected, s) + p.waiting[s] == p0.waiting[s];
      } else {
        OfAbsent(p.selected, s);
      }
    }
    forall r | r in p.selected ensures r in queue && r.Compatible(seed) {
      OfMembers(p.selected, r.scope);
      OfMembers(cands, r.scope);
      CandidateMembers(queue, seed);
      assert Prefix(Of(p.selected, r.scope), Of(cands, r.scope));
      var i :| 0 <= i < |Of(p.selected, r.scope)| && Of(p.selected, r.scope)[i] == r;
      assert Of(cands, r.scope)[i] == r;
    }
  }

  lemma DistinctSnoc(rs: seq<Request>, x: Request)
    requires DistinctIds(rs) && forall r :: r in rs ==> r.id != x.id
    ensures DistinctIds(rs + [x])
  {
    forall i | 0 <= i < |rs| ensures rs[i].id != x.id {
      assert rs[i] in rs;
    }
  }

  lemma LastIsNew(rs: seq<Request>)
    requires rs != [] && DistinctIds(rs)
    ensures DistinctIds(rs[..|rs| - 1]) && forall r :: r in rs[..|rs| - 1] ==> r.id != rs[|rs| - 1].id
  {
    forall r | r in rs[..|rs| - 1] ensures r.id != rs[|rs| - 1].id {
      var i :| 0 <= i < |rs| - 1 && rs[i] == r;
    }
  }

  lemma {:induction false} SubDistinct(rs: seq<Request>, seed: Request, scope: string)
    requires DistinctIds(rs)
    ensures DistinctIds(Candidates(rs, seed)) && DistinctIds(Of(rs, scope))
  {
    if rs != [] {
      var init, last := rs[..|rs| - 1], rs[|rs| - 1];
      LastIsNew(rs);
      SubDistinct(init, seed, scope);
      CandidateMembers(init, seed);
      OfMembers(init, scope);
      DistinctSnoc(Candidates(init, seed), last);
      DistinctSnoc(Of(init, scope), last);
    }
  }

  lemma NotRepeated(init: seq<Request>, x: Request)
    requires DistinctIds(Of(init + [x], x.scope))
    ensures x !in init
  {
    OfAppend(init, x, x.scope);
    OfMembers(init, x.scope);
    var part, whole := Of(init, x.scope), Of(init + [x], x.scope);
    assert forall i :: 0 <= i < |part| ==> part[i] == whole[i] && whole[i].id != whole[|whole| - 1].id;
  }

  lemma {:induction false} ScopewiseDistinct(rs: seq<Request>, queue: seq<Request>)
    requires DistinctIds(queue) && forall r :: r in rs ==> r in queue
    requires forall s :: DistinctIds(Of(rs, s))
    ensures DistinctIds(rs)
  {
    if rs != [] {
      var init, x := rs[..|rs| - 1], rs[|rs| - 1];
      assert rs == init + [x];
      forall s ensures DistinctIds(Of(init, s)) {
        OfAppend(init, x, s);
        assert DistinctIds(Of(rs, s));
        assert forall i :: 0 <= i < |Of(init, s)| ==> Of(init, s)[i] == Of(rs, s)[i];
      }
      ScopewiseDistinct(init, queue);
      assert DistinctIds(Of(init + [x], x.scope));
      NotRepeated(init, x);
      forall i | 0 <= i < |init| ensures init[i].id != x.id {
        assert init[i] == rs[i] && init[i] in queue && x in queue && init[i] in init;
      }
    }
  }

  /** No request is picked twice. */
  lemma SelectionDistinct(queue: seq<Request>, seed: Request, last: Option<string>, cap: nat)
    requires DistinctIds(queue)
    ensures DistinctIds(Selection(queue, seed, last, cap).selected)
  {
    var p := Selection(queue, seed, last, cap);
    SelectionSplits(queue, seed, last, cap);
    forall s ensures DistinctIds(Of(p.selected, s)) {
      SubDistinct(queue, seed, s);
      SubDistinct(Candidates(queue, seed), seed, s);
      var whole := Of(Candidates(queue, seed), s);
      assert Prefix(Of(p.selected, s), whole);
      assert forall i :: 0 <= i < |Of(p.selected, s)| ==> Of(p.selected, s)[i] == whole[i];
    }
    ScopewiseDistinct(p.selected, queue);
  }

  lemma IdsAppend(rs: seq<Request>, r: Request)
    ensures Ids(rs + [r]) == Ids(rs) + {r.id}
  {
    var all := rs + [r];
    forall id | id in Ids(rs) + {r.id} ensures id in Ids(all) {
      if id == r.id {
        assert all[|rs|] == r;
      } else {
        var i :| 0 <= i < |rs| && rs[i].id == id;
        assert all[i] == rs[i];
      }
    }
  }

  lemma {:induction false} IdsCount(rs: seq<Request>)
    requires DistinctIds(rs)
    ensures |Ids(rs)| == |rs|
  {
    if rs == [] {
      assert Ids(rs) == {};
    } else {
      var init, x := rs[..|rs| - 1], rs[|rs| - 1];
      IdsCount(init);
      IdsAppend(init, x);
      assert rs == init + [x];
      assert x.id !in Ids(init);
    }
  }

  lemma {:induction false} RemoveMembers(queue: seq<Request>, ids: set<nat>)
    ensures forall r :: r in Remove(queue, ids) <==> r in queue && r.id !in ids
  {
    if queue != [] {
      RemoveMembers(queue[..|queue| - 1], ids);
    }
  }

  lemma {:induction false} RemoveDistinct(queue: seq<Request>, ids: set<nat>)
    requires DistinctIds(queue)
    ensures DistinctIds(Remove(queue, ids))
  {
    if queue != [] {
      var init := queue[..|queue| - 1];
      LastIsNew(queue);
      RemoveDistinct(init, ids);
      RemoveMembers(init, ids);
      DistinctSnoc(Remove(init, ids), queue[|queue| - 1]);
    }
  }

  lemma RemoveCount(queue: seq<Request>, ids: set<nat>)
    requires DistinctIds(queue) && ids <= Ids(queue)
    ensures |Remove(queue, ids)| == |queue| - |ids|
  {
    var rest := Remove(queue, ids);
    RemoveDistinct(queue, ids);
    RemoveMembers(queue, ids);
    IdsCount(queue);
    IdsCount(rest);
    assert Ids(rest) == Ids(queue) - ids by {
      forall id | id in Ids(queue) - ids ensures id in Ids(rest) {
        var i :| 0 <= i < |queue| && queue[i].id == id;
        assert queue[i] in rest;
      }
      forall id | id in Ids(rest) ensures id in Ids(queue) - ids {
        var i :| 0 <= i < |rest| && rest[i].id == id;
        assert rest[i] in queue;
      }
    }
  }

  /** The whole split: what is left is the queue without the batch, in its old order, and nothing is lost. */
  lemma QueueSplits(queue: seq<Request>, seed: Request, last: Option<string>, cap: nat)
    requires DistinctIds(queue)
    ensures var selected := Selection(queue, seed, last, cap).selected;
            var rest := Remove(queue, Ids(selected));
            && (forall r :: r in queue <==> r in selected || r in rest)
            && (forall r :: r in selected ==> r !in rest)
            && DistinctIds(selected) && DistinctIds(rest) && |selected| + |rest| == |queue|
  {
    var selected := Selection(queue, seed, last, cap).selected;
    SelectionSplits(queue, seed, last, cap);
    SelectionDistinct(queue, seed, last, cap);
    PartSplits(queue, selected);
  }

  lemma PartSplits(queue: seq<Request>, part: seq<Request>)
    requires DistinctIds(queue) && DistinctIds(part) && forall r :: r in part ==> r in queue
    ensures var rest := Remove(queue, Ids(part));
            && (forall r :: r in queue <==> r in part || r in rest)
            && (forall r :: r in part ==> r !in rest)
            && DistinctIds(rest) && |part| + |rest| == |queue|
  {
    var rest := Remove(queue, Ids(part));
    RemoveMembers(queue, Ids(part));
    RemoveDistinct(queue, Ids(part));
    forall id | id in Ids(part) ensures id in Ids(queue) {
      var i :| 0 <= i < |part| && part[i].id == id;
      assert part[i] in queue;
    }
    RemoveCount(queue, Ids(part));
    IdsCount(part);
    forall r | r in queue && r.id in Ids(part) ensures r in part {
      var i :| 0 <= i < |part| && part[i].id == r.id;
      assert part[i] in queue;
    }
    forall r | r in part ensures r.id in Ids(part) {
      var i :| 0 <= i < |part| && part[i] == r;
    }
  }

  lemma {:induction false} RemoveKeepsOrder(queue: seq<Request>, ids: set<nat>, i: nat, j: nat)
    requires i < j < |Remove(queue, ids)|
    ensures exists a, b :: 0 <= a < b < |queue|
              && queue[a] == Remove(queue, ids)[i] && queue[b] == Remove(queue, ids)[j]
  {
    var init := queue[..|queue| - 1];
    if j < |Remove(init, ids)| {
      RemoveKeepsOrder(init, ids, i, j);
      var a, b :| 0 <= a < b < |init| && init[a] == Remove(init, ids)[i] && init[b] == Remove(init, ids)[j];
      assert queue[a] == init[a] && queue[b] == init[b];
    } else {
      RemoveMember(init, ids, i);
    }
  }

  lemma {:induction false} RemoveMember(queue: seq<Request>, ids: set<nat>, i: nat)
    requires i < |Remove(queue, ids)|
    ensures exists a :: 0 <= a < |queue| && queue[a] == Remove(queue, ids)[i]
  {
    var init := queue[..|queue| - 1];
    if i < |Remove(init, ids)| {
      RemoveMember(init, ids, i);
      var a :| 0 <= a < |init| && init[a] == Remove(init, ids)[i];
      assert queue[a] == init[a];
    }
  }

  // ----- nonempty, and who goes first -----

  ghost predicate Weighted(rs: seq<Request>) {
    forall r :: r in rs ==> r.weight >= 1
  }

  /** The first pick is the oldest request of the first scope in the order, whatever its size. */
  lemma SelectionStarts(queue: seq<Request>, seed: Request, last: Option<string>, cap: nat)
    requires seed in queue && cap >= 1 && Weighted(queue)
    ensures var p, order := Selection(queue, seed, last, cap), Order(queue, seed, last);
            && order != [] && p.selected != []
            && Of(Candidates(queue, seed), order[0]) != []
            && p.selected[0] == Of(Candidates(queue, seed), order[0])[0]
  {
    var p0, order, cands := Start(queue, seed, last), Order(queue, seed, last), Candidates(queue, seed);
    CandidateMembers(queue, seed);
    RotatedSame(Scopes(cands), last);
    ScopesDistinct(cands);
    StartDescends(queue, seed, last, cap);
    assert seed in Of(cands, seed.scope) by {
      OfMembers(cands, seed.scope);
    }
    var s := order[0];
    var q := p0.waiting[s];
    assert q[0] in Of(cands, s);
    OfMembers(cands, s);
    assert q[0].weight >= 1 && MayTake(p0, s, cap);
    var first, t := RoundsTrace(p0, order, cap);
    AfterExtends(p0, first + t, cap);
    assert (first + t)[0] == s;
    assert p0.selected + [q[0]] == [q[0]];
  }

  // ----- weighted shares -----

  lemma {:induction false} RoundElsewhere(p: Pick, scopes: seq<string>, cap: nat, s: string)
    requires (forall x :: x in scopes ==> x in p.waiting) && s in p.waiting && s !in scopes
    ensures Round(p, scopes, cap).pick.waiting[s] == p.waiting[s]
    decreases |scopes|
  {
    if scopes != [] {
      var k := VisitTakes(p, scopes[0], Allowance(p.waiting[scopes[0]]), cap);
      var next := Visit(p, scopes[0], Allowance(p.waiting[scopes[0]]), cap);
      if next.Size() < cap {
        RoundElsewhere(next, scopes[1..], cap, s);
      }
    }
  }

  /** In one round a scope gives up to the weight of its oldest request, and less only when its
      queue ends, the batch is full, or its next request no longer fits. */
  lemma {:induction false} RoundShares(p: Pick, scopes: seq<string>, cap: nat, s: string) returns (k: nat)
    requires (forall x :: x in scopes ==> x in p.waiting) && Distinct(scopes) && s in scopes && p.Size() < cap
    ensures var r, q := Round(p, scopes, cap).pick, p.waiting[s];
            && k <= |q| && k <= Allowance(q) && r.waiting[s] == q[k..]
            && (k == Allowance(q) || k == |q| || r.Size() >= cap || r.Blocked(q[k], cap))
    decreases |scopes|
  {
    var head := scopes[0];
    var q := p.waiting[s];
    var next := Visit(p, head, Allowance(p.waiting[head]), cap);
    var taken := VisitTakes(p, head, Allowance(p.waiting[head]), cap);
    if s == head {
      k := taken;
      if next.Size() < cap {
        RoundElsewhere(next, scopes[1..], cap, s);
        RoundGrows(next, scopes[1..], cap);
      }
    } else if next.Size() < cap {
      k := RoundShares(next, scopes[1..], cap, s);
    } else {
      k := 0;
    }
  }

  lemma {:induction false} RoundGrows(p: Pick, scopes: seq<string>, cap: nat)
    requires forall x :: x in scopes ==> x in p.waiting
    ensures p.selected <= Round(p, scopes, cap).pick.selected
    decreases |scopes|
  {
    if scopes != [] {
      var k := VisitTakes(p, scopes[0], Allowance(p.waiting[scopes[0]]), cap);
      var next := Visit(p, scopes[0], Allowance(p.waiting[scopes[0]]), cap);
      if next.Size() < cap {
        RoundGrows(next, scopes[1..], cap);
      }
    }
  }

  // ----- the scope served last -----

  lemma {:induction false} RoundConcat(p: Pick, a: seq<string>, b: seq<string>, cap: nat)
    requires forall x :: x in a + b ==> x in p.waiting
    requires p.Size() < cap
    ensures var first := Round(p, a, cap).pick;
            Round(p, a + b, cap).pick == if first.Size() >= cap then first else Round(first, b, cap).pick
    decreases |a|
  {
    if a == [] {
      assert a + b == b;
    } else {
      assert (a + b)[1..] == a[1..] + b;
      assert forall x :: x in a ==> x in a + b;
      var next := Visit(p, a[0], Allowance(p.waiting[a[0]]), cap);
      if next.Size() < cap {
        RoundConcat(next, a[1..], b, cap);
      }
    }
  }

  /** A round over `others` that fills the batch leaves the last scope untouched. */
  lemma LastUntouched(p0: Pick, others: seq<string>, last: string, cap: nat)
    requires Descends(p0, p0, cap) && p0.selected == [] && (forall x :: x in others ==> x in p0.waiting)
    requires cap >= 1 && last in p0.waiting && last !in others
    ensures Of(Round(p0, others, cap).pick.selected, last) == []
  {
    var first := Round(p0, others, cap).pick;
    RoundDescends(p0, p0, others, cap);
    RoundElsewhere(p0, others, cap, last);
    assert Of(first.selected, last) + first.waiting[last] == p0.waiting[last];
  }

  /** One that leaves room has served each of them, or stopped at a request that does not fit. */
  lemma ServedOrBlocked(p0: Pick, others: seq<string>, s: string, cap: nat, p: Pick)
    requires Descends(p0, p0, cap) && p0.selected == [] && (forall x :: x in others ==> x in p0.waiting)
    requires Distinct(others) && s in others && p0.waiting[s] != [] && p0.waiting[s][0].weight >= 1
    requires Round(p0, others, cap).pick.Size() < cap && Round(p0, others, cap).pick.selected <= p.selected
    ensures Of(p.selected, s) != [] || p.Blocked(p0.waiting[s][0], cap)
  {
    var first := Round(p0, others, cap).pick;
    RoundDescends(p0, p0, others, cap);
    PrefixKeeps(first, p, s);
    var k := RoundShares(p0, others, cap, s);
    assert Of(first.selected, s) + first.waiting[s] == p0.waiting[s];
  }

  /** Once a round over `others` has left room, each of them has something selected or does not fit. */
  lemma OthersServed(p0: Pick, others: seq<string>, last: string, s: string, cap: nat)
    requires Descends(p0, p0, cap) && p0.selected == [] && cap >= 1
    requires forall x :: x in others + [last] ==> x in p0.waiting
    requires Distinct(others) && s in others && last !in others
    requires p0.waiting[s] != [] && p0.waiting[s][0].weight >= 1
    ensures var p := Rounds(p0, others + [last], cap);
            Of(p.selected, last) != [] ==> Of(p.selected, s) != [] || p.Blocked(p0.waiting[s][0], cap)
  {
    var order := others + [last];
    assert last in order && forall x :: x in others ==> x in order;
    RoundConcat(p0, others, [last], cap);
    var first := Round(p0, others, cap).pick;
    if first.Size() >= cap {
      assert Rounds(p0, order, cap) == first;
      LastUntouched(p0, others, last, cap);
    } else {
      RoundGrows(first, [last], cap);
      RoundsDescends(p0, p0, order, cap);
      ServedOrBlocked(p0, others, s, cap, Rounds(p0, order, cap));
    }
  }

  /** The order of the first round ends with the scope served last. */
  lemma LastInOrder(cands: seq<Request>, last: string, s: string)
    requires s != last && Of(cands, s) != [] && Of(cands, last) != []
    ensures var order := Rotated(Scopes(cands), Some(last));
            && |order| > 1 && order[|order| - 1] == last && Distinct(order)
            && s in order[..|order| - 1] && last !in order[..|order| - 1]
  {
    ScopesDistinct(cands);
    var scopes := Scopes(cands);
    assert s in scopes && last in scopes;
    LastRotated(scopes, last, s);
  }

  lemma StartHead(queue: seq<Request>, seed: Request, s: string)
    requires Weighted(queue) && Of(Candidates(queue, seed), s) != []
    ensures Of(Candidates(queue, seed), s)[0].weight >= 1
  {
    var head := Of(Candidates(queue, seed), s)[0];
    assert head in Of(Candidates(queue, seed), s);
    OfMembers(Candidates(queue, seed), s);
    CandidateMembers(queue, seed);
  }

  /** With another scope waiting, the scope served last is offered its turn after every other one. */
  lemma LastScopeGoesLast(queue: seq<Request>, seed: Request, last: string, cap: nat, s: string)
    requires cap >= 1 && Weighted(queue)
    requires s != last && Of(Candidates(queue, seed), s) != []
    requires Of(Candidates(queue, seed), last) != []
    ensures var order := Order(queue, seed, Some(last)); |order| > 1 && order[|order| - 1] == last
    ensures var p := Selection(queue, seed, Some(last), cap);
            Of(p.selected, last) != [] ==>
              Of(p.selected, s) != [] || p.Blocked(Of(Candidates(queue, seed), s)[0], cap)
  {
    var cands := Candidates(queue, seed);
    var p0, order := Start(queue, seed, Some(last)), Order(queue, seed, Some(last));
    RotatedSame(Scopes(cands), Some(last));
    LastInOrder(cands, last, s);
    StartDescends(queue, seed, Some(last), cap);
    StartHead(queue, seed, s);
    ScopesCover(cands, s);
    assert order == order[..|order| - 1] + [last];
    OthersServed(p0, order[..|order| - 1], last, s, cap);
  }

  lemma PrefixKeeps(a: Pick, b: Pick, s: string)
    requires a.selected <= b.selected
    ensures a.Size() <= b.Size() && |Of(a.selected, s)| <= |Of(b.selected, s)|
  {
    var more := b.selected[|a.selected|..];
    assert b.selected == a.selected + more;
    OfConcat(a.selected, more, s);
    TotalSizeConcat(a.selected, more);
  }

  lemma SmallMod(x: nat, n: nat)
    requires x < n
    ensures x % n == x
  {
  }

  lemma LastRotated(scopes: seq<string>, last: string, s: string)
    requires Distinct(scopes) && last in scopes && s in scopes && s != last
    ensures var r := Rotated(scopes, Some(last));
            |r| > 1 && r[|r| - 1] == last && Distinct(r) && s in r[..|r| - 1]
  {
    var r := Rotated(scopes, Some(last));
    RotatedSame(scopes, Some(last));
    RotatedDistinct(scopes, Some(last));
    RotationEnds(scopes, IndexOf(scopes, last));
    var i :| 0 <= i < |r| && r[i] == s;
    assert r[..|r| - 1][i] == s;
  }

  lemma RotationEnds(scopes: seq<string>, at: nat)
    requires at < |scopes|
    ensures var r := RotateBy(scopes, (at + 1) % |scopes|); r != [] && r[|r| - 1] == scopes[at]
  {
    if at + 1 < |scopes| {
      SmallMod(at + 1, |scopes|);
    }
  }

  // ----- work conservation -----

  /** Nothing more could be added. */
  ghost predicate Exhausted(p: Pick, cap: nat) {
    p.Size() >= cap || forall s :: s in p.waiting ==> p.waiting[s] == [] || p.Blocked(p.waiting[s][0], cap)
  }

  ghost predicate Solid(w: Queues) {
    forall s, r :: s in w && r in w[s] ==> r.Size() >= 1 && r.weight >= 1
  }

  lemma VisitSolid(p: Pick, s: string, cap: nat)
    requires s in p.waiting && Solid(p.waiting)
    ensures Solid(Visit(p, s, Allowance(p.waiting[s]), cap).waiting)
    ensures var next := Visit(p, s, Allowance(p.waiting[s]), cap);
            forall x :: x in p.waiting && x != s ==> next.waiting[x] == p.waiting[x]
  {
    var k := VisitTakes(p, s, Allowance(p.waiting[s]), cap);
    SolidTail(p.waiting, s, k);
  }

  lemma SolidTail(w: Queues, s: string, k: nat)
    requires Solid(w) && s in w && k <= |w[s]|
    ensures Solid(w[s := w[s][k..]])
  {
    assert forall r :: r in w[s][k..] ==> r in w[s];
  }

  lemma {:induction false} RoundRemaining(p: Pick, scopes: seq<string>, cap: nat)
    requires (forall x :: x in scopes ==> x in p.waiting) && Distinct(scopes) && Solid(p.waiting)
    ensures var r := Round(p, scopes, cap);
            && Solid(r.pick.waiting) && Distinct(r.remaining)
            && (r.pick.Size() < cap ==> forall s :: s in scopes && r.pick.waiting[s] != [] ==> s in r.remaining)
    decreases |scopes|
  {
    if scopes != [] {
      var s := scopes[0];
      var next := Visit(p, s, Allowance(p.waiting[s]), cap);
      VisitSolid(p, s, cap);
      if next.Size() < cap {
        RoundRemaining(next, scopes[1..], cap);
        RoundElsewhere(next, scopes[1..], cap, s);
      }
    }
  }

  lemma IdleTurn(p: Pick, s: string, cap: nat)
    requires s in p.waiting && Solid(p.waiting) && p.Size() < cap
    ensures var next := Visit(p, s, Allowance(p.waiting[s]), cap);
            next.Size() == p.Size() ==> next == p && (p.waiting[s] == [] || p.Blocked(p.waiting[s][0], cap))
  {
    var q := p.waiting[s];
    if q != [] && !p.Blocked(q[0], cap) {
      TotalSizeAppend(p.selected, q[0]);
    }
  }

  /** A round that adds nothing found every scope empty or blocked. */
  lemma {:induction false} IdleRound(p: Pick, scopes: seq<string>, cap: nat)
    requires (forall x :: x in scopes ==> x in p.waiting) && Solid(p.waiting) && p.Size() < cap
    requires Round(p, scopes, cap).pick.Size() == p.Size()
    ensures Round(p, scopes, cap).pick == p
    ensures forall s :: s in scopes ==> p.waiting[s] == [] || p.Blocked(p.waiting[s][0], cap)
    decreases |scopes|
  {
    if scopes != [] {
      IdleTurn(p, scopes[0], cap);
      IdleRound(p, scopes[1..], cap);
    }
  }

  /** After a round that did not fill the batch, whatever still waits is among the remaining scopes. */
  lemma RoundLeaves(p: Pick, scopes: seq<string>, cap: nat, s: string)
    requires (forall x :: x in scopes ==> x in p.waiting) && Distinct(scopes) && Solid(p.waiting)
    requires forall x :: x in p.waiting && p.waiting[x] != [] ==> x in scopes
    requires Round(p, scopes, cap).pick.Size() < cap && s in p.waiting && Round(p, scopes, cap).pick.waiting[s] != []
    ensures s in Round(p, scopes, cap).remaining
  {
    RoundRemaining(p, scopes, cap);
    if s !in scopes {
      RoundElsewhere(p, scopes, cap, s);
    }
  }

  /** The scopes cover everything that waits, while there is room. */
  ghost predicate Covered(p: Pick, scopes: seq<string>, cap: nat) {
    && (forall x :: x in scopes ==> x in p.waiting) && Distinct(scopes) && Solid(p.waiting)
    && (p.Size() < cap ==> forall s :: s in p.waiting && p.waiting[s] != [] ==> s in scopes)
  }

  lemma RoundCovers(p: Pick, scopes: seq<string>, cap: nat)
    requires Covered(p, scopes, cap) && p.Size() < cap
    ensures var round := Round(p, scopes, cap); Covered(round.pick, round.remaining, cap)
  {
    var round := Round(p, scopes, cap);
    RoundRemaining(p, scopes, cap);
    if round.pick.Size() < cap {
      forall s | s in round.pick.waiting && round.pick.waiting[s] != [] ensures s in round.remaining {
        RoundLeaves(p, scopes, cap, s);
      }
    }
  }

  lemma IdleExhausted(p: Pick, scopes: seq<string>, cap: nat)
    requires Covered(p, scopes, cap)
    requires scopes == [] || p.Size() >= cap || Round(p, scopes, cap).pick.Size() == p.Size()
    ensures Exhausted(Rounds(p, scopes, cap), cap)
  {
    if scopes != [] && p.Size() < cap {
      IdleRound(p, scopes, cap);
    }
  }

  lemma {:induction false} RoundsWork(p: Pick, scopes: seq<string>, cap: nat)
    requires Covered(p, scopes, cap)
    ensures Exhausted(Rounds(p, scopes, cap), cap)
    decreases MaxInt(0, cap - p.Size())
  {
    if scopes == [] || p.Size() >= cap || Round(p, scopes, cap).pick.Size() == p.Size() {
      IdleExhausted(p, scopes, cap);
    } else {
      var round := Round(p, scopes, cap);
      RoundCovers(p, scopes, cap);
      RoundsWork(round.pick, round.remaining, cap);
    }
  }

  lemma StartSolid(queue: seq<Request>, seed: Request, last: Option<string>)
    requires forall r :: r in queue ==> r.Size() >= 1 && r.weight >= 1
    ensures Solid(Start(queue, seed, last).waiting)
  {
    var p0, cands := Start(queue, seed, last), Candidates(queue, seed);
    CandidateMembers(queue, seed);
    forall s, r | s in p0.waiting && r in p0.waiting[s] ensures r.Size() >= 1 && r.weight >= 1 {
      OfMembers(cands, s);
      assert r in queue;
    }
  }

  lemma OrderIsScopes(queue: seq<Request>, seed: Request, last: Option<string>)
    ensures var p0, order := Start(queue, seed, last), Order(queue, seed, last);
            Distinct(order) && forall s :: s in order <==> s in p0.waiting
  {
    var cands := Candidates(queue, seed);
    RotatedSame(Scopes(cands), last);
    ScopesDistinct(cands);
    RotatedDistinct(Scopes(cands), last);
  }

  /** With requests of at least one row, a batch stops below capacity only if no waiting scope's oldest request fits. */
  lemma SelectionWork(queue: seq<Request>, seed: Request, last: Option<string>, cap: nat)
    requires forall r :: r in queue ==> r.Size() >= 1 && r.weight >= 1
    ensures Exhausted(Selection(queue, seed, last, cap), cap)
  {
    StartSolid(queue, seed, last);
    OrderIsScopes(queue, seed, last);
    RoundsWork(Start(queue, seed, last), Order(queue, seed, last), cap);
  }

  lemma RotatedDistinct(scopes: seq<string>, last: Option<string>)
    requires Distinct(scopes)
    ensures Distinct(Rotated(scopes, last))
  {
    if last.Some? && last.value in scopes && |scopes| > 1 {
      var offset := (IndexOf(scopes, last.value) + 1) % |scopes|;
      var r := RotateBy(scopes, offset);
      forall i, j | 0 <= i < j < |r| ensures r[i] != r[j] {
        var a, b := if i < |scopes| - offset then i + offset else i - (|scopes| - offset),
                    if j < |scopes| - offset then j + offset else j - (|scopes| - offset);
        assert r[i] == scopes[a] && r[j] == scopes[b] && a != b;
      }
    }
  }
}
