/** Batch selection of the dynamic batching scheduler: weighted rounds over the scopes of
    compatible requests, bounded by the batch capacity. */
module FairBatch {
  import opened Common

  type Row = seq<real>

  /** An input array: zero-dimensional, or rows of one trailing shape and type. */
  datatype Tensor =
    | Cell(cell: Row)
    | Rows(tail: seq<nat>, dtype: string, rows: seq<Row>)

  datatype GroupKey = GroupKey(tail: seq<nat>, dtype: string)

  function GroupOf(t: Tensor): GroupKey {
    match t
    case Cell(_) => GroupKey([], "")
    case Rows(tail, dtype, _) => GroupKey(tail, dtype)
  }

  /** `id` stands for the identity of the request object. */
  datatype Request = Request(
    id: nat, input: Tensor, enqueuedAt: real, deadline: Option<real>, scope: string, priority: int, weight: nat)
  {
    function Size(): nat {
      match input
      case Cell(_) => 1
      case Rows(_, _, rows) => |rows|
    }

    predicate Compatible(seed: Request) {
      priority == seed.priority && GroupOf(input) == GroupOf(seed.input)
    }
  }

  function TotalSize(rs: seq<Request>): nat {
    if rs == [] then 0 else TotalSize(rs[..|rs| - 1]) + rs[|rs| - 1].Size()
  }

  function Candidates(queue: seq<Request>, seed: Request): seq<Request> {
    if queue == [] then []
    else
      var rest := Candidates(queue[..|queue| - 1], seed);
      var last := queue[|queue| - 1];
      if last.Compatible(seed) then rest + [last] else rest
  }

  /** The requests of one scope, in order. */
  function Of(rs: seq<Request>, scope: string): seq<Request> {
    if rs == [] then []
    else
      var rest := Of(rs[..|rs| - 1], scope);
      var last := rs[|rs| - 1];
      if last.scope == scope then rest + [last] else rest
  }

  /** Scopes by first appearance. */
  function Scopes(rs: seq<Request>): seq<string> {
    if rs == [] then []
    else
      var rest := Scopes(rs[..|rs| - 1]);
      var scope := rs[|rs| - 1].scope;
      if scope in rest then rest else rest + [scope]
  }

  type Queues = map<string, seq<Request>>

  function ByScope(rs: seq<Request>): Queues {
    map s | s in Scopes(rs) :: Of(rs, s)
  }

  function IndexOf(scopes: seq<string>, scope: string): (i: nat)
    requires scope in scopes
    ensures i < |scopes| && scopes[i] == scope
  {
    if scopes[0] == scope then 0 else 1 + IndexOf(scopes[1..], scope)
  }

  /** The scope served last goes to the end of the order. */
  function Rotated(scopes: seq<string>, last: Option<string>): seq<string> {
    if last.Some? && last.value in scopes && |scopes| > 1 then
      RotateBy(scopes, (IndexOf(scopes, last.value) + 1) % |scopes|)
    else scopes
  }

  function RotateBy(scopes: seq<string>, offset: nat): seq<string>
    requires offset <= |scopes|
  {
    scopes[offset..] + scopes[..offset]
  }

  /** A selection in progress: what is still waiting per scope, what was picked, the scope picked last. */
  datatype Pick = Pick(waiting: Queues, selected: seq<Request>, last: Option<string>) {
    function Size(): nat { TotalSize(selected) }

    predicate Blocked(r: Request, cap: nat) {
      selected != [] && Size() + r.Size() > cap
    }

    function Take(scope: string): Pick
      requires scope in waiting && waiting[scope] != []
    {
      Pick(waiting[scope := waiting[scope][1..]], selected + [waiting[scope][0]], Some(scope))
    }
  }

  lemma TotalSizeAppend(rs: seq<Request>, r: Request)
    ensures TotalSize(rs + [r]) == TotalSize(rs) + r.Size()
  {
    assert (rs + [r])[..|rs|] == rs;
  }

  function Allowance(q: seq<Request>): nat {
    if q == [] then 1 else q[0].weight
  }

  /** One scope's turn: at most `allowance` requests, first come first served, while they fit. */
  function Visit(p: Pick, scope: string, allowance: nat, cap: nat): (r: Pick)
    requires scope in p.waiting
    ensures r.waiting.Keys == p.waiting.Keys && r.Size() >= p.Size()
    decreases allowance
  {
    if allowance == 0 || p.waiting[scope] == [] || p.Blocked(p.waiting[scope][0], cap) then p
    else
      var next := p.Take(scope);
      TotalSizeAppend(p.selected, p.waiting[scope][0]);
      if next.Size() >= cap then next else Visit(next, scope, allowance - 1, cap)
  }

  datatype RoundResult = RoundResult(pick: Pick, remaining: seq<string>)

  /** One turn for each scope, until the batch is full. */
  function Round(p: Pick, scopes: seq<string>, cap: nat): (r: RoundResult)
    requires forall s :: s in scopes ==> s in p.waiting
    ensures r.pick.waiting.Keys == p.waiting.Keys && r.pick.Size() >= p.Size()
    ensures forall s :: s in r.remaining ==> s in scopes
    decreases |scopes|
  {
    if scopes == [] then RoundResult(p, [])
    else
      var s := scopes[0];
      var next := Visit(p, s, Allowance(p.waiting[s]), cap);
      var keep := if next.waiting[s] != [] then [s] else [];
      if next.Size() >= cap then RoundResult(next, keep)
      else
        var rest := Round(next, scopes[1..], cap);
        rest.(remaining := keep + rest.remaining)
  }

  /** Rounds until the batch is full, every scope is empty, or a round adds nothing. */
  function Rounds(p: Pick, scopes: seq<string>, cap: nat): (r: Pick)
    requires forall s :: s in scopes ==> s in p.waiting
    decreases MaxInt(0, cap - p.Size())
  {
    if scopes == [] || p.Size() >= cap then p
    else
      var round := Round(p, scopes, cap);
      if round.pick.Size() == p.Size() then round.pick else Rounds(round.pick, round.remaining, cap)
  }

  function Start(queue: seq<Request>, seed: Request, last: Option<string>): Pick {
    Pick(ByScope(Candidates(queue, seed)), [], last)
  }

  function Order(queue: seq<Request>, seed: Request, last: Option<string>): seq<string> {
    Rotated(Scopes(Candidates(queue, seed)), last)
  }

  function Selection(queue: seq<Request>, seed: Request, last: Option<string>, cap: nat): Pick {
    RotatedSame(Scopes(Candidates(queue, seed)), last);
    Rounds(Start(queue, seed, last), Order(queue, seed, last), cap)
  }

  /** The queue without the selected requests. */
  function Remove(queue: seq<Request>, ids: set<nat>): seq<Request> {
    if queue == [] then []
    else
      var rest := Remove(queue[..|queue| - 1], ids);
      var last := queue[|queue| - 1];
      if last.id in ids then rest else rest + [last]
  }

  function Ids(rs: seq<Request>): set<nat> {
    set i | 0 <= i < |rs| :: rs[i].id
  }

  lemma RotatedSame(scopes: seq<string>, last: Option<string>)
    ensures |Rotated(scopes, last)| == |scopes|
    ensures forall s :: s in Rotated(scopes, last) <==> s in scopes
  {
    if last.Some? && last.value in scopes && |scopes| > 1 {
      var offset := (IndexOf(scopes, last.value) + 1) % |scopes|;
      assert scopes == scopes[..offset] + scopes[offset..];
    }
  }

  // ----- the loops of the source -----

  method GroupByScope(candidates: seq<Request>) returns (byScope: Queues, scopes: seq<string>)
    ensures byScope == ByScope(candidates) && scopes == Scopes(candidates)
  {
    byScope, scopes := map[], [];
    for i := 0 to |candidates|
      invariant scopes == Scopes(candidates[..i])
      invariant byScope == ByScope(candidates[..i])
    {
      var item := candidates[i];
      assert candidates[..i + 1][..i] == candidates[..i];
      if item.scope !in byScope {
        ScopesCover(candidates[..i], item.scope);
        byScope := byScope[item.scope := []];
        scopes := scopes + [item.scope];
      }
      byScope := byScope[item.scope := byScope[item.scope] + [item]];
    }
    assert candidates[..|candidates|] == candidates;
  }

  lemma {:induction false} ScopesCover(rs: seq<Request>, scope: string)
    ensures scope in Scopes(rs) <==> Of(rs, scope) != []
  {
    if rs != [] {
      ScopesCover(rs[..|rs| - 1], scope);
    }
  }

  method TakeTurn(p: Pick, scope: string, cap: nat) returns (r: Pick)
    requires scope in p.waiting
    ensures r == Visit(p, scope, Allowance(p.waiting[scope]), cap)
  {
    r := p;
    var allowance := if p.waiting[scope] != [] then p.waiting[scope][0].weight else 1;
    for j := 0 to allowance
      invariant scope in r.waiting
      invariant Visit(r, scope, allowance - j, cap) == Visit(p, scope, allowance, cap)
    {
      if r.waiting[scope] == [] {
        break;
      }
      var item := r.waiting[scope][0];
      if r.selected != [] && r.Size() + item.Size() > cap {
        break;
      }
      r := r.Take(scope);
      if r.Size() >= cap {
        break;
      }
    }
  }

  lemma Reassociate(a: seq<string>, b: seq<string>, c: seq<string>)
    ensures a + (b + c) == (a + b) + c
    ensures a + [] == a
    ensures [] + c == c
  {
  }

  method TakeRound(p: Pick, scopes: seq<string>, cap: nat) returns (r: Pick, remaining: seq<string>)
    requires forall s :: s in scopes ==> s in p.waiting
    ensures RoundResult(r, remaining) == Round(p, scopes, cap)
  {
    r, remaining := p, [];
    ghost var goal := Round(p, scopes, cap);
    for i := 0 to |scopes|
      invariant r.waiting.Keys == p.waiting.Keys
      invariant goal.pick == Round(r, scopes[i..], cap).pick
      invariant goal.remaining == remaining + Round(r, scopes[i..], cap).remaining
    {
      var scope := scopes[i];
      ghost var rest := scopes[i..];
      assert rest[0] == scope && rest[1..] == scopes[i + 1..];
      ghost var kept := remaining;
      r := TakeTurn(r, scope, cap);
      if r.waiting[scope] != [] {
        remaining := remaining + [scope];
      }
      if r.Size() >= cap {
        return;
      }
      ghost var tail := Round(r, scopes[i + 1..], cap).remaining;
      ghost var keep := if r.waiting[scope] != [] then [scope] else [];
      Reassociate(kept, keep, tail);
    }
  }

  method CompatibleWith(queue: seq<Request>, seed: Request) returns (candidates: seq<Request>)
    ensures candidates == Candidates(queue, seed)
  {
    candidates := [];
    for i := 0 to |queue|
      invariant candidates == Candidates(queue[..i], seed)
    {
      assert queue[..i + 1][..i] == queue[..i];
      if queue[i].Compatible(seed) {
        candidates := candidates + [queue[i]];
      }
    }
    assert queue[..|queue|] == queue;
  }

  method WithoutSelected(queue: seq<Request>, ids: set<nat>) returns (rest: seq<Request>)
    ensures rest == Remove(queue, ids)
  {
    rest := [];
    for i := 0 to |queue|
      invariant rest == Remove(queue[..i], ids)
    {
      assert queue[..i + 1][..i] == queue[..i];
      if queue[i].id !in ids {
        rest := rest + [queue[i]];
      }
    }
    assert queue[..|queue|] == queue;
  }

  /** The whole selection: compatible requests, grouped, rotated, picked in weighted rounds. */
  method TakeFairBatch(queue: seq<Request>, seed: Request, last: Option<string>, cap: nat)
    returns (selected: seq<Request>, rest: seq<Request>, newLast: Option<string>)
    ensures var p := Selection(queue, seed, last, cap);
            && selected == (if p.selected == [] then [seed] else p.selected)
            && newLast == p.last
            && rest == Remove(queue, Ids(selected))
  {
    var candidates := CompatibleWith(queue, seed);
    var byScope, scopes := GroupByScope(candidates);
    RotatedSame(scopes, last);
    if last.Some? && last.value in scopes && |scopes| > 1 {
      var offset := (IndexOf(scopes, last.value) + 1) % |scopes|;
      scopes := scopes[offset..] + scopes[..offset];
    }
    var p := Pick(byScope, [], last);
    while scopes != [] && p.Size() < cap
      invariant forall s :: s in scopes ==> s in p.waiting
      invariant Rounds(p, scopes, cap) == Selection(queue, seed, last, cap)
      decreases MaxInt(0, cap - p.Size())
    {
      var before := p.Size();
      p, scopes := TakeRound(p, scopes, cap);
      if p.Size() == before {
        break;
      }
    }
    selected := if p.selected == [] then [seed] else p.selected;
    newLast := p.last;
    rest := WithoutSelected(queue, Ids(selected));
  }
}
