/** Concatenating the inputs of a batch, splitting its outputs, and why that is what each
    request would have got alone from a model that treats rows independently. */
module BatchOutputs {
  import opened Common
  import opened FairBatch

  /** An output array: zero-dimensional, or rows. */
  datatype Output = Flat(cell: Row) | Table(rows: seq<Row>)

  datatype Reply = Outputs(outs: seq<Output>) | Raised(error: string)

  function Inputs(rs: seq<Request>): seq<Row>
    requires forall r :: r in rs ==> r.input.Rows?
  {
    if rs == [] then [] else Inputs(rs[..|rs| - 1]) + rs[|rs| - 1].input.rows
  }

  predicate Stackable(rs: seq<Request>) {
    rs != [] && rs[0].input.Rows? && forall r :: r in rs ==> r.input.Rows? && r.input.tail == rs[0].input.tail
  }

  /** numpy.concatenate along the batch axis: zero-dimensional or differently shaped inputs raise. */
  function Concatenate(rs: seq<Request>): Option<Tensor> {
    if Stackable(rs) then Some(Rows(rs[0].input.tail, rs[0].input.dtype, Inputs(rs))) else None
  }

  function Sizes(rs: seq<Request>): seq<nat> {
    seq(|rs|, i requires 0 <= i < |rs| => rs[i].Size())
  }

  function Total(sizes: seq<nat>): nat {
    if sizes == [] then 0 else Total(sizes[..|sizes| - 1]) + sizes[|sizes| - 1]
  }

  predicate Splittable(outs: seq<Output>, total: nat) {
    forall o :: o in outs ==> o.Table? && |o.rows| == total
  }

  lemma {:induction false} TotalPrefix(sizes: seq<nat>, i: nat)
    requires i < |sizes|
    ensures Total(sizes[..i]) + sizes[i] == Total(sizes[..i + 1]) <= Total(sizes)
    decreases |sizes|
  {
    assert sizes[..i + 1][..i] == sizes[..i];
    if i + 1 < |sizes| {
      var init := sizes[..|sizes| - 1];
      assert init[..i] == sizes[..i] && init[..i + 1] == sizes[..i + 1];
      TotalPrefix(init, i);
    } else {
      assert sizes[..i + 1] == sizes;
    }
  }

  /** The slice of every output that belongs to member i. */
  function Share(outs: seq<Output>, sizes: seq<nat>, i: nat): seq<Output>
    requires i < |sizes| && Splittable(outs, Total(sizes))
  {
    TotalPrefix(sizes, i);
    var start := Total(sizes[..i]);
    seq(|outs|, j requires 0 <= j < |outs| => Table(outs[j].rows[start..start + sizes[i]]))
  }

  method SplitOutputs(outs: seq<Output>, sizes: seq<nat>) returns (grouped: Option<seq<seq<Output>>>)
    ensures grouped.Some? <==> Splittable(outs, Total(sizes))
    ensures grouped.Some? ==> |grouped.value| == |sizes|
    ensures grouped.Some? ==> forall i :: 0 <= i < |sizes| ==> grouped.value[i] == Share(outs, sizes, i)
  {
    var total := 0;
    for i := 0 to |sizes|
      invariant total == Total(sizes[..i])
    {
      assert sizes[..i + 1][..i] == sizes[..i];
      total := total + sizes[i];
    }
    assert sizes[..|sizes|] == sizes;
    for j := 0 to |outs|
      invariant forall h :: 0 <= h < j ==> outs[h].Table? && |outs[h].rows| == total
    {
      if outs[j].Flat? || |outs[j].rows| != total {
        assert outs[j] in outs;
        return None;
      }
    }
    var parts: seq<seq<Output>> := [];
    var start := 0;
    for i := 0 to |sizes|
      invariant start == Total(sizes[..i])
      invariant |parts| == i && forall h :: 0 <= h < i ==> parts[h] == Share(outs, sizes, h)
    {
      TotalPrefix(sizes, i);
      var end := start + sizes[i];
      var part := seq(|outs|, j requires 0 <= j < |outs| => Table(outs[j].rows[start..end]));
      assert part == Share(outs, sizes, i);
      parts := parts + [part];
      start := end;
    }
    return Some(parts);
  }

  // ----- row-wise models -----

  /** A model that maps every row by itself, one function per output head. */
  datatype RowModel = RowModel(heads: seq<Row -> Row>, onCell: Row -> seq<Output>)

  ghost function MapRows(f: Row -> Row, rows: seq<Row>): seq<Row> {
    seq(|rows|, i requires 0 <= i < |rows| => f(rows[i]))
  }

  /** What the model answers for one input on its own. */
  ghost function Alone(m: RowModel, t: Tensor): seq<Output> {
    match t
    case Cell(c) => m.onCell(c)
    case Rows(_, _, rows) => seq(|m.heads|, j requires 0 <= j < |m.heads| => Table(MapRows(m.heads[j], rows)))
  }

  /** The executor may raise, but when it answers it answers row by row. */
  ghost predicate Admissible(m: RowModel, t: Tensor, reply: Reply) {
    reply.Outputs? ==> reply.outs == Alone(m, t)
  }

  lemma {:induction false} InputsSize(rs: seq<Request>)
    requires forall r :: r in rs ==> r.input.Rows?
    ensures |Inputs(rs)| == Total(Sizes(rs))
  {
    if rs != [] {
      InputsSize(rs[..|rs| - 1]);
      assert Sizes(rs)[..|rs| - 1] == Sizes(rs[..|rs| - 1]);
    }
  }

  lemma {:induction false} InputsSlice(rs: seq<Request>, i: nat)
    requires i < |rs| && forall r :: r in rs ==> r.input.Rows?
    ensures Total(Sizes(rs)[..i]) + Sizes(rs)[i] <= |Inputs(rs)|
    ensures Inputs(rs)[Total(Sizes(rs)[..i])..][..Sizes(rs)[i]] == rs[i].input.rows
  {
    var init := rs[..|rs| - 1];
    InputsSize(rs);
    InputsSize(init);
    TotalPrefix(Sizes(rs), i);
    var start, n := Total(Sizes(rs)[..i]), Sizes(rs)[i];
    if i < |init| {
      assert Sizes(init)[..i] == Sizes(rs)[..i];
      InputsSlice(init, i);
      assert Inputs(rs)[start..][..n] == Inputs(init)[start..][..n];
    } else {
      assert Sizes(rs)[..i] == Sizes(init);
      assert Inputs(rs)[start..] == rs[i].input.rows;
    }
  }

  /** Batching refines single execution: every member's share is its own answer. */
  lemma ShareIsAlone(m: RowModel, rs: seq<Request>, reply: Reply, i: nat)
    requires i < |rs| && Concatenate(rs).Some? && Admissible(m, Concatenate(rs).value, reply) && reply.Outputs?
    ensures Splittable(reply.outs, Total(Sizes(rs)))
    ensures Share(reply.outs, Sizes(rs), i) == Alone(m, rs[i].input)
  {
    InputsSize(rs);
    InputsSlice(rs, i);
    assert rs[i] in rs;
    var sizes, all := Sizes(rs), Inputs(rs);
    var start, n := Total(sizes[..i]), sizes[i];
    TotalPrefix(sizes, i);
    forall j | 0 <= j < |m.heads|
      ensures Share(reply.outs, sizes, i)[j] == Alone(m, rs[i].input)[j]
    {
      assert MapRows(m.heads[j], all)[start..start + n] == MapRows(m.heads[j], all[start..][..n]);
    }
  }

  /** A member's share does not depend on who else is in the batch. */
  lemma ShareIndependent(m: RowModel, a: seq<Request>, b: seq<Request>, x: Reply, y: Reply, i: nat, j: nat)
    requires i < |a| && Concatenate(a).Some? && Admissible(m, Concatenate(a).value, x) && x.Outputs?
    requires j < |b| && Concatenate(b).Some? && Admissible(m, Concatenate(b).value, y) && y.Outputs?
    requires a[i].input == b[j].input
    ensures Splittable(x.outs, Total(Sizes(a))) && Splittable(y.outs, Total(Sizes(b)))
    ensures Share(x.outs, Sizes(a), i) == Share(y.outs, Sizes(b), j)
  {
    ShareIsAlone(m, a, x, i);
    ShareIsAlone(m, b, y, j);
  }
}
