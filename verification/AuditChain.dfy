/** The audit log as a hash chain: sealing, appending and verifying. */
module AuditChain {
  import opened Common

  datatype Json = Null | Text(s: string) | Other(n: int)

  type Payload = map<string, Json>

  /** One line of the log file. */
  datatype Line = Blank | InvalidJson | NotObject | Record(payload: Payload)

  /** The digest of a payload's canonical text. */
  type Digest = Payload -> string

  datatype Reason = BadJson | RecordNotObject | PrevHashMismatch | HashMismatch

  /** What the verifier carries from line to line, and reports at the end. */
  datatype Report = Report(previous: Option<string>, head: Option<string>, count: nat, errors: seq<(nat, Reason)>)

  // ----- sealing -----

  function Canonical(p: Payload): Payload {
    p - {"audit_hash"}
  }

  function HashOf(h: Digest, p: Payload): string {
    h(Canonical(p))
  }

  function AsJson(s: Option<string>): Json {
    if s.None? then Null else Text(s.value)
  }

  function Get(p: Payload, k: string): Json {
    if k in p then p[k] else Null
  }

  function Sealed(h: Digest, p: Payload, previous: Option<string>): Payload {
    var marked := p["audit_chain_version" := Other(1)]["audit_hash_algorithm" := Text("sha256")]
                   ["audit_prev_hash" := AsJson(previous)];
    marked["audit_hash" := Text(HashOf(h, marked))]
  }

  /** The hash a record is known by: its stored one, or its own digest when none is stored. */
  function KnownHash(h: Digest, p: Payload): string {
    match Get(p, "audit_hash")
    case Text(s) => if s != "" then s else HashOf(h, p)
    case _ => HashOf(h, p)
  }

  datatype Read = Hash(value: Option<string>) | Unreadable

  /** The last line that is not blank. */
  function LastLine(lines: seq<Line>): (r: Option<Line>)
    ensures r.Some? ==> r.value in lines && !r.value.Blank?
    ensures r.None? <==> forall l :: l in lines ==> l.Blank?
  {
    if lines == [] then None
    else
      assert lines == lines[..|lines| - 1] + [lines[|lines| - 1]];
      if !lines[|lines| - 1].Blank? then Some(lines[|lines| - 1]) else LastLine(lines[..|lines| - 1])
  }

  function LastHash(h: Digest, lines: seq<Line>): Read {
    var last := LastLine(lines);
    if last.None? then Hash(None)
    else if last.value.Record? then Hash(Some(KnownHash(h, last.value.payload)))
    else Unreadable
  }

  // ----- verification -----

  function Checked(h: Digest, r: Report, line: Line, number: nat): Report {
    match line
    case Blank => r
    case InvalidJson => r.(errors := r.errors + [(number, BadJson)])
    case NotObject => r.(errors := r.errors + [(number, RecordNotObject)])
    case Record(p) =>
      var bad := (if Get(p, "audit_prev_hash") != AsJson(r.previous) then [(number, PrevHashMismatch)] else [])
               + (if Get(p, "audit_hash") != Text(HashOf(h, p)) then [(number, HashMismatch)] else []);
      Report(Some(KnownHash(h, p)), Some(KnownHash(h, p)), r.count + 1, r.errors + bad)
  }

  function Verified(h: Digest, lines: seq<Line>): Report {
    if lines == [] then Report(None, None, 0, [])
    else Checked(h, Verified(h, lines[..|lines| - 1]), lines[|lines| - 1], |lines|)
  }

  class AuditLog {
    var lines: seq<Line>
    const digest: Digest
    const failClosed: bool

    constructor (digest: Digest, failClosed: bool)
      ensures lines == [] && this.digest == digest && this.failClosed == failClosed
    {
      this.digest, this.failClosed, lines := digest, failClosed, [];
    }

    method LastAuditHash() returns (r: Read)
      ensures r == LastHash(digest, lines)
    {
      var last: Option<Line> := None;
      for i := 0 to |lines|
        invariant last == LastLine(lines[..i])
      {
        assert lines[..i + 1][..i] == lines[..i];
        if !lines[i].Blank? {
          last := Some(lines[i]);
        }
      }
      assert lines[..|lines|] == lines;
      if last.None? {
        return Hash(None);
      }
      if !last.value.Record? {
        return Unreadable;
      }
      r := Hash(Some(KnownHash(digest, last.value.payload)));
    }

    /** An unreadable tail refuses the event when failing closed; otherwise the event starts a new chain. */
    method AuditEvent(payload: Payload) returns (written: bool)
      modifies this
      ensures written == !(failClosed && LastHash(digest, old(lines)) == Unreadable)
      ensures lines == if written then Appended(digest, old(lines), payload) else old(lines)
    {
      var previous := LastAuditHash();
      if previous.Unreadable? && failClosed {
        return false;
      }
      var link := if previous.Unreadable? then None else previous.value;
      lines := lines + [Record(Sealed(digest, payload, link))];
      written := true;
    }

    method VerifyAuditChain() returns (r: Report)
      ensures r == Verified(digest, lines)
    {
      var previous, head, count := None, None, 0;
      var errors: seq<(nat, Reason)> := [];
      for i := 0 to |lines|
        invariant Report(previous, head, count, errors) == Verified(digest, lines[..i])
      {
        assert lines[..i + 1][..i] == lines[..i];
        match lines[i]
        case Blank =>
        case InvalidJson =>
          errors := errors + [(i + 1, BadJson)];
        case NotObject =>
          errors := errors + [(i + 1, RecordNotObject)];
        case Record(p) =>
          count := count + 1;
          ghost var before := errors;
          if Get(p, "audit_prev_hash") != AsJson(previous) {
            errors := errors + [(i + 1, PrevHashMismatch)];
          }
          if Get(p, "audit_hash") != Text(HashOf(digest, p)) {
            errors := errors + [(i + 1, HashMismatch)];
          }
          assert errors == before
            + ((if Get(p, "audit_prev_hash") != AsJson(previous) then [(i + 1, PrevHashMismatch)] else [])
             + (if Get(p, "audit_hash") != Text(HashOf(digest, p)) then [(i + 1, HashMismatch)] else []));
          previous := Some(KnownHash(digest, p));
          head := previous;
      }
      assert lines[..|lines|] == lines;
      r := Report(previous, head, count, errors);
    }
  }

  function Appended(h: Digest, lines: seq<Line>, payload: Payload): seq<Line> {
    var last := LastHash(h, lines);
    lines + [Record(Sealed(h, payload, if last.Unreadable? then None else last.value))]
  }

  // ----- what verification means -----

  /** The records of a log, in order. */
  function Records(lines: seq<Line>): seq<Payload> {
    if lines == [] then []
    else
      var rest, last := Records(lines[..|lines| - 1]), lines[|lines| - 1];
      if last.Record? then rest + [last.payload] else rest
  }

  /** The record before position i, as the link of record i must name it. */
  function LinkTo(h: Digest, rs: seq<Payload>, i: nat): Option<string>
    requires i <= |rs|
  {
    if i == 0 then None else Some(HashOf(h, rs[i - 1]))
  }

  /** Every record carries its own digest and the digest of the record before it. */
  ghost predicate Linked(h: Digest, rs: seq<Payload>) {
    forall i :: 0 <= i < |rs| ==> Good(h, rs, i)
  }

  ghost predicate Good(h: Digest, rs: seq<Payload>, i: nat)
    requires i < |rs|
  {
    Get(rs[i], "audit_hash") == Text(HashOf(h, rs[i])) && Get(rs[i], "audit_prev_hash") == AsJson(LinkTo(h, rs, i))
  }

  predicate Readable(lines: seq<Line>) {
    forall l :: l in lines ==> l.Blank? || l.Record?
  }

  /** No digest is the empty string. */
  ghost predicate NeverEmpty(h: Digest) {
    forall p: Payload :: h(p) != ""
  }

  lemma GoodPrefix(h: Digest, rs: seq<Payload>, p: Payload)
    ensures Linked(h, rs + [p]) <==> Linked(h, rs) && Good(h, rs + [p], |rs|)
  {
    forall i | 0 <= i < |rs| ensures Good(h, rs + [p], i) <==> Good(h, rs, i) {
      assert (rs + [p])[i] == rs[i];
      assert LinkTo(h, rs + [p], i) == LinkTo(h, rs, i);
    }
    if Linked(h, rs + [p]) {
      assert forall i :: 0 <= i < |rs| ==> Good(h, rs + [p], i);
    }
  }

  /** The verifier accepts a log exactly when every line that is not blank is a record and the
      records are linked; it then reports how many there are and the digest of the last. */
  lemma {:induction false} VerifyIff(h: Digest, lines: seq<Line>)
    requires NeverEmpty(h)
    ensures Verified(h, lines).errors == [] <==> Readable(lines) && Linked(h, Records(lines))
    ensures Verified(h, lines).count == |Records(lines)|
    ensures Verified(h, lines).errors == [] ==>
              var rs := Records(lines);
              Verified(h, lines).head == LinkTo(h, rs, |rs|) && Verified(h, lines).previous == LinkTo(h, rs, |rs|)
  {
    if lines != [] {
      var n := |lines| - 1;
      var init, last := lines[..n], lines[n];
      VerifyIff(h, init);
      assert lines == init + [last];
      assert Readable(lines) <==> Readable(init) && (last.Blank? || last.Record?);
      if last.Record? {
        RecordStep(h, init, last.payload, |lines|);
      }
    }
  }

  lemma RecordStep(h: Digest, init: seq<Line>, p: Payload, number: nat)
    requires NeverEmpty(h)
    requires Verified(h, init).errors == [] ==> Verified(h, init).previous == LinkTo(h, Records(init), |Records(init)|)
    requires Verified(h, init).errors == [] <==> Readable(init) && Linked(h, Records(init))
    ensures var r, rs := Checked(h, Verified(h, init), Record(p), number), Records(init) + [p];
            && (r.errors == [] <==> Readable(init) && Linked(h, rs))
            && (r.errors == [] ==> r.head == LinkTo(h, rs, |rs|) && r.previous == r.head)
  {
    GoodPrefix(h, Records(init), p);
    var rs := Records(init);
    assert LinkTo(h, rs + [p], |rs|) == LinkTo(h, rs, |rs|);
    assert HashOf(h, p) != "";
  }

  // ----- appending -----

  lemma SealedGood(h: Digest, p: Payload, previous: Option<string>)
    ensures Get(Sealed(h, p, previous), "audit_hash") == Text(HashOf(h, Sealed(h, p, previous)))
    ensures Get(Sealed(h, p, previous), "audit_prev_hash") == AsJson(previous)
  {
    var marked := p["audit_chain_version" := Other(1)]["audit_hash_algorithm" := Text("sha256")]
                   ["audit_prev_hash" := AsJson(previous)];
    assert Canonical(Sealed(h, p, previous)) == Canonical(marked);
  }

  lemma {:induction false} LastRecord(lines: seq<Line>)
    requires Readable(lines)
    ensures Records(lines) == [] <==> LastLine(lines).None?
    ensures Records(lines) != [] ==> LastLine(lines) == Some(Record(Records(lines)[|Records(lines)| - 1]))
  {
    if lines != [] {
      assert lines[|lines| - 1] in lines;
      assert Readable(lines[..|lines| - 1]);
      LastRecord(lines[..|lines| - 1]);
    }
  }

  /** A sealed append is accepted exactly when the log was accepted before; the chain never heals nor
      breaks by appending. */
  lemma AppendVerifies(h: Digest, lines: seq<Line>, p: Payload)
    requires NeverEmpty(h)
    ensures Verified(h, Appended(h, lines, p)).errors == [] <==> Verified(h, lines).errors == []
    ensures Verified(h, Appended(h, lines, p)).count == Verified(h, lines).count + 1
  {
    var next := Appended(h, lines, p);
    assert next[..|next| - 1] == lines;
    if Verified(h, lines).errors == [] {
      VerifyIff(h, lines);
      LastRecord(lines);
      var rs := Records(lines);
      if rs != [] {
        assert Good(h, rs, |rs| - 1);
        assert HashOf(h, rs[|rs| - 1]) != "";
      }
      SealedGood(h, p, LinkTo(h, rs, |rs|));
    }
  }

  function Written(h: Digest, payloads: seq<Payload>): seq<Line> {
    if payloads == [] then [] else Appended(h, Written(h, payloads[..|payloads| - 1]), payloads[|payloads| - 1])
  }

  /** A log built only by sealed appends always verifies, and counts every event. */
  lemma {:induction false} WrittenVerifies(h: Digest, payloads: seq<Payload>)
    requires NeverEmpty(h)
    ensures Verified(h, Written(h, payloads)).errors == []
    ensures Verified(h, Written(h, payloads)).count == |payloads|
  {
    if payloads != [] {
      WrittenVerifies(h, payloads[..|payloads| - 1]);
      AppendVerifies(h, Written(h, payloads[..|payloads| - 1]), payloads[|payloads| - 1]);
    }
  }

  // ----- tampering -----

  ghost predicate Injective(h: Digest) {
    forall p: Payload, q: Payload :: h(p) == h(q) ==> p == q
  }

  lemma SameRecord(h: Digest, p: Payload, q: Payload)
    requires Injective(h) && HashOf(h, p) == HashOf(h, q)
    requires Get(p, "audit_hash") == Text(HashOf(h, p)) && Get(q, "audit_hash") == Text(HashOf(h, q))
    ensures p == q
  {
    assert Canonical(p) == Canonical(q);
    assert p == Canonical(p)["audit_hash" := Text(HashOf(h, p))];
    assert q == Canonical(q)["audit_hash" := Text(HashOf(h, q))];
  }

  lemma {:induction false} SameRecords(h: Digest, a: seq<Payload>, b: seq<Payload>)
    requires Injective(h) && Linked(h, a) && Linked(h, b)
    requires LinkTo(h, a, |a|) == LinkTo(h, b, |b|)
    ensures a == b
  {
    if a != [] {
      var m, n := |a| - 1, |b| - 1;
      assert Good(h, a, m) && Good(h, b, n);
      SameRecord(h, a[m], b[n]);
      assert a == a[..m] + [a[m]] && b == b[..n] + [b[n]];
      GoodPrefix(h, a[..m], a[m]);
      GoodPrefix(h, b[..n], b[n]);
      assert LinkTo(h, a, m) == LinkTo(h, a[..m], m) && LinkTo(h, b, n) == LinkTo(h, b[..n], n);
      SameRecords(h, a[..m], b[..n]);
    }
  }

  /** With a collision-free digest the head determines the log: two accepted logs with the same head
      hold the same records. So no record can be changed, removed, inserted or reordered unnoticed. */
  lemma HeadDeterminesLog(h: Digest, a: seq<Line>, b: seq<Line>)
    requires Injective(h) && NeverEmpty(h)
    requires Verified(h, a).errors == [] && Verified(h, b).errors == [] && Verified(h, a).head == Verified(h, b).head
    ensures Records(a) == Records(b)
  {
    VerifyIff(h, a);
    VerifyIff(h, b);
    SameRecords(h, Records(a), Records(b));
  }
}
