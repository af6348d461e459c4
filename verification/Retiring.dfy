/**
 Retiring markers (dane/retiring.go and the marker half of dane_controller.go): the
 digests of outgoing keys that must stay published until their soak has elapsed.
 */
module Retiring {
  import opened Common

  datatype Marker = Marker(digest: string, retireAfter: int)

  predicate Expired(m: Marker, now: int) {
    now >= m.retireAfter
  }

  /** What the object can hold: a bare record, a list of them, or neither. */
  datatype Document = Single(rec: Marker) | Listed(recs: seq<Marker>) | Unparseable

  /** The members of the first n records that satisfy p, in order. */
  function KeepN(recs: seq<Marker>, n: nat, p: Marker -> bool): (r: seq<Marker>)
    requires n <= |recs|
    ensures forall m :: m in r ==> m in recs && p(m)
    ensures |r| <= n
  {
    if n == 0 then []
    else if p(recs[n - 1]) then KeepN(recs, n - 1, p) + [recs[n - 1]]
    else KeepN(recs, n - 1, p)
  }

  function Keep(recs: seq<Marker>, p: Marker -> bool): (r: seq<Marker>)
    ensures forall m :: m in r ==> m in recs && p(m)
  {
    KeepN(recs, |recs|, p)
  }

  function Named(): Marker -> bool {
    (m: Marker) => m.digest != ""
  }

  function Unexpired(now: int): Marker -> bool {
    (m: Marker) => !Expired(m, now)
  }

  predicate AllNamed(recs: seq<Marker>) {
    forall i :: 0 <= i < |recs| ==> recs[i].digest != ""
  }

  /** No digest is listed twice. */
  predicate Distinct(recs: seq<Marker>) {
    forall i, j :: 0 <= i < j < |recs| ==> recs[i].digest != recs[j].digest
  }

  lemma {:induction false} KeepMembersN(recs: seq<Marker>, n: nat, p: Marker -> bool, k: nat)
    requires k < n <= |recs| && p(recs[k])
    ensures recs[k] in KeepN(recs, n, p)
  {
    if k < n - 1 {
      KeepMembersN(recs, n - 1, p, k);
    }
  }

  /** Keeping is exact on members. */
  lemma {:induction false} KeepMembers(recs: seq<Marker>, p: Marker -> bool, m: Marker)
    ensures m in Keep(recs, p) <==> m in recs && p(m)
  {
    if m in recs && p(m) {
      var k :| 0 <= k < |recs| && recs[k] == m;
      KeepMembersN(recs, |recs|, p, k);
    }
  }

  lemma {:induction false} KeepDistinctN(recs: seq<Marker>, n: nat, p: Marker -> bool)
    requires Distinct(recs) && n <= |recs|
    ensures Distinct(KeepN(recs, n, p))
    ensures forall i, k :: 0 <= i < |KeepN(recs, n, p)| && n <= k < |recs| ==> KeepN(recs, n, p)[i].digest != recs[k].digest
  {
    if n > 0 {
      KeepDistinctN(recs, n - 1, p);
    }
  }

  lemma {:induction false} KeepAllN(recs: seq<Marker>, n: nat, p: Marker -> bool)
    requires n <= |recs| && forall i :: 0 <= i < n ==> p(recs[i])
    ensures KeepN(recs, n, p) == recs[..n]
  {
    if n > 0 {
      KeepAllN(recs, n - 1, p);
      assert recs[..n] == recs[..n - 1] + [recs[n - 1]];
    }
  }

  /* ------------------------------------------------- reading and writing */

  /** MarshalRetiring: a single record stays a bare object. */
  function Marshal(recs: seq<Marker>): Document {
    if |recs| == 1 then Single(recs[0]) else Listed(recs)
  }

  /** ParseRetiring: both shapes are read, records without a digest are dropped. */
  function Parse(doc: Document): Option<seq<Marker>> {
    match doc
    case Unparseable => None
    case Single(rec) => Some(Keep([rec], Named()))
    case Listed(recs) => Some(Keep(recs, Named()))
  }

  /**
   What is written is what is read back if and only if every record has a digest, and a single
   one is written in the form older readers understand.
   */
  lemma {:induction false} RoundTrip(recs: seq<Marker>)
    ensures Parse(Marshal(recs)) == Some(recs) <==> AllNamed(recs)
    ensures Marshal(recs).Single? <==> |recs| == 1
  {
    var read := Keep(recs, Named());
    assert |recs| == 1 ==> [recs[0]] == recs;
    assert Parse(Marshal(recs)) == Some(read);
    if AllNamed(recs) {
      KeepAllN(recs, |recs|, Named());
      assert recs[..|recs|] == recs;
    }
    if read == recs {
      forall i | 0 <= i < |recs| ensures recs[i].digest != "" {
        assert recs[i] in read;
      }
    }
  }

  method ParseRetiring(doc: Document) returns (r: Option<seq<Marker>>)
    ensures r == Parse(doc)
    ensures r.None? <==> doc.Unparseable?
    ensures r.Some? ==> forall m :: m in r.value <==> m.digest != "" && m in (if doc.Single? then [doc.rec] else doc.recs)
  {
    if doc.Unparseable? {
      return None;
    }
    var list := if doc.Single? then [doc.rec] else doc.recs;
    var out := [];
    for i := 0 to |list|
      invariant out == KeepN(list, i, Named())
    {
      if list[i].digest != "" {
        out := out + [list[i]];
      }
    }
    forall m ensures m in out <==> m in list && m.digest != "" {
      KeepMembers(list, Named(), m);
    }
    r := Some(out);
  }

  /* -------------------------------------------- what each writer intends */

  predicate HasDigest(recs: seq<Marker>, digest: string) {
    exists i :: 0 <= i < |recs| && recs[i].digest == digest
  }

  /** The list markRetiring leaves: unchanged if the digest is already retiring. */
  function Marked(recs: seq<Marker>, digest: string, now: int, soak: nat): seq<Marker> {
    var kept := Keep(recs, Unexpired(now));
    if HasDigest(kept, digest) then recs else kept + [Marker(digest, now + soak)]
  }

  /** The list cleanupExpiredRetiring leaves. */
  function Cleaned(recs: seq<Marker>, now: int): seq<Marker> {
    Keep(recs, Unexpired(now))
  }

  /** After marking the digest is listed with a deadline still ahead. */
  lemma {:induction false} MarkedListsDigest(recs: seq<Marker>, digest: string, now: int, soak: nat)
    requires soak > 0
    ensures exists m :: m in Marked(recs, digest, now, soak) && m.digest == digest && !Expired(m, now)
  {
    var kept := Keep(recs, Unexpired(now));
    if HasDigest(kept, digest) {
      var i :| 0 <= i < |kept| && kept[i].digest == digest;
      assert kept[i] in kept;
    } else {
      var m := Marker(digest, now + soak);
      var after := kept + [m];
      assert after[|kept|] == m;
      assert m in after;
    }
  }

  /** A digest that is not retiring is given the whole soak, and one that is keeps its deadline. */
  lemma {:induction false} MarkedDeadline(recs: seq<Marker>, digest: string, now: int, soak: nat, m: Marker)
    requires m in Marked(recs, digest, now, soak) && m.digest == digest && !Expired(m, now)
    ensures (forall r :: r in recs && r.digest == digest ==> Expired(r, now)) ==> m.retireAfter == now + soak
    ensures m in recs || m.retireAfter == now + soak
  {
    var kept := Keep(recs, Unexpired(now));
    forall r | r in kept && r.digest == digest ensures r in recs && !Expired(r, now) {
    }
    if HasDigest(kept, digest) {
      var i :| 0 <= i < |kept| && kept[i].digest == digest;
      assert kept[i] in kept;
    }
  }

  /** Marking and cleaning drop exactly what has expired, and marking adds the digest alone. */
  lemma {:induction false} WritersAreExact(recs: seq<Marker>, digest: string, now: int, soak: nat, m: Marker)
    ensures m in Cleaned(recs, now) <==> m in recs && !Expired(m, now)
    ensures m.digest != digest && !Expired(m, now) ==> (m in Marked(recs, digest, now, soak) <==> m in recs)
    ensures |Cleaned(recs, now)| <= |recs|
  {
    KeepMembers(recs, Unexpired(now), m);
  }

  /* ---------------------------------------- any sequence of the two writers */

  datatype Op = Mark(digest: string, now: int) | Clean(now: int)

  /** A write that did not reach storage leaves the list as it was. */
  ghost predicate MarkerStep(soak: nat, recs: seq<Marker>, op: Op, recs': seq<Marker>) {
    || recs' == recs
    || (op.Mark? && recs' == Marked(recs, op.digest, op.now, soak))
    || (op.Clean? && recs' == Cleaned(recs, op.now))
  }

  ghost predicate IsMarkerRun(soak: nat, lists: seq<seq<Marker>>, ops: seq<Op>) {
    && |lists| == |ops| + 1
    && (forall i :: 0 <= i < |ops| ==> MarkerStep(soak, lists[i], ops[i], lists[i + 1]))
    && (forall i, j :: 0 <= i < j < |ops| ==> ops[i].now <= ops[j].now)
  }

  lemma {:induction false} StepKeepsUnexpired(soak: nat, recs: seq<Marker>, op: Op, recs': seq<Marker>, m: Marker)
    requires MarkerStep(soak, recs, op, recs') && m in recs && !Expired(m, op.now)
    ensures m in recs'
  {
    KeepMembers(recs, Unexpired(op.now), m);
  }

  lemma {:induction false} StepKeepsDistinct(soak: nat, recs: seq<Marker>, op: Op, recs': seq<Marker>)
    requires MarkerStep(soak, recs, op, recs') && Distinct(recs)
    ensures Distinct(recs')
  {
    KeepDistinctN(recs, |recs|, Unexpired(op.now));
  }

  lemma {:induction false} RunKeepsDistinct(soak: nat, lists: seq<seq<Marker>>, ops: seq<Op>, n: nat)
    requires IsMarkerRun(soak, lists, ops) && Distinct(lists[0]) && n < |lists|
    ensures Distinct(lists[n])
  {
    if n > 0 {
      RunKeepsDistinct(soak, lists, ops, n - 1);
      StepKeepsDistinct(soak, lists[n - 1], ops[n - 1], lists[n]);
    }
  }

  /**
   Over any sequence of marks and cleanups, with any of their writes lost, a marker is
   there until its deadline, and its deadline never moves.
   */
  lemma {:induction false} UnexpiredIsNeverDropped(
    soak: nat, lists: seq<seq<Marker>>, ops: seq<Op>, i: nat, j: nat, m: Marker)
    requires IsMarkerRun(soak, lists, ops) && Distinct(lists[0]) && i <= j < |lists|
    requires m in lists[i] && (forall k :: i <= k < j ==> !Expired(m, ops[k].now))
    ensures m in lists[j]
    ensures forall m' :: m' in lists[j] && m'.digest == m.digest ==> m' == m
  {
    if i < j {
      UnexpiredIsNeverDropped(soak, lists, ops, i, j - 1, m);
      StepKeepsUnexpired(soak, lists[j - 1], ops[j - 1], lists[j], m);
    }
    RunKeepsDistinct(soak, lists, ops, j);
  }
}
