/**
 The controller (dane_controller.go): the two writers of the markers, the records the
 operator is told to publish, and the drift alarm. Keys are known by their digests.
 */
module DaneController {
  import opened Common
  import opened Retiring
  import opened Names

  type Host = string
  type Digest = string

  datatype Note = Current | StagedNext | KeepUntil(retireAfter: int)

  datatype Record = Record(host: Host, cert: Digest, note: Note)

  datatype Records = Records(value: seq<Record>) | Failed

  /** A TLSA record as found in DNS. */
  datatype Published = Published(usage: int, selector: int, matching: int, cert: Digest)

  predicate IsSpki(rr: Published) {
    rr.usage == 3 && rr.selector == 1 && rr.matching == 1
  }

  /** The digests of the published "3 1 1" records. */
  ghost function SpkiDigests(rrs: seq<Published>): set<Digest> {
    set i | 0 <= i < |rrs| && IsSpki(rrs[i]) :: rrs[i].cert
  }

  /** The digests recordsForHost lists, as they are before NewSPKIRecord lower-cases them. */
  function Desired(live: Digest, next: Option<Digest>, recs: seq<Marker>, now: int): seq<Digest> {
    [live] + (if next.Some? && next.value != live then [next.value] else [])
    + Digests(Keep(recs, Listable(live, next, now)))
  }

  function Listable(live: Digest, next: Option<Digest>, now: int): Marker -> bool {
    (m: Marker) => !Expired(m, now) && m.digest != live && Some(m.digest) != next
  }

  function Digests(recs: seq<Marker>): (r: seq<Digest>)
    ensures |r| == |recs| && forall i :: 0 <= i < |recs| ==> r[i] == recs[i].digest
  {
    seq(|recs|, i requires 0 <= i < |recs| => recs[i].digest)
  }

  predicate NoDuplicates(ds: seq<Digest>) {
    forall i, j :: 0 <= i < j < |ds| ==> ds[i] != ds[j]
  }

  /**
   The list is, without duplicates, exactly the live digest, the staged one and every
   retiring digest whose soak has not elapsed.
   */
  lemma {:induction false} DesiredIsExact(live: Digest, next: Option<Digest>, recs: seq<Marker>, now: int)
    requires Distinct(recs)
    ensures NoDuplicates(Desired(live, next, recs, now))
    ensures forall d :: d in Desired(live, next, recs, now) <==>
              d == live || next == Some(d) || exists m :: m in recs && m.digest == d && !Expired(m, now)
  {
    var p := Listable(live, next, now);
    var kept := Keep(recs, p);
    var ds := Desired(live, next, recs, now);
    KeepDistinctN(recs, |recs|, p);
    forall d ensures d in Digests(kept) <==> exists m :: m in kept && m.digest == d {
      if d in Digests(kept) {
        var i :| 0 <= i < |kept| && Digests(kept)[i] == d;
        assert kept[i] in kept;
      }
      if m :| m in kept && m.digest == d {
        var i :| 0 <= i < |kept| && kept[i] == m;
        assert Digests(kept)[i] == d;
      }
    }
    forall m: Marker ensures m in kept <==> m in recs && p(m) {
      KeepMembers(recs, p, m);
    }
    var front := [live] + (if next.Some? && next.value != live then [next.value] else []);
    assert ds == front + Digests(kept);
    forall i, j | 0 <= i < j < |ds| ensures ds[i] != ds[j] {
      if |front| <= j {
        assert ds[j] == kept[j - |front|].digest && kept[j - |front|] in kept;
        if |front| <= i {
          assert ds[i] == kept[i - |front|].digest;
        }
      }
    }
  }

  /** Which of the reads behind recordsForHost fail. */
  datatype ReadFaults = ReadFaults(live: bool, next: bool, markers: bool)

  type pos = n: nat | n > 0 witness 1

  class Controller {
    const soak: pos
    /** keys/<host> and keys/<host>.next, by digest. */
    var live: map<Host, Digest>
    var next: map<Host, Digest>
    /** dane/retiring/<host>. */
    var markers: map<Host, Document>

    constructor (soak: pos)
      ensures this.soak == soak && live == map[] && next == map[] && markers == map[]
    {
      this.soak := soak;
      live, next, markers := map[], map[], map[];
    }

    /** The markers storage holds for a host, expired ones included. */
    ghost function Stored(host: Host): seq<Marker>
      reads this
    {
      if host in markers && Parse(markers[host]).Some? then Parse(markers[host]).value else []
    }

    ghost function Staged(host: Host): Option<Digest>
      reads this
    {
      if host in next then Some(next[host]) else None
    }

    /** The digests that are desired for a host that has a key. */
    ghost function DesiredFor(host: Host, now: int): seq<Digest>
      requires host in live
      reads this
    {
      Desired(live[host], Staged(host), Stored(host), now)
    }

    static function Get<V>(objects: map<Host, V>, host: Host, fails: bool): Answer<V> {
      if fails then Unreadable else if host in objects then Found(objects[host]) else Missing
    }

    /** `retiring`: a missing object is no markers, an unparseable one too, a failed read is neither. */
    method ReadMarkers(host: Host, fails: bool) returns (r: Answer<seq<Marker>>)
      ensures r == if fails then Unreadable else Found(Stored(host))
    {
      match Get(markers, host, fails) {
        case Unreadable => r := Unreadable;
        case Missing => r := Found([]);
        case Found(doc) =>
          var parsed := ParseRetiring(doc);
          r := Found(if parsed.None? then [] else parsed.value);
      }
    }

    /** `writeRetiring`: the object goes when the list is empty. */
    method WriteMarkers(host: Host, recs: seq<Marker>, w: Write) returns (ok: bool)
      requires AllNamed(recs)
      modifies this`markers
      ensures ok <==> w.Ok?
      ensures Stored(host) == if w.Lost? then old(Stored(host)) else recs
      ensures forall h :: h != host ==> Stored(h) == old(Stored(h))
    {
      if w.Lost? {
        return false;
      }
      if |recs| == 0 {
        markers := markers - {host};
      } else {
        RoundTrip(recs);
        markers := markers[host := Marshal(recs)];
      }
      ok := w.Ok?;
    }

    lemma StoredIsNamed(host: Host)
      ensures forall m :: m in Stored(host) ==> m.digest != ""
    {
    }

    /**
     Records the live digest as retiring. A failed read writes nothing; otherwise the
     stored list becomes the intended one unless the write is lost, and success means
     the digest is on record.
     */
    method MarkRetiring(host: Host, now: int, keyFails: bool, markersFail: bool, w: Write) returns (ok: bool)
      requires forall h :: h in live ==> live[h] != ""
      modifies this`markers
      ensures ok ==> host in live && Stored(host) == Marked(old(Stored(host)), live[host], now, soak)
      ensures (keyFails || markersFail || host !in live) ==> !ok && Stored(host) == old(Stored(host))
      ensures !keyFails && !markersFail && host in live ==>
                && (ok <==> w.Ok? || Marked(old(Stored(host)), live[host], now, soak) == old(Stored(host)))
                && Stored(host) == if w.Lost? then old(Stored(host)) else Marked(old(Stored(host)), live[host], now, soak)
      ensures forall h :: h != host ==> Stored(h) == old(Stored(h))
    {
      var key := Get(live, host, keyFails);
      if !key.Found? {
        return false;
      }
      var digest := key.value;
      var existing := ReadMarkers(host, markersFail);
      if !existing.Found? {
        return false;
      }
      var kept, found := StillRetiring(existing.value, digest, now);
      if found {
        return true;
      }
      StoredIsNamed(host);
      MarkedIsNew(existing.value, digest, now, soak);
      ok := WriteMarkers(host, kept + [Marker(digest, now + soak)], w);
    }

    /** The loop of markRetiring: what has not expired, and whether the digest is among it. */
    static method StillRetiring(recs: seq<Marker>, digest: Digest, now: int) returns (kept: seq<Marker>, found: bool)
      ensures kept == Keep(recs, Unexpired(now))
      ensures found <==> HasDigest(kept, digest)
    {
      kept, found := [], false;
      for i := 0 to |recs|
        invariant kept == KeepN(recs, i, Unexpired(now))
        invariant found <==> HasDigest(kept, digest)
      {
        if Expired(recs[i], now) {
          continue;
        }
        if recs[i].digest == digest {
          found := true;
        }
        HasDigestSnoc(kept, recs[i], digest);
        kept := kept + [recs[i]];
      }
    }

    /** One host's turn of cleanupExpiredRetiring: drops what has expired and nothing else. */
    method CleanupHost(host: Host, now: int, fails: bool, w: Write) returns (dropped: bool)
      modifies this`markers
      ensures Stored(host) == CleanOutcome(old(Stored(host)), now, fails, w)
      ensures dropped <==> !fails && w.Ok? && Stored(host) != old(Stored(host))
      ensures forall h :: h != host ==> Stored(h) == old(Stored(h))
    {
      var existing := ReadMarkers(host, fails);
      if !existing.Found? || |existing.value| == 0 {
        return false;
      }
      var recs := existing.value;
      var kept, gone := [], [];
      for i := 0 to |recs|
        invariant markers == old(markers)
        invariant kept == KeepN(recs, i, Unexpired(now))
        invariant |kept| + |gone| == i
      {
        if Expired(recs[i], now) {
          gone := gone + [recs[i].digest];
        } else {
          kept := kept + [recs[i]];
        }
      }
      if |gone| == 0 {
        KeepFullN(recs, |recs|, Unexpired(now));
        return false;
      }
      StoredIsNamed(host);
      assert AllNamed(kept) by {
        assert forall i :: 0 <= i < |kept| ==> kept[i] in kept && kept[i] in recs;
      }
      dropped := WriteMarkers(host, kept, w);
    }

    /** cleanupExpiredRetiring, over every MX host. */
    method CleanupExpired(hosts: seq<Host>, now: int, fails: Host -> bool, w: Host -> Write)
      modifies this`markers
      ensures forall h :: Stored(h) ==
                if h in hosts then CleanOutcome(old(Stored(h)), now, fails(h), w(h)) else old(Stored(h))
    {
      for i := 0 to |hosts|
        invariant forall h :: Stored(h) ==
                    if h in hosts[..i] then CleanOutcome(old(Stored(h)), now, fails(h), w(h)) else old(Stored(h))
      {
        var host := hosts[i];
        CleanOutcomeTwice(old(Stored(host)), now, fails(host), w(host));
        var _ := CleanupHost(host, now, fails(host), w(host));
        assert forall h :: h in hosts[..i + 1] <==> h in hosts[..i] || h == host;
      }
      assert hosts[..|hosts|] == hosts;
    }

    /**
     `recordsForHost`: it fails exactly when a read it needs fails, a host without a key
     has no records, and otherwise the records are the desired digests in order.
     */
    method RecordsForHost(host: Host, now: int, f: ReadFaults) returns (r: Records)
      ensures r.Failed? <==> f.live || (host in live && (f.next || f.markers))
      ensures r.Records? ==> (r.value == [] <==> host !in live)
      ensures r.Records? && host in live ==> Certs(r.value) == LowerAll(DesiredFor(host, now))
      ensures r.Records? ==> forall rec :: rec in r.value ==> rec.host == host && NotedAs(rec, host, now)
    {
      var liveKey := Get(live, host, f.live);
      if liveKey.Missing? {
        return Records([]);
      } else if liveKey.Unreadable? {
        return Failed;
      }
      var liveDigest := liveKey.value;
      var records := [Record(host, Lower(liveDigest), Current)];
      var nextKey := Get(next, host, f.next);
      var nextDigest := "";
      if nextKey.Unreadable? {
        return Failed;
      } else if nextKey.Found? {
        nextDigest := nextKey.value;
        if nextDigest != liveDigest {
          records := records + [Record(host, Lower(nextDigest), StagedNext)];
        }
      }
      var retiring := ReadMarkers(host, f.markers);
      if !retiring.Found? {
        return Failed;
      }
      StoredIsNamed(host);
      var rest := RetiringRecords(host, retiring.value, liveDigest, nextDigest, now);
      NextOrNothing(retiring.value, liveDigest, nextDigest, Staged(host), now);
      ghost var front := [liveDigest] + (if Staged(host).Some? && nextDigest != liveDigest then [nextDigest] else []);
      assert Certs(records) == LowerAll(front);
      Concatenated(records, rest, front, Digests(Keep(Stored(host), Listable(liveDigest, Staged(host), now))));
      r := Records(records + rest);
    }

    /** A record says why its digest is wanted: it is live, staged, or to be kept until its marker's deadline. */
    ghost predicate NotedAs(rec: Record, host: Host, now: int)
      reads this
    {
      match rec.note
      case Current => host in live && rec.cert == Lower(live[host])
      case StagedNext => host in live && host in next && next[host] != live[host] && rec.cert == Lower(next[host])
      case KeepUntil(t) => exists m :: m in Stored(host) && !Expired(m, now) && m.retireAfter == t && rec.cert == Lower(m.digest)
    }

    /** The loop of recordsForHost over the markers. */
    static method RetiringRecords(host: Host, recs: seq<Marker>, liveDigest: Digest, nextDigest: Digest, now: int)
      returns (records: seq<Record>)
      ensures Certs(records) == LowerAll(Digests(Keep(recs, Listable(liveDigest, Some(nextDigest), now))))
      ensures forall rec :: rec in records ==>
                rec.host == host && exists m :: m in recs && !Expired(m, now) && rec == Record(host, Lower(m.digest), KeepUntil(m.retireAfter))
    {
      records := [];
      for i := 0 to |recs|
        invariant forall rec :: rec in records ==>
                    rec.host == host && exists m :: m in recs && !Expired(m, now) && rec == Record(host, Lower(m.digest), KeepUntil(m.retireAfter))
        invariant Certs(records) == LowerAll(Digests(KeepN(recs, i, Listable(liveDigest, Some(nextDigest), now))))
      {
        var rec := recs[i];
        if Expired(rec, now) || rec.digest == liveDigest || rec.digest == nextDigest {
          continue;
        }
        records := records + [Record(host, Lower(rec.digest), KeepUntil(rec.retireAfter))];
      }
    }

    /**
     `verifyPublished`: reports on exactly the hosts whose records and whose DNS answer
     are known, and true for exactly those where the published "3 1 1" set is the set of
     live, staged and still retiring digests.
     */
    method VerifyPublished(hosts: seq<Host>, now: int, f: Host -> ReadFaults, lookup: Host -> Option<seq<Published>>)
      returns (status: map<Host, bool>)
      ensures forall h :: h in status <==>
                h in hosts && h in live && f(h) == ReadFaults(false, false, false) && lookup(h).Some?
      ensures forall h :: h in status ==>
                (status[h] <==> SpkiDigests(lookup(h).value) == set d | d in DesiredFor(h, now) :: Lower(d))
    {
      status := map[];
      for i := 0 to |hosts|
        invariant forall h :: h in status <==>
                    h in hosts[..i] && h in live && f(h) == ReadFaults(false, false, false) && lookup(h).Some?
        invariant forall h :: h in status ==>
                    (status[h] <==> SpkiDigests(lookup(h).value) == set d | d in DesiredFor(h, now) :: Lower(d))
      {
        var host := hosts[i];
        assert hosts[..i + 1] == hosts[..i] + [host];
        var desired := RecordsForHost(host, now, f(host));
        if desired.Failed? || |desired.value| == 0 {
          continue;
        }
        var published := lookup(host);
        if published.None? {
          continue;
        }
        CertsAsSet(desired.value, DesiredFor(host, now));
        var ok := VerifyHost(desired.value, published.value);
        status := status[host := ok];
      }
      assert hosts[..|hosts|] == hosts;
    }
  }

  lemma {:induction false} HasDigestSnoc(recs: seq<Marker>, m: Marker, digest: string)
    ensures HasDigest(recs + [m], digest) <==> HasDigest(recs, digest) || m.digest == digest
  {
    var after := recs + [m];
    if HasDigest(recs, digest) {
      var i :| 0 <= i < |recs| && recs[i].digest == digest;
      assert after[i].digest == digest;
    }
    if m.digest == digest {
      assert after[|recs|].digest == digest;
    }
  }

  /** What one cleanup leaves when its read or its write may fail. */
  function CleanOutcome(recs: seq<Marker>, now: int, fails: bool, w: Write): seq<Marker> {
    if fails || w.Lost? then recs else Cleaned(recs, now)
  }

  lemma {:induction false} CleanOutcomeTwice(recs: seq<Marker>, now: int, fails: bool, w: Write)
    ensures CleanOutcome(CleanOutcome(recs, now, fails, w), now, fails, w) == CleanOutcome(recs, now, fails, w)
  {
    var kept := Cleaned(recs, now);
    assert forall i :: 0 <= i < |kept| ==> kept[i] in kept;
    KeepAllN(kept, |kept|, Unexpired(now));
    assert kept[..|kept|] == kept;
  }

  function Certs(records: seq<Record>): (r: seq<Digest>)
    ensures |r| == |records| && forall i :: 0 <= i < |records| ==> r[i] == records[i].cert
  {
    seq(|records|, i requires 0 <= i < |records| => records[i].cert)
  }

  function LowerAll(ds: seq<Digest>): (r: seq<Digest>)
    ensures |r| == |ds| && forall i :: 0 <= i < |ds| ==> r[i] == Lower(ds[i])
  {
    seq(|ds|, i requires 0 <= i < |ds| => Lower(ds[i]))
  }

  lemma {:induction false} Concatenated(r1: seq<Record>, r2: seq<Record>, d1: seq<Digest>, d2: seq<Digest>)
    requires Certs(r1) == LowerAll(d1) && Certs(r2) == LowerAll(d2)
    ensures Certs(r1 + r2) == LowerAll(d1 + d2)
  {
    assert |d1| == |LowerAll(d1)| == |r1|;
    forall i | 0 <= i < |r1 + r2| ensures Certs(r1 + r2)[i] == LowerAll(d1 + d2)[i] {
      if i < |r1| {
        assert Certs(r1)[i] == LowerAll(d1)[i];
      } else {
        assert Certs(r2)[i - |r1|] == LowerAll(d2)[i - |r1|];
      }
    }
  }

  /** No marker has the empty digest that stands for "nothing staged". */
  lemma {:induction false} NextOrNothing(recs: seq<Marker>, live: Digest, nextDigest: Digest, next: Option<Digest>, now: int)
    requires forall m :: m in recs ==> m.digest != ""
    requires next == Some(nextDigest) || (next == None && nextDigest == "")
    ensures Keep(recs, Listable(live, Some(nextDigest), now)) == Keep(recs, Listable(live, next, now))
  {
    KeepSameN(recs, |recs|, Listable(live, Some(nextDigest), now), Listable(live, next, now));
  }

  lemma {:induction false} KeepSameN(recs: seq<Marker>, n: nat, p: Marker -> bool, q: Marker -> bool)
    requires n <= |recs| && forall m :: m in recs ==> p(m) == q(m)
    ensures KeepN(recs, n, p) == KeepN(recs, n, q)
  {
    if n > 0 {
      KeepSameN(recs, n - 1, p, q);
      assert recs[n - 1] in recs;
    }
  }

  /** A digest that is not yet retiring changes the list. */
  lemma {:induction false} MarkedIsNew(recs: seq<Marker>, digest: string, now: int, soak: nat)
    requires !HasDigest(Keep(recs, Unexpired(now)), digest) && soak > 0
    ensures Marked(recs, digest, now, soak) != recs
  {
    var kept := Keep(recs, Unexpired(now));
    var m := Marker(digest, now + soak);
    assert m !in kept;
    KeepMembers(recs, Unexpired(now), m);
    assert (kept + [m])[|kept|] == m;
  }

  lemma {:induction false} KeepFullN(recs: seq<Marker>, n: nat, p: Marker -> bool)
    requires n <= |recs| && |KeepN(recs, n, p)| == n
    ensures KeepN(recs, n, p) == recs[..n]
  {
    if n > 0 {
      KeepFullN(recs, n - 1, p);
      assert recs[..n] == recs[..n - 1] + [recs[n - 1]];
    }
  }

  lemma {:induction false} CertsAsSet(records: seq<Record>, ds: seq<Digest>)
    requires Certs(records) == LowerAll(ds)
    ensures (set rec | rec in records :: rec.cert) == set d | d in ds :: Lower(d)
    ensures forall rec :: rec in records ==> Lower(rec.cert) == rec.cert
  {
    forall rec | rec in records ensures Lower(rec.cert) == rec.cert && exists d :: d in ds && Lower(d) == rec.cert {
      var i :| 0 <= i < |records| && records[i] == rec;
      assert Certs(records)[i] == LowerAll(ds)[i] == Lower(ds[i]);
      assert ds[i] in ds && Lower(Lower(ds[i])) == Lower(ds[i]);
    }
    forall d | d in ds ensures exists rec :: rec in records && rec.cert == Lower(d) {
      var i :| 0 <= i < |ds| && ds[i] == d;
      assert Certs(records)[i] == LowerAll(ds)[i];
      assert records[i] in records;
    }
  }

  /* ----------------------------------------------------------- drift alarm */

  /** ContainsSPKIDigest. */
  method ContainsSpkiDigest(rrs: seq<Published>, digest: Digest) returns (found: bool)
    ensures found <==> Lower(digest) in SpkiDigests(rrs)
  {
    for i := 0 to |rrs|
      invariant forall k :: 0 <= k < i && IsSpki(rrs[k]) ==> rrs[k].cert != Lower(digest)
    {
      if IsSpki(rrs[i]) && rrs[i].cert == Lower(digest) {
        return true;
      }
    }
    return false;
  }

  /**
   One host's turn of verifyPublished, with records to compare and an answer from DNS:
   true exactly when the published "3 1 1" digests are the desired ones.
   */
  method VerifyHost(desired: seq<Record>, rrs: seq<Published>) returns (ok: bool)
    requires desired != []
    requires forall rec :: rec in desired ==> Lower(rec.cert) == rec.cert
    ensures ok <==> SpkiDigests(rrs) == set rec | rec in desired :: rec.cert
  {
    ghost var want := set rec | rec in desired :: rec.cert;
    if |rrs| == 0 {
      assert desired[0] in desired;
      assert desired[0].cert in want;
      return false;
    }
    ok := true;
    var known: set<Digest> := {};
    for i := 0 to |desired|
      invariant known == set k | 0 <= k < i :: desired[k].cert
      invariant ok <==> known <= SpkiDigests(rrs)
    {
      assert desired[i] in desired;
      known := known + {desired[i].cert};
      var visible := ContainsSpkiDigest(rrs, desired[i].cert);
      if !visible {
        ok := false;
      }
    }
    assert known == want by {
      forall rec | rec in desired ensures rec.cert in known {
        var k :| 0 <= k < |desired| && desired[k] == rec;
      }
    }
    ghost var covered := ok;
    for i := 0 to |rrs|
      invariant ok <==> covered && forall k :: 0 <= k < i && IsSpki(rrs[k]) ==> rrs[k].cert in known
    {
      if IsSpki(rrs[i]) && rrs[i].cert !in known {
        ok := false;
      }
    }
    if ok {
      assert SpkiDigests(rrs) <= known;
    } else if covered {
      var k :| 0 <= k < |rrs| && IsSpki(rrs[k]) && rrs[k].cert !in known;
      assert rrs[k].cert in SpkiDigests(rrs);
    }
  }
}
