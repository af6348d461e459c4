/**
 The index of on-demand certificates (ondemand.go): the leader publishes which expiry
 storage holds for each hostname, and a follower refreshes only what differs from what it
 last saw. Absent and zero are the same entry.
 */
module OnDemandIndex {
  import opened Common

  type Host = string
  type Index = map<Host, int>

  /** A stored chain. */
  datatype Chain = Chain(id: nat, notAfter: int)

  function Entry(index: Index, h: Host): int {
    if h in index then index[h] else 0
  }

  function Held(m: map<Host, Chain>, h: Host): Option<Chain> {
    if h in m then Some(m[h]) else None
  }

  /** What storage holds: the chains and the published index, if any. */
  class Storage {
    var chains: map<Host, Chain>
    var published: Option<Index>

    constructor ()
      ensures chains == map[] && published == None
    {
      chains, published := map[], None;
    }
  }

  /** changedSince offers a host: its entry differs, or there is no index to compare with. */
  predicate Offered(published: Option<Index>, index: Index, h: Host, fails: bool) {
    fails || published.None? || Entry(published.value, h) != Entry(index, h)
  }

  /** Refresh of a host succeeds. */
  predicate Loads(chains: map<Host, Chain>, h: Host, fails: bool) {
    !fails && h in chains
  }

  /** Which reads of one follower pass fail: the index, each host's chain, each host's index again. */
  datatype PassFaults = PassFaults(index: bool, refresh: Host -> bool, note: Host -> bool)

  class Node {
    const storage: Storage
    var mem: map<Host, Chain>
    /** Chains held in memory that storage has not taken. */
    var pending: set<Host>
    var index: Index
    var dirty: bool

    constructor (storage: Storage)
      ensures this.storage == storage && mem == map[] && pending == {} && index == map[] && !dirty
    {
      this.storage := storage;
      mem, pending, index, dirty := map[], {}, map[], false;
    }

    /* ---------------------------------------------------------- leader */

    /** publishIndex: the full map, and whether the published copy is now behind it. */
    method PublishIndex(w: Write) returns (ok: bool)
      modifies storage`published, this`dirty
      ensures ok <==> w.Ok?
      ensures storage.published == if w.Lost? then old(storage.published) else Some(index)
      ensures dirty <==> !w.Ok?
    {
      var snapshot: Index := map[];
      var left := index.Keys;
      while left != {}
        invariant left <= index.Keys && snapshot.Keys == index.Keys - left
        invariant forall h :: h in snapshot ==> snapshot[h] == index[h]
        invariant storage.published == old(storage.published)
        decreases left
      {
        var h :| h in left;
        snapshot := snapshot[h := index[h]];
        left := left - {h};
      }
      assert snapshot == index;
      if !w.Lost? {
        storage.published := Some(snapshot);
      }
      dirty := !w.Ok?;
      ok := w.Ok?;
    }

    /** noteIssued: the entry is recorded whether or not its publication succeeds. */
    method NoteIssued(host: Host, notAfter: int, w: Write) returns (ok: bool)
      modifies storage`published, this`index, this`dirty
      ensures index == old(index)[host := notAfter]
      ensures storage.published == if w.Lost? then old(storage.published) else Some(index)
      ensures ok <==> w.Ok?
      ensures dirty <==> !w.Ok?
    {
      index := index[host := notAfter];
      ok := PublishIndex(w);
    }

    /** republishIndexIfDirty: a publication that failed earlier is owed, and only that. */
    method RepublishIfDirty(w: Write) returns (ok: bool)
      modifies storage`published, this`dirty
      ensures !old(dirty) ==> ok && storage.published == old(storage.published) && !dirty
      ensures old(dirty) ==> ok == w.Ok? == !dirty
      ensures old(dirty) ==> storage.published == if w.Lost? then old(storage.published) else Some(index)
    {
      if !dirty {
        return true;
      }
      ok := PublishIndex(w);
    }

    /**
     recordIssued: announces what memory holds, unless storage does not have it yet. Where
     memory holds what storage does the index then describes storage, and nowhere less than
     before.
     */
    method RecordIssued(host: Host, w: Write)
      modifies storage`published, this`index, this`dirty
      ensures host in pending || host !in mem ==>
                index == old(index) && storage.published == old(storage.published)
      ensures host in mem && host !in pending ==>
                && index == old(index)[host := mem[host].notAfter]
                && storage.published == if w.Lost? then old(storage.published) else Some(index)
      ensures host in mem && host !in pending && Held(mem, host) == Held(storage.chains, host) ==>
                DescribedAt(index, storage.chains, host)
      ensures forall h :: h != host && DescribedAt(old(index), storage.chains, h) ==> DescribedAt(index, storage.chains, h)
    {
      if host in pending || host !in mem {
        return;
      }
      var _ := NoteIssued(host, mem[host].notAfter, w);
    }

    /** store: hostnames that left the allow-set are forgotten. */
    method Store(allowed: set<Host>)
      modifies this`index
      ensures forall h :: Entry(index, h) == if h in allowed then Entry(old(index), h) else 0
    {
      var left := index.Keys;
      while left != {}
        invariant left <= old(index).Keys
        invariant forall h :: h in index ==> h in old(index) && index[h] == old(index)[h]
        invariant forall h :: h in left ==> h in index
        invariant forall h :: h in old(index) && h !in left ==> (h in index <==> h in allowed)
        decreases left
      {
        var h :| h in left;
        if h !in allowed {
          index := index - {h};
        }
        left := left - {h};
      }
    }

    /* -------------------------------------------------------- follower */

    /** changedSince: the hosts, in order, whose published expiry is not the one last seen. */
    method ChangedSince(hosts: seq<Host>, fails: bool) returns (changed: seq<Host>)
      ensures forall h :: h in changed <==> h in hosts && Offered(storage.published, index, h, fails)
    {
      if fails || storage.published.None? {
        return hosts;
      }
      changed := [];
      for i := 0 to |hosts|
        invariant forall h :: h in changed <==> h in hosts[..i] && Offered(storage.published, index, h, fails)
      {
        assert hosts[..i + 1] == hosts[..i] + [hosts[i]];
        if Entry(storage.published.value, hosts[i]) != Entry(index, hosts[i]) {
          changed := changed + [hosts[i]];
        }
      }
      assert hosts[..|hosts|] == hosts;
    }

    method Refresh(host: Host, fails: bool) returns (ok: bool)
      modifies this`mem
      ensures ok <==> Loads(storage.chains, host, fails)
      ensures mem == if ok then old(mem)[host := storage.chains[host]] else old(mem)
    {
      ok := !fails && host in storage.chains;
      if ok {
        mem := mem[host := storage.chains[host]];
      }
    }

    /** noteRefreshed: adopts the published entry, read again. */
    method NoteRefreshed(host: Host, fails: bool)
      modifies this`index
      ensures index == if fails || storage.published.None? then old(index)
                       else old(index)[host := Entry(storage.published.value, host)]
    {
      if !fails && storage.published.Some? {
        index := index[host := Entry(storage.published.value, host)];
      }
    }

    /** The follower's turn of maintainOnDemand: refresh what changed, adopt what succeeded. */
    method FollowerPass(hosts: seq<Host>, f: PassFaults)
      modifies this`mem, this`index
      ensures var offered := iset h | h in hosts && Offered(storage.published, old(index), h, f.index);
              && mem == PassMemory(old(mem), storage.chains, offered, f.refresh)
              && forall h :: Entry(index, h) == Entry(PassIndex(old(index), storage.published, storage.chains, offered, f), h)
    {
      var changed := ChangedSince(hosts, f.index);
      for i := 0 to |changed|
        invariant forall h :: Held(mem, h) ==
                    if h in changed[..i] && Loads(storage.chains, h, f.refresh(h))
                    then Some(storage.chains[h]) else Held(old(mem), h)
        invariant forall h :: Entry(index, h) ==
                    if h in changed[..i] && Loads(storage.chains, h, f.refresh(h)) && !f.note(h) && storage.published.Some?
                    then Entry(storage.published.value, h) else Entry(old(index), h)
      {
        var host := changed[i];
        assert changed[..i + 1] == changed[..i] + [host];
        var ok := Refresh(host, f.refresh(host));
        if !ok {
          continue;
        }
        NoteRefreshed(host, f.note(host));
      }
      assert changed[..|changed|] == changed;
      SameMemory(mem, PassMemory(old(mem), storage.chains,
                                 (iset h | h in hosts && Offered(storage.published, old(index), h, f.index)), f.refresh));
    }
  }

  /* ------------------------------------------------------- specification */

  predicate DescribedAt(index: Index, chains: map<Host, Chain>, h: Host) {
    Entry(index, h) == if h in chains then chains[h].notAfter else 0
  }

  /** Memory after a pass in which only the offered hosts are refreshed. */
  function PassMemory(mem: map<Host, Chain>, chains: map<Host, Chain>, offered: iset<Host>, fails: Host -> bool): (r: map<Host, Chain>)
    ensures forall h :: Held(r, h) == if h in offered && Loads(chains, h, fails(h)) then Some(chains[h]) else Held(mem, h)
  {
    map h | h in mem.Keys + chains.Keys && (h in mem || (h in offered && Loads(chains, h, fails(h))))
      :: if h in offered && Loads(chains, h, fails(h)) then chains[h] else mem[h]
  }

  /** What the follower remembers having seen after such a pass. */
  function PassIndex(index: Index, published: Option<Index>, chains: map<Host, Chain>, offered: iset<Host>, f: PassFaults): (r: Index)
    ensures forall h :: Entry(r, h) ==
              if published.Some? && h in offered && Loads(chains, h, f.refresh(h)) && !f.note(h)
              then Entry(published.value, h) else Entry(index, h)
  {
    var entries := if published.Some? then published.value else map[];
    map h | h in index.Keys + entries.Keys
      :: if published.Some? && h in offered && Loads(chains, h, f.refresh(h)) && !f.note(h)
         then Entry(entries, h) else Entry(index, h)
  }

  lemma {:induction false} SameMemory(a: map<Host, Chain>, b: map<Host, Chain>)
    requires forall h :: Held(a, h) == Held(b, h)
    ensures a == b
  {
    assert forall h :: h in a ==> Held(a, h).Some? && Held(b, h) == Held(a, h);
    assert forall h :: h in b ==> Held(b, h).Some? && Held(a, h) == Held(b, h);
  }
}
