/**
 The certificate cache (cert_cache.go), the flush and restore of chains storage lost or
 never took, and the issuance decision (scheduler.go, manager.go). A chain is known by
 the key of its leaf and its expiry. Failures of storage, of the lease and of the CA are
 inputs.
 */
module CertCaches {
  import opened Common
  import opened RetryBudgets
  import opened SlidingWindow
  import opened Names
  import IssuanceLease

  type Name = string
  type Key = nat

  datatype Pem = Chain(key: Key, notAfter: int) | Garbage

  datatype Cert = Cert(key: Key, notAfter: int)

  /** buildCertificate: the chain parses and its leaf is the key's. */
  function Build(pem: Pem, key: Key): Option<Cert> {
    if pem.Chain? && pem.key == key then Some(Cert(key, pem.notAfter)) else None
  }

  class Storage {
    var chains: map<Name, Pem>
    var keys: map<Name, Key>

    constructor ()
      ensures chains == map[] && keys == map[]
    {
      chains, keys := map[], map[];
    }
  }

  function Lookup<V>(m: map<Name, V>, name: Name): Option<V> {
    if name in m then Some(m[name]) else None
  }

  /** Why Refresh did not load a certificate: absentFromStorage, or anything else. */
  datatype Refreshed = Loaded(cert: Cert) | Absent | Unusable

  /** Which of the two reads of a Refresh fail. */
  datatype ReadFaults = ReadFaults(chain: bool, key: bool)

  function RefreshOutcome(chain: Option<Pem>, key: Option<Key>, f: ReadFaults): Refreshed {
    if f.chain then Unusable
    else if chain.None? then Absent
    else if f.key then Unusable
    else if key.None? then Absent
    else
      match Build(chain.value, key.value)
      case None => Unusable
      case Some(cert) => Loaded(cert)
  }

  /** What is stored, served and held under one name. */
  type Copies = (Option<Pem>, Option<Cert>, Option<Cert>)

  /** What a refresh leaves stored, served and held. */
  function Adopted(view: Copies, look: Refreshed): Copies {
    (view.0, if look.Loaded? then Some(look.cert) else view.1, view.2)
  }

  /** What flushOne does: nothing, take what storage has, or write. */
  datatype FlushAction = Skip | Adopt | Put

  function FlushDecision(disk: Option<Pem>, p: Cert, readFails: bool): FlushAction {
    if readFails then Skip
    else if disk.Some? && disk.value.Chain? && disk.value.notAfter >= p.notAfter then Adopt
    else Put
  }

  datatype FlushFaults = FlushFaults(busy: bool, leased: bool, readFails: bool, refresh: ReadFaults, w: Write)

  /** What storage holds for the name after a flush of p. */
  function FlushedDisk(disk: Option<Pem>, p: Cert, f: FlushFaults): Option<Pem> {
    if !f.busy && f.leased && FlushDecision(disk, p, f.readFails).Put? && !f.w.Lost?
    then Some(Chain(p.key, p.notAfter)) else disk
  }

  /** A flush of p reports p stored. */
  predicate FlushStores(disk: Option<Pem>, p: Cert, f: FlushFaults) {
    !f.busy && f.leased && FlushDecision(disk, p, f.readFails).Put? && f.w.Ok?
  }

  /**
   A flush of p writes it if storage is behind it. When storage is ahead it adopts what is
   there before letting go of what is held, and keeps holding if it cannot.
   */
  function FlushedCopies(view: Copies, key: Option<Key>, p: Cert, f: FlushFaults): Copies {
    var look := RefreshOutcome(view.0, key, f.refresh);
    if !f.busy && f.leased && FlushDecision(view.0, p, f.readFails).Adopt? && look.Loaded? then (view.0, Some(look.cert), None)
    else (FlushedDisk(view.0, p, f), view.1, if FlushStores(view.0, p, f) then None else view.2)
  }

  /** Storage is at least as new as `na`. */
  predicate AtLeast(disk: Option<Pem>, na: int) {
    disk.Some? && disk.value.Chain? && disk.value.notAfter >= na
  }

  /** No flush lowers the stored expiry, or writes without having read. */
  lemma FlushIsMonotone(disk: Option<Pem>, p: Cert, f: FlushFaults)
    ensures forall na :: AtLeast(disk, na) ==> AtLeast(FlushedDisk(disk, p, f), na)
    ensures f.readFails || f.busy || !f.leased ==> FlushedDisk(disk, p, f) == disk
    ensures AtLeast(disk, p.notAfter) ==> FlushedDisk(disk, p, f) == disk
    ensures !f.readFails && !f.busy && f.leased && f.w.Ok? ==> AtLeast(FlushedDisk(disk, p, f), p.notAfter)
    ensures FlushedDisk(disk, p, f) == disk || FlushedDisk(disk, p, f) == Some(Chain(p.key, p.notAfter))
  {
  }

  /** What a flush of p leaves, spelled out by what it meets. */
  lemma {:induction false} FlushSpelledOut(view: Copies, key: Option<Key>, p: Cert, f: FlushFaults)
    ensures var after := FlushedCopies(view, key, p, f);
            var runs := !f.busy && f.leased && !f.readFails;
            var writes := runs && !AtLeast(view.0, p.notAfter);
            var loads := RefreshOutcome(view.0, key, f.refresh).Loaded?;
            && after.0 == (if writes && !f.w.Lost? then Some(Chain(p.key, p.notAfter)) else view.0)
            && (FlushStores(view.0, p, f) <==> writes && f.w.Ok?)
            && after.1 == (if runs && !writes && loads then Some(RefreshOutcome(view.0, key, f.refresh).cert) else view.1)
            && after.2 == (if (writes && f.w.Ok?) || (runs && !writes && loads) then None else view.2)
  {
  }

  class CertCache {
    const storage: Storage
    var mem: map<Name, Cert>
    var pending: map<Name, Cert>

    constructor (storage: Storage)
      ensures this.storage == storage && mem == map[] && pending == map[]
    {
      this.storage := storage;
      mem, pending := map[], map[];
    }

    /** What is stored, served and held under `name`, together. */
    ghost function View(name: Name): Copies
      reads this, storage
    {
      (Lookup(storage.chains, name), Lookup(mem, name), Lookup(pending, name))
    }

    twostate predicate OnlyTouches(name: Name)
      reads this, storage
    {
      storage.keys == old(storage.keys) && forall n :: n != name ==> View(n) == old(View(n))
    }

    /** persist: retried until a write succeeds, the attempts run out or the context ends. */
    method Persist(name: Name, pem: Pem, attempts: nat, ws: seq<Write>) returns (ok: bool)
      requires Attempts(ws, attempts)
      modifies storage`chains
      ensures ok <==> ws[|ws| - 1].Ok?
      ensures storage.chains == if Landed(ws) then old(storage.chains)[name := pem] else old(storage.chains)
    {
      ok := false;
      for i := 0 to |ws|
        invariant ok <==> i > 0 && ws[i - 1].Ok?
        invariant storage.chains ==
                  if LandedBy(ws, i) then old(storage.chains)[name := pem] else old(storage.chains)
      {
        if !ws[i].Lost? {
          storage.chains := storage.chains[name := pem];
        }
        ok := ws[i].Ok?;
      }
    }

    /**
     Store: a chain that does not build is worthless; one that builds and cannot be written
     is handed back for the caller to hold; nothing is installed on either path.
     */
    method Store(name: Name, pem: Pem, key: Key, ws: seq<Write>) returns (cert: Option<Cert>, ok: bool)
      requires Attempts(ws, PERSIST_ATTEMPTS)
      modifies this, storage`chains
      ensures cert == Build(pem, key)
      ensures ok <==> cert.Some? && ws[|ws| - 1].Ok?
      ensures View(name) ==
              (if cert.Some? && Landed(ws) then Some(pem) else old(View(name).0),
               if ok then cert else old(View(name).1),
               if ok then None else old(View(name).2))
      ensures OnlyTouches(name)
    {
      cert := Build(pem, key);
      if cert.None? {
        return None, false;
      }
      ok := Persist(name, pem, PERSIST_ATTEMPTS, ws);
      if ok {
        mem := mem[name := cert.value];
        pending := pending - {name};
      }
    }

    /** hold: serve a chain storage would not take, and remember it. */
    method Hold(name: Name, cert: Cert)
      modifies this
      ensures View(name) == (old(View(name).0), Some(cert), Some(cert))
      ensures OnlyTouches(name)
    {
      mem := mem[name := cert];
      pending := pending[name := cert];
    }

    /** heldChainFor: a held chain, if it is bound to the key the caller means to use. */
    function HeldChainFor(name: Name, key: Key): (r: Option<Cert>)
      reads this
      ensures r.Some? <==> name in pending && pending[name].key == key
      ensures r.Some? ==> r.value == pending[name]
    {
      if name in pending then Build(Chain(pending[name].key, pending[name].notAfter), key) else None
    }

    /** Refresh: memory takes what storage has, if it can be read and pairs with the stored key. */
    method Refresh(name: Name, f: ReadFaults) returns (r: Refreshed)
      modifies this`mem
      ensures r.Loaded? <==>
              && !f.chain && !f.key && name in storage.chains && name in storage.keys
              && storage.chains[name].Chain? && storage.chains[name].key == storage.keys[name]
      ensures r.Loaded? ==> r.cert == Cert(storage.keys[name], storage.chains[name].notAfter)
      ensures r.Absent? <==> !f.chain && (name !in storage.chains || (!f.key && name !in storage.keys))
      ensures r == RefreshOutcome(Lookup(storage.chains, name), Lookup(storage.keys, name), f)
      ensures View(name) == (old(View(name).0), if r.Loaded? then Some(r.cert) else old(View(name).1), old(View(name).2))
      ensures OnlyTouches(name)
    {
      if f.chain {
        return Unusable;
      }
      if name !in storage.chains {
        return Absent;
      }
      if f.key {
        return Unusable;
      }
      if name !in storage.keys {
        return Absent;
      }
      var cert := Build(storage.chains[name], storage.keys[name]);
      if cert.None? {
        return Unusable;
      }
      mem := mem[name := cert.value];
      return Loaded(cert.value);
    }

    /** flushOne. */
    method FlushOne(name: Name, p: Cert, f: FlushFaults) returns (stored: bool)
      modifies this, storage`chains
      ensures stored <==> FlushStores(old(View(name).0), p, f)
      ensures View(name) == FlushedCopies(old(View(name)), old(Lookup(storage.keys, name)), p, f)
      ensures OnlyTouches(name)
    {
      if f.busy || !f.leased {
        return false;
      }
      match FlushDecision(Lookup(storage.chains, name), p, f.readFails) {
        case Skip => return false;
        case Adopt =>
          var r := Refresh(name, f.refresh);
          if r.Loaded? {
            pending := pending - {name};
          }
          return false;
        case Put =>
      }
      var ok := Persist(name, Chain(p.key, p.notAfter), 1, [f.w]);
      assert Landed([f.w]) <==> !f.w.Lost? by {
        assert [f.w][0] == f.w;
      }
      if ok {
        pending := pending - {name};
      }
      return ok;
    }

    /**
     One name's turn of restoreMissingChains: a listing only nominates, a held chain is the
     flush's to write, and only an unexpired copy that matches the stored key goes back.
     */
    method RestoreOne(name: Name, listed: bool, now: int, keyFails: bool, f: FlushFaults) returns (stored: bool)
      modifies this, storage`chains
      ensures var restores := && !listed && name !in old(pending) && name in old(mem) && now < old(mem)[name].notAfter
                              && !keyFails && old(Lookup(storage.keys, name)) == Some(old(mem)[name].key);
              && (stored <==> restores && FlushStores(old(View(name).0), old(View(name).1.value), f))
              && View(name) == (if restores
                                then FlushedCopies(old(View(name)), old(Lookup(storage.keys, name)), old(View(name).1.value), f)
                                else old(View(name)))
      ensures stored ==> View(name).0.Some? && View(name).0.value.Chain? && Some(View(name).0.value.key) == old(Lookup(storage.keys, name))
      ensures OnlyTouches(name)
    {
      if listed || name in pending || name !in mem || now >= mem[name].notAfter || keyFails || name !in storage.keys {
        return false;
      }
      var cert := mem[name];
      if Build(Chain(cert.key, cert.notAfter), storage.keys[name]).None? {
        return false;
      }
      stored := FlushOne(name, cert, f);
    }
  }

  /* ------------------------------------------------------------ the decision */

  /** Whether issueWithKey calls the CA after its look at storage under the lease. */
  function GoesToCA(r: Refreshed, force: bool, now: int, renewBefore: nat): bool {
    force || r.Absent? || (r.Loaded? && r.cert.notAfter - now <= renewBefore)
  }

  /** The same decision as the one the cluster's runs are proved about. */
  lemma DecisionAgrees(chain: Option<Pem>, key: Option<Key>, f: ReadFaults, now: int, renewBefore: nat)
    ensures GoesToCA(RefreshOutcome(chain, key, f), false, now, renewBefore) <==>
            IssuanceLease.Decide(
              if f.chain then Unreadable
              else match chain
                   case None => Missing
                   case Some(Garbage) => Found(IssuanceLease.Garbage)
                   case Some(Chain(k, na)) => Found(IssuanceLease.Stored.Chain(k, na)),
              if f.key then Unreadable
              else if key.None? then Missing else Found(key.value),
              now, renewBefore).PlaceOrder?
  {
  }

  /** The first look of renewIfNeeded goes on: nothing fresh in memory, and storage's answer is definite. */
  predicate Looks(view: Copies, key: Option<Key>, f: ReadFaults, now: int, renewBefore: nat) {
    if view.1.Some? then view.1.value.notAfter - now <= renewBefore
    else
      match RefreshOutcome(view.0, key, f)
      case Loaded(cert) => cert.notAfter - now <= renewBefore
      case Absent => true
      case Unusable => false
  }

  /** With something in memory the first look reads nothing. */
  lemma {:induction false} LooksIgnoresFaults(view: Copies, key: Option<Key>, f: ReadFaults, now: int, renewBefore: nat)
    requires view.1.Some?
    ensures Looks(view, key, f, now, renewBefore) == Looks(view, key, ReadFaults(false, false), now, renewBefore)
  {
  }

  datatype CaAnswer = CaFails(rateLimit: Option<int>) | CaReturns(pem: Pem)

  /** Everything issueWithKey meets on the way: clock readings, lease, reads, CA, writes. */
  datatype Encounter = Encounter(
    asked: (int, int, int), leased: bool, refresh: ReadFaults, now: int,
    issuerFails: bool, ca: CaAnswer, ws: seq<Write>, charged: (int, int))

  datatype Issued = Refused | Served(cert: Cert) | NotPersisted(cert: Cert) | Failed

  /** How the attempt ends once it goes to the CA. */
  function PaidOutcome(key: Key, e: Encounter): Issued
    requires |e.ws| > 0
  {
    if e.issuerFails || e.ca.CaFails? || Build(e.ca.pem, key).None? then Failed
    else if e.ws[|e.ws| - 1].Ok? then Served(Build(e.ca.pem, key).value)
    else NotPersisted(Build(e.ca.pem, key).value)
  }

  /** What is then stored, served and held. */
  function PaidView(view: Copies, key: Key, e: Encounter): Copies
    requires |e.ws| > 0
  {
    match PaidOutcome(key, e)
    case Served(cert) => (Some(e.ca.pem), Some(cert), None)
    case NotPersisted(cert) => (if Landed(e.ws) then Some(e.ca.pem) else view.0, Some(cert), Some(cert))
    case _ => view
  }

  /** What the attempt then costs the hostname's budget. */
  function Billed(a: Account, r: Issued, e: Encounter): Account {
    if r.Served? then Account([], None)
    else
      var charged := Charged(a, e.charged.0, e.charged.1);
      if !e.issuerFails && e.ca.CaFails? && e.ca.rateLimit.Some? then charged.(blocked := e.ca.rateLimit) else charged
  }

  /**
   The outcomes, spelled out. A forced attempt goes to the CA whatever storage says, an
   unforced one over nothing or over a chain of the stored key in its window. A failure is
   one more in the window and leaves a block alone unless the CA names one; a success clears
   the account.
   */
  lemma {:induction false} DecisionSpelledOut(chain: Option<Pem>, key: Option<Key>, f: ReadFaults, force: bool, now: int, renewBefore: nat)
    ensures GoesToCA(RefreshOutcome(chain, key, f), force, now, renewBefore) <==>
            || force
            || (!f.chain && (chain.None? || (!f.key && key.None?)))
            || (&& !f.chain && !f.key && chain.Some? && key.Some? && chain.value.Chain?
                && chain.value.key == key.value && chain.value.notAfter - now <= renewBefore)
  {
  }

  lemma {:induction false} BillSpelledOut(a: Account, key: Key, e: Encounter)
    requires |e.ws| > 0
    ensures var r := PaidOutcome(key, e);
            var bill := Billed(a, r, e);
            && (r.Served? <==> !e.issuerFails && e.ca.CaReturns? && e.ca.pem.Chain? && e.ca.pem.key == key && Last(e.ws).Ok?)
            && (r.NotPersisted? <==> !e.issuerFails && e.ca.CaReturns? && e.ca.pem.Chain? && e.ca.pem.key == key && !Last(e.ws).Ok?)
            && !r.Refused?
            && (r.Served? || r.NotPersisted? ==> r.cert == Cert(key, e.ca.pem.notAfter))
            && (r.Served? ==> bill == Account([], None))
            && (!r.Served? ==> bill.failures == After(a.failures, e.charged.0 - WINDOW) + [e.charged.1])
            && (!r.Served? && !e.issuerFails && e.ca.CaFails? && e.ca.rateLimit.Some? ==> bill.blocked == e.ca.rateLimit)
            && (!r.Served? && !(!e.issuerFails && e.ca.CaFails? && e.ca.rateLimit.Some?) ==> bill.blocked == a.blocked)
  {
  }

  /** What memory served before has no part in what is stored and held after. */
  lemma PaidViewIgnoresMemory(view: Copies, other: Copies, key: Key, e: Encounter)
    requires |e.ws| > 0 && view.0 == other.0 && view.2 == other.2
    ensures PaidView(view, key, e).0 == PaidView(other, key, e).0 && PaidView(view, key, e).2 == PaidView(other, key, e).2
  {
  }

  /** A chain that was paid for is served, and stored, or held for the next flush; nothing else changes a copy. */
  lemma PaidIsStoredOrHeld(view: Copies, key: Key, e: Encounter)
    requires Attempts(e.ws, PERSIST_ATTEMPTS)
    ensures var after := PaidView(view, key, e);
            if !e.issuerFails && e.ca.CaReturns? && Build(e.ca.pem, key).Some? then
              && after.1 == Build(e.ca.pem, key)
              && after.0 == (if Landed(e.ws) then Some(e.ca.pem) else view.0)
              && after.2 == (if Last(e.ws).Ok? then None else Build(e.ca.pem, key))
            else after == view
  {
    if Last(e.ws).Ok? {
      assert Landed(e.ws);
    }
  }

  /** Nothing keeps a renewal that is due from the CA. */
  predicate Unhindered(busy: bool, gated: bool, keyFails: bool, e: Encounter) {
    !busy && !gated && !keyFails && e.leased && !e.issuerFails && e.refresh == ReadFaults(false, false)
  }

  /** A chain of the stored key, in its window. */
  predicate InWindow(stored: Option<Pem>, key: Option<Key>, now: int, renewBefore: nat) {
    && stored.Some? && stored.value.Chain? && key == Some(stored.value.key)
    && stored.value.notAfter - now <= renewBefore
  }

  /**
   When both looks of a renewal call for an order, spelled out: memory, if it has anything, is
   in its window, and storage has nothing, or a chain of the stored key in its window.
   */
  lemma {:induction false} DueSpelledOut(view: Copies, key: Option<Key>, minted: Key, first: ReadFaults, now: int, renewBefore: nat)
    requires first == ReadFaults(false, false)
    requires view.0.Some? && view.0.value.Chain? ==> minted != view.0.value.key
    ensures var key' := Some(if key.Some? then key.value else minted);
            Looks(view, key, first, now, renewBefore) && GoesToCA(RefreshOutcome(view.0, key', first), false, now, renewBefore)
            <==>
            && (view.1.Some? ==> view.1.value.notAfter - now <= renewBefore)
            && (view.0.None? || InWindow(view.0, key, now, renewBefore))
  {
  }

  class Manager {
    const cache: CertCache
    const retries: RetryBudget
    const renewBefore: nat

    constructor (cache: CertCache, retries: RetryBudget, renewBefore: nat)
      ensures this.cache == cache && this.retries == retries && this.renewBefore == renewBefore
    {
      this.cache, this.retries, this.renewBefore := cache, retries, renewBefore;
    }

    /** The budget's answer, and the account it leaves. */
    ghost function Asked(name: Name, e: Encounter): Reply
      requires retries.max > 0
      reads retries
    {
      Allowed(retries.max, retries.AccountOf(BudgetKey(name)), e.asked.0, e.asked.1, e.asked.2)
    }

    /** What Refresh makes of storage as it is. */
    ghost function Look(name: Name, e: Encounter): Refreshed
      reads cache, cache.storage
    {
      RefreshOutcome(cache.View(name).0, Lookup(cache.storage.keys, name), e.refresh)
    }

    /**
     The part of issueWithKey from the CA on. A chain the CA returns that builds is stored or
     held, never lost; a failure is charged to the budget, a success clears it, and a rate
     limit blocks.
     */
    method OrderAndStore(name: Name, key: Key, e: Encounter) returns (r: Issued)
      requires Attempts(e.ws, PERSIST_ATTEMPTS)
      modifies cache, cache.storage`chains, retries
      ensures r == PaidOutcome(key, e)
      ensures cache.View(name) == PaidView(old(cache.View(name)), key, e)
      ensures retries.AccountOf(BudgetKey(name)) == Billed(old(retries.AccountOf(BudgetKey(name))), r, e)
      ensures cache.OnlyTouches(name) && retries.OnlyTouches(BudgetKey(name))
    {
      if e.issuerFails {
        retries.RecordFailure(name, e.charged.0, e.charged.1);
        return Failed;
      }
      if e.ca.CaFails? {
        retries.RecordFailure(name, e.charged.0, e.charged.1);
        if e.ca.rateLimit.Some? {
          retries.Block(name, e.ca.rateLimit.value);
        }
        return Failed;
      }
      var cert, ok := cache.Store(name, e.ca.pem, key, e.ws);
      if !ok {
        retries.RecordFailure(name, e.charged.0, e.charged.1);
        if cert.None? {
          return Failed;
        }
        cache.Hold(name, cert.value);
        return NotPersisted(cert.value);
      }
      retries.Reset(name);
      return Served(cert.value);
    }

    /**
     issueWithKey. It goes on to the CA exactly when the budget allows it, the lease is held
     and the look at storage under the lease calls for an order, whatever fails then; if not,
     nothing is written and nothing charged, and an unforced call serves what storage has.
     */
    method IssueWithKey(name: Name, key: Key, force: bool, e: Encounter) returns (r: Issued, ordered: bool)
      requires retries.max > 0 && Attempts(e.ws, PERSIST_ATTEMPTS)
      modifies cache, cache.storage`chains, retries
      ensures var goes := old(Asked(name, e).verdict.Yes?) && e.leased && GoesToCA(old(Look(name, e)), force, e.now, renewBefore);
              var view := if old(Asked(name, e).verdict.Yes?) then Adopted(old(cache.View(name)), old(Look(name, e))) else old(cache.View(name));
              var account := old(Asked(name, e).account);
              && (ordered <==> goes && !e.issuerFails)
              && r == (if goes then PaidOutcome(key, e)
                       else if old(Asked(name, e).verdict.Yes?) && old(Look(name, e)).Loaded? && !force then Served(old(Look(name, e)).cert)
                       else Refused)
              && cache.View(name) == (if goes then PaidView(view, key, e) else view)
              && retries.AccountOf(BudgetKey(name)) == (if goes then Billed(account, r, e) else account)
      ensures var paid := if ordered then PaidView(old(cache.View(name)), key, e) else old(cache.View(name));
              cache.View(name).0 == paid.0 && cache.View(name).2 == paid.2
      ensures force && r.Served? ==> ordered
      ensures cache.OnlyTouches(name) && retries.OnlyTouches(BudgetKey(name))
    {
      var wait, allowed := retries.Allow(name, e.asked.0, e.asked.1, e.asked.2);
      if !allowed {
        return Refused, false;
      }
      var look := cache.Refresh(name, e.refresh);
      if !e.leased {
        if look.Loaded? && !force {
          return Served(look.cert), false;
        }
        return Refused, false;
      }
      if look.Loaded? && !force {
        if look.cert.notAfter - e.now > renewBefore {
          return Served(look.cert), false;
        }
      } else if !look.Loaded? && !force && !look.Absent? {
        return Refused, false;
      }
      r := OrderAndStore(name, key, e);
      ordered := !e.issuerFails;
    }

    /**
     flushHeldChains: every name held when the pass began is flushed once, and a name whose
     chain was stored gets its retry budget back. A pass cut short finds the rest busy.
     */
    method FlushHeldChains(faults: Name -> FlushFaults) returns (stored: set<Name>)
      modifies cache, cache.storage`chains, retries
      ensures forall n :: cache.View(n) ==
                if n in old(cache.pending)
                then FlushedCopies(old(cache.View(n)), old(Lookup(cache.storage.keys, n)), old(cache.pending)[n], faults(n))
                else old(cache.View(n))
      ensures forall n :: n in stored <==>
                n in old(cache.pending) && FlushStores(old(cache.View(n)).0, old(cache.pending)[n], faults(n))
      ensures forall key :: retries.AccountOf(key) ==
                if exists n :: n in stored && BudgetKey(n) == key then Account([], None) else old(retries.AccountOf(key))
    {
      hide FlushedCopies, FlushStores, BudgetKey, Lookup;
      var held := cache.pending;
      var left := held.Keys;
      stored := {};
      while left != {}
        invariant left <= held.Keys && held == old(cache.pending) && cache.storage.keys == old(cache.storage.keys)
        invariant forall n :: n in left || n !in held ==> cache.View(n) == old(cache.View(n))
        invariant forall n :: n in held && n !in left ==>
                    cache.View(n) == FlushedCopies(old(cache.View(n)), Lookup(cache.storage.keys, n), held[n], faults(n))
        invariant forall n :: n in stored <==> n in held && n !in left && FlushStores(old(cache.View(n)).0, held[n], faults(n))
        invariant forall key :: retries.AccountOf(key) ==
                    if exists n :: n in stored && BudgetKey(n) == key then Account([], None) else old(retries.AccountOf(key))
        decreases left
      {
        var n :| n in left;
        label before:
        var ok := cache.FlushOne(n, held[n], faults(n));
        assert forall k :: k != n ==> cache.View(k) == old@before(cache.View(k));
        left := left - {n};
        if ok {
          retries.Reset(n);
          stored := stored + {n};
        }
      }
    }

    /** The first look of renewIfNeeded: memory, or failing that storage. */
    method FirstLook(name: Name, first: ReadFaults, now: int) returns (due: bool)
      modifies cache`mem
      ensures due <==> Looks(old(cache.View(name)), Lookup(cache.storage.keys, name), first, now, renewBefore)
      ensures cache.View(name).0 == old(cache.View(name).0) && cache.View(name).2 == old(cache.View(name).2)
      ensures cache.OnlyTouches(name)
    {
      if name !in cache.mem {
        var look := cache.Refresh(name, first);
        if look.Unusable? {
          return false;
        }
      }
      return !(name in cache.mem && cache.mem[name].notAfter - now > renewBefore);
    }

    /**
     renewIfNeeded. It orders only for a name storage definitely has no chain for, or whose
     stored chain is the stored key's and inside the renewal window: a chain that cannot be
     read, does not parse, is bound to another key or has lost its key is never ordered over.
     */
    method RenewIfNeeded(name: Name, first: ReadFaults, busy: bool, gated: bool, keyFails: bool, minted: Key, e: Encounter)
      returns (ordered: bool)
      requires retries.max > 0 && Attempts(e.ws, PERSIST_ATTEMPTS)
      requires name in cache.storage.chains && cache.storage.chains[name].Chain? ==> minted != cache.storage.chains[name].key
      modifies cache, cache.storage, retries
      ensures ordered <==>
              && Looks(old(cache.View(name)), old(Lookup(cache.storage.keys, name)), first, e.now, renewBefore)
              && !busy && !gated && !keyFails && e.leased && !e.issuerFails
              && Allowed(retries.max, old(retries.AccountOf(BudgetKey(name))), e.asked.0, e.asked.1, e.asked.2).verdict.Yes?
              && GoesToCA(RefreshOutcome(old(cache.View(name).0),
                                         Some(if name in old(cache.storage.keys) then old(cache.storage.keys)[name] else minted),
                                         e.refresh), false, e.now, renewBefore)
      ensures Unhindered(busy, gated, keyFails, e) && old(Asked(name, e).verdict.Yes?) && (old(name in cache.mem) || first == ReadFaults(false, false)) ==>
                (ordered <==>
                  && (old(name in cache.mem) ==> old(cache.mem)[name].notAfter - e.now <= renewBefore)
                  && (old(cache.View(name).0).None?
                      || InWindow(old(cache.View(name).0), old(Lookup(cache.storage.keys, name)), e.now, renewBefore)))
      ensures ordered ==>
                || old(cache.View(name).0).None?
                || (&& old(cache.View(name).0).value.Chain?
                    && old(Lookup(cache.storage.keys, name)) == Some(old(cache.View(name).0).value.key)
                    && old(cache.View(name).0).value.notAfter - e.now <= renewBefore)
      ensures !ordered ==> cache.View(name).0 == old(cache.View(name).0) && cache.View(name).2 == old(cache.View(name).2)
      ensures ordered ==>
                var key := if name in old(cache.storage.keys) then old(cache.storage.keys)[name] else minted;
                var paid := PaidView(old(cache.View(name)), key, e);
                cache.View(name).0 == paid.0 && cache.View(name).2 == paid.2
      ensures cache.storage.keys == old(cache.storage.keys) ||
              (name !in old(cache.storage.keys) && cache.storage.keys == old(cache.storage.keys)[name := minted])
      ensures forall n :: n != name ==> cache.View(n) == old(cache.View(n))
      ensures retries.OnlyTouches(BudgetKey(name))
    {
      hide PaidOutcome, PaidView, Billed, Looks, Allowed;
      if name in cache.mem {
        LooksIgnoresFaults(cache.View(name), Lookup(cache.storage.keys, name), first, e.now, renewBefore);
      }
      DueSpelledOut(cache.View(name), Lookup(cache.storage.keys, name), minted, ReadFaults(false, false), e.now, renewBefore);
      var due := FirstLook(name, first, e.now);
      if !due {
        return false;
      }
      if busy || gated || keyFails {
        return false;
      }
      if name !in cache.storage.keys {
        cache.storage.keys := cache.storage.keys[name := minted];
      }
      PaidViewIgnoresMemory(cache.View(name), old(cache.View(name)), cache.storage.keys[name], e);
      var _, placed := IssueWithKey(name, cache.storage.keys[name], false, e);
      ordered := placed;
    }
  }
}
