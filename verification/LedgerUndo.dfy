/** Disconnecting transactions undoes connecting them, in whatever order they are disconnected. */
module LedgerUndo {
  import opened Bytes
  import opened Tx
  import opened Ledger
  import opened LedgerSafety

  /** A transaction, its id and the block it is connected in. */
  datatype Link = Link(id: Hash32, tx: Transaction, blockHash: Hash32, height: int)

  function CacheAll(u: Utxo, links: seq<Link>): Utxo {
    if links == [] then u else
      var k := |links| - 1;
      Cache(CacheAll(u, links[..k]), links[k].id, links[k].tx, links[k].blockHash, links[k].height)
  }

  function UncacheAll(u: Utxo, links: seq<Link>): Utxo {
    if links == [] then u else
      var k := |links| - 1;
      Uncache(UncacheAll(u, links[..k]), links[k].id, links[k].tx)
  }

  ghost predicate SpendsLink(l: Link, p: OutPoint) { !l.tx.IsCoinBase() && Spends(l.tx.vin, p) }

  ghost predicate Creates(l: Link, p: OutPoint) { p.txid == l.id && p.index < |l.tx.vout| }

  /** Distinct fresh ids, and inputs that were present and unused at the time, possibly created earlier
      in the list. */
  ghost predicate Connectable(u: Utxo, links: seq<Link>) {
    NoNull(u) &&
    (forall i, j :: 0 <= i < j < |links| ==> links[i].id != links[j].id) &&
    (forall i, p :: 0 <= i < |links| && p in u ==> p.txid != links[i].id) &&
    (forall i, p :: 0 <= i < |links| && SpendsLink(links[i], p) ==> CanUse(CacheAll(u, links[..i]), p))
  }

  ghost predicate CreatedBy(links: seq<Link>, n: nat, p: OutPoint)
    requires n <= |links|
  { exists k :: 0 <= k < n && Creates(links[k], p) }

  ghost predicate SpentBy(links: seq<Link>, n: nat, p: OutPoint)
    requires n <= |links|
  { exists k :: 0 <= k < n && SpendsLink(links[k], p) }

  ghost predicate SpentOnce(links: seq<Link>, n: nat, p: OutPoint)
    requires n <= |links|
  { forall j, k :: 0 <= j < k < n ==> !(SpendsLink(links[j], p) && SpendsLink(links[k], p)) }

  ghost predicate UsedAt(u: Utxo, p: OutPoint) { p in u && u[p].used }

  /** The database after connecting the first n, at one outpoint, which has at most one spender. */
  ghost predicate CachedAt(u: Utxo, links: seq<Link>, n: nat, r: Utxo, p: OutPoint)
    requires n <= |links|
  {
    (p in r <==> p in u || CreatedBy(links, n, p))
    && (p in r ==> !p.IsNull() && (r[p].used <==> UsedAt(u, p) || SpentBy(links, n, p)))
    && (p in u ==> r[p] == u[p].(used := r[p].used))
    && (SpentBy(links, n, p) ==> p in r && !UsedAt(u, p))
    && SpentOnce(links, n, p)
  }

  ghost predicate Cached(u: Utxo, links: seq<Link>, n: nat, r: Utxo)
    requires n <= |links|
  { forall p :: CachedAt(u, links, n, r, p) }

  lemma {:induction false} CacheAllForm(u: Utxo, links: seq<Link>, n: nat)
    requires Connectable(u, links) && n <= |links|
    ensures Cached(u, links, n, CacheAll(u, links[..n]))
  {
    hide Cache, Connectable;
    var r := CacheAll(u, links[..n]);
    if n == 0 {
      StartForm(u, links);
    } else {
      CacheAllForm(u, links, n - 1);
      var before, l := CacheAll(u, links[..n - 1]), links[n - 1];
      assert links[..n][..n - 1] == links[..n - 1] && links[..n][n - 1] == l;
      hide CacheAll, CachedAt;
      assert NoNull(before) by { FormHasNoNull(u, links, n - 1, before); }
      CacheAt(before, l.id, l.tx, l.blockHash, l.height);
      forall p ensures CachedAt(u, links, n, r, p) {
        assert CachedAt(u, links, n - 1, before, p);
        ConnectableAt(u, links, n - 1, p);
        CacheOneForm(u, links, n, before, r, p);
      }
    }
  }

  lemma StartForm(u: Utxo, links: seq<Link>)
    requires Connectable(u, links)
    ensures Cached(u, links, 0, u)
  {}

  lemma FormHasNoNull(u: Utxo, links: seq<Link>, n: nat, r: Utxo)
    requires n <= |links| && Cached(u, links, n, r)
    ensures NoNull(r)
  {
    forall p | p in r ensures !p.IsNull() { assert CachedAt(u, links, n, r, p); }
  }

  lemma ConnectableAt(u: Utxo, links: seq<Link>, k: nat, p: OutPoint)
    requires Connectable(u, links) && k < |links|
    ensures Creates(links[k], p) ==> p !in u && !CreatedBy(links, k, p)
    ensures SpendsLink(links[k], p) ==> CanUse(CacheAll(u, links[..k]), p)
  {}

  lemma CacheOneForm(u: Utxo, links: seq<Link>, n: nat, before: Utxo, r: Utxo, p: OutPoint)
    requires 0 < n <= |links| && CachedAt(u, links, n - 1, before, p)
    requires var l := links[n - 1];
             (Creates(l, p) ==> p !in u && !CreatedBy(links, n - 1, p))
             && (SpendsLink(l, p) ==> CanUse(before, p))
             && (p in r <==> p in before || Creates(l, p))
             && (p in r ==> r[p] == if Creates(l, p) then Entry(l.blockHash, l.height, false)
                                    else if SpendsLink(l, p) then before[p].(used := true)
                                    else before[p])
    ensures CachedAt(u, links, n, r, p)
  {
    hide SpendsLink;
    assert CreatedBy(links, n, p) <==> CreatedBy(links, n - 1, p) || Creates(links[n - 1], p);
    assert SpentBy(links, n, p) <==> SpentBy(links, n - 1, p) || SpendsLink(links[n - 1], p);
  }

  // ----- Disconnecting -----

  lemma {:induction false} RemoveOutputsAt(u: Utxo, id: Hash32, n: nat)
    ensures var r := RemoveOutputs(u, id, n);
            forall p :: (p in r <==> p in u && !(p.txid == id && p.index < n)) && (p in r ==> r[p] == u[p])
  {
    if n > 0 { RemoveOutputsAt(u, id, n - 1); }
  }

  lemma UncacheAt(u: Utxo, l: Link)
    requires NoNull(u)
    ensures var r := Uncache(u, l.id, l.tx);
            forall p :: (p in r <==> p in u && !Creates(l, p))
                        && (p in r ==> r[p] == if SpendsLink(l, p) then u[p].(used := false) else u[p])
  {
    hide SetInputs, RemoveOutputs, Spends;
    SetInputsAt(u, l.tx.vin, false);
    RemoveOutputsAt(if l.tx.IsCoinBase() then u else SetInputs(u, l.tx.vin, false), l.id, |l.tx.vout|);
  }

  ghost predicate StillSpent(links: seq<Link>, gone: set<Hash32>, p: OutPoint) {
    exists k :: 0 <= k < |links| && links[k].id !in gone && SpendsLink(links[k], p)
  }

  /** The database with the links in `gone` disconnected again, at one outpoint: their outputs are
      missing, and an entry is used if it was to begin with or if a link still connected spends it. */
  ghost predicate WithoutAt(u: Utxo, links: seq<Link>, full: Utxo, gone: set<Hash32>, r: Utxo, p: OutPoint) {
    (p in r <==> p in full && p.txid !in gone) &&
    (p in r ==> r[p] == full[p].(used := UsedAt(u, p) || StillSpent(links, gone, p)))
  }

  ghost predicate Without(u: Utxo, links: seq<Link>, full: Utxo, gone: set<Hash32>, r: Utxo) {
    forall p :: WithoutAt(u, links, full, gone, r, p)
  }

  lemma UncacheOneAt(u: Utxo, links: seq<Link>, full: Utxo, gone: set<Hash32>, r: Utxo, r': Utxo, k: nat, p: OutPoint)
    requires Connectable(u, links) && CachedAt(u, links, |links|, full, p) && WithoutAt(u, links, full, gone, r, p)
    requires k < |links| && links[k].id !in gone
    requires (p in r' <==> p in r && !Creates(links[k], p))
             && (p in r' ==> r'[p] == if SpendsLink(links[k], p) then r[p].(used := false) else r[p])
    ensures WithoutAt(u, links, full, gone + {links[k].id}, r', p)
  {
    hide SpendsLink, CacheAll;
    var l := links[k];
    if p in full && p.txid == l.id { assert Creates(l, p); }
    if SpendsLink(l, p) {
      assert SpentBy(links, |links|, p);
      assert !StillSpent(links, gone + {l.id}, p);
    } else {
      assert StillSpent(links, gone, p) <==> StillSpent(links, gone + {l.id}, p) by {
        if StillSpent(links, gone, p) {
          var j :| 0 <= j < |links| && links[j].id !in gone && SpendsLink(links[j], p);
          assert links[j].id != l.id;
        }
      }
    }
  }

  lemma UncacheOne(u: Utxo, links: seq<Link>, full: Utxo, gone: set<Hash32>, r: Utxo, k: nat)
    requires Connectable(u, links) && Cached(u, links, |links|, full) && Without(u, links, full, gone, r)
    requires k < |links| && links[k].id !in gone
    ensures Without(u, links, full, gone + {links[k].id}, Uncache(r, links[k].id, links[k].tx))
  {
    hide Uncache, Connectable, SpendsLink;
    forall p | p in r ensures !p.IsNull() {
      assert WithoutAt(u, links, full, gone, r, p) && CachedAt(u, links, |links|, full, p);
    }
    UncacheAt(r, links[k]);
    hide WithoutAt, CachedAt;
    forall p ensures WithoutAt(u, links, full, gone + {links[k].id}, Uncache(r, links[k].id, links[k].tx), p) {
      assert WithoutAt(u, links, full, gone, r, p) && CachedAt(u, links, |links|, full, p);
      UncacheOneAt(u, links, full, gone, r, Uncache(r, links[k].id, links[k].tx), k, p);
    }
  }

  function Ids(links: seq<Link>): set<Hash32> { set i | 0 <= i < |links| :: links[i].id }

  lemma MemberOfBoth(a: seq<Link>, b: seq<Link>, l: Link)
    requires multiset(a) == multiset(b) && l in a
    ensures l in b
  {
    assert l in multiset(a);
  }

  lemma OccursOnce(a: seq<Link>, b: seq<Link>, i: nat, j: nat)
    requires multiset(a) == multiset(b) && i < j < |a| && a[i] == a[j]
    ensures exists m, n :: 0 <= m < n < |b| && b[m] == b[n]
  {
    var x := a[i];
    assert a == a[..i] + [x] + a[i + 1..j] + [x] + a[j + 1..];
    assert multiset(a)[x] >= 2;
    CountTwo(b, x);
  }

  lemma {:induction false} CountTwo(b: seq<Link>, x: Link)
    requires multiset(b)[x] >= 2
    ensures exists m, n :: 0 <= m < n < |b| && b[m] == b[n]
  {
    var k := |b| - 1;
    assert b == b[..k] + [b[k]];
    if b[k] == x {
      assert x in multiset(b[..k]);
      var m :| 0 <= m < k && b[..k][m] == x;
      assert b[m] == b[k];
    } else {
      CountTwo(b[..k], x);
      var m, n :| 0 <= m < n < k && b[..k][m] == b[..k][n];
      assert b[m] == b[n];
    }
  }

  lemma {:induction false} UncachePrefix(u: Utxo, links: seq<Link>, order: seq<Link>, n: nat)
    requires Connectable(u, links) && multiset(order) == multiset(links) && n <= |order|
    ensures var full := CacheAll(u, links);
            Without(u, links, full, Ids(order[..n]), UncacheAll(full, order[..n]))
  {
    hide Uncache, Without;
    var full := CacheAll(u, links);
    assert links[..|links|] == links;
    CacheAllForm(u, links, |links|);
    if n == 0 {
      NothingGone(u, links, full);
      assert Ids(order[..0]) == {};
    } else {
      UncachePrefix(u, links, order, n - 1);
      var l := order[n - 1];
      assert order[..n][..n - 1] == order[..n - 1] && order[..n][n - 1] == l;
      MemberOfBoth(order, links, l);
      var k :| 0 <= k < |links| && links[k] == l;
      NotYetGone(u, links, order, n - 1);
      UncacheOne(u, links, full, Ids(order[..n - 1]), UncacheAll(full, order[..n - 1]), k);
      assert Ids(order[..n]) == Ids(order[..n - 1]) + {l.id} by {
        IdsAppend(order[..n - 1], l);
        assert order[..n - 1] + [l] == order[..n];
      }
    }
  }

  lemma IdsAppend(links: seq<Link>, l: Link)
    ensures Ids(links + [l]) == Ids(links) + {l.id}
  {
    var a := links + [l];
    forall h | h in Ids(links) ensures h in Ids(a) {
      var i :| 0 <= i < |links| && links[i].id == h;
      assert a[i].id == h;
    }
    assert a[|links|].id == l.id;
  }

  lemma NothingGone(u: Utxo, links: seq<Link>, full: Utxo)
    requires Cached(u, links, |links|, full)
    ensures Without(u, links, full, {}, full)
  {
    hide SpendsLink;
    forall p ensures WithoutAt(u, links, full, {}, full, p) {
      assert CachedAt(u, links, |links|, full, p);
      assert StillSpent(links, {}, p) <==> SpentBy(links, |links|, p);
    }
  }

  lemma EverythingGone(u: Utxo, links: seq<Link>, full: Utxo, gone: set<Hash32>, r: Utxo)
    requires Connectable(u, links) && Cached(u, links, |links|, full) && Without(u, links, full, gone, r)
    requires forall k :: 0 <= k < |links| ==> links[k].id in gone
    requires forall h :: h in gone ==> exists k :: 0 <= k < |links| && links[k].id == h
    ensures r == u
  {
    hide SpendsLink, CacheAll;
    forall p ensures (p in r <==> p in u) && (p in u ==> r[p] == u[p]) {
      assert WithoutAt(u, links, full, gone, r, p) && CachedAt(u, links, |links|, full, p);
    }
    assert r.Keys == u.Keys;
  }

  lemma NotYetGone(u: Utxo, links: seq<Link>, order: seq<Link>, n: nat)
    requires Connectable(u, links) && multiset(order) == multiset(links) && n < |order|
    ensures order[n].id !in Ids(order[..n])
  {
    if order[n].id in Ids(order[..n]) {
      var i :| 0 <= i < n && order[..n][i].id == order[n].id;
      MemberOfBoth(order, links, order[i]);
      MemberOfBoth(order, links, order[n]);
      assert order[i] == order[n];
      OccursOnce(order, links, i, n);
    }
  }

  /** Disconnecting the same transactions in any order restores the database exactly. */
  lemma DisconnectUndoesConnect(u: Utxo, links: seq<Link>, order: seq<Link>)
    requires Connectable(u, links) && multiset(order) == multiset(links)
    ensures UncacheAll(CacheAll(u, links), order) == u
  {
    hide CacheAll, UncacheAll, Connectable, Cached, Without;
    var full := CacheAll(u, links);
    var r := UncacheAll(full, order);
    UncachePrefix(u, links, order, |order|);
    assert order[..|order|] == order && links[..|links|] == links;
    CacheAllForm(u, links, |links|);
    forall k | 0 <= k < |links| ensures links[k].id in Ids(order) {
      MemberOfBoth(links, order, links[k]);
      var i :| 0 <= i < |order| && order[i] == links[k];
    }
    forall h | h in Ids(order) ensures exists k :: 0 <= k < |links| && links[k].id == h {
      var i :| 0 <= i < |order| && order[i].id == h;
      MemberOfBoth(order, links, order[i]);
      var k :| 0 <= k < |links| && links[k] == order[i];
    }
    EverythingGone(u, links, full, Ids(order), r);
  }
}
