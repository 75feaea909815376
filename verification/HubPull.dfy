/**
 Incremental pulls. A client keeps asking for the rows after its last cursor
 while other nodes merge, delete and prune. If merges and deletes commit in the
 order of their clock readings, nothing is lost and nothing comes twice; a
 commit at or below a client's cursor is lost to that client for good.
 */
module HubPull {
  import opened Words
  import opened HubKeys
  import opened HubStore
  import opened HubInvariant
  import opened HubHistory

  datatype Delivery<V> = Delivery(key: Key, row: V)

  datatype Client = Client(
    cursor: u64, rows: seq<Delivery<SharedPolicy>>,
    tombCursor: u64, tombs: seq<Delivery<IndexKey>>)

  /** `clock` is the latest time a merge or delete has committed with. */
  datatype System = System(db: Db, clock: u64, client: Client)

  datatype Step = Write(t: Txn) | PullRows(limit: nat) | PullTombstones(limit: nat)

  function TombTable(db: Db): map<Key, IndexKey> { map k | k in db.tombstones :: AddrOf(k) }

  function PageOf<V>(table: map<Key, V>, since: u64, limit: nat): seq<Delivery<V>>
  {
    var ks := SortedKeys(table.Keys);
    BetweenMembers(ks, since, PageEnd(ks, since, limit));
    Deliveries(table, Between(ks, since, PageEnd(ks, since, limit)))
  }

  function Deliveries<V>(table: map<Key, V>, ks: seq<Key>): (ds: seq<Delivery<V>>)
    requires forall k :: k in ks ==> k in table
    ensures |ds| == |ks| && forall i :: 0 <= i < |ks| ==> ds[i] == Delivery(ks[i], table[ks[i]])
  {
    seq(|ks|, i requires 0 <= i < |ks| => assert ks[i] in ks; Delivery(ks[i], table[ks[i]]))
  }

  function WriteTime(t: Txn, clock: u64): u64 { if t.Prune? then clock else Max(clock, t.now) }

  function Next(s: System, step: Step): System
  {
    match step
    case Write(t) => System(Apply(s.db, t), WriteTime(t, s.clock), s.client)
    case PullRows(limit) =>
      var c := s.client;
      s.(client := c.(rows := c.rows + PageOf(s.db.policies, c.cursor, limit),
                      cursor := PageEnd(SortedKeys(s.db.policies.Keys), c.cursor, limit)))
    case PullTombstones(limit) =>
      var c := s.client;
      s.(client := c.(tombs := c.tombs + PageOf(TombTable(s.db), c.tombCursor, limit),
                      tombCursor := PageEnd(SortedKeys(TombTable(s.db).Keys), c.tombCursor, limit)))
  }

  function Execute(s: System, steps: seq<Step>): System
  {
    if steps == [] then s else Next(Execute(s, steps[..|steps| - 1]), steps[|steps| - 1])
  }

  /** Every merge and delete commits later than all earlier ones. */
  ghost predicate InClockOrder(s: System, steps: seq<Step>)
  {
    forall i :: 0 <= i < |steps| && steps[i].Write? && !steps[i].t.Prune? ==>
      steps[i].t.now > Execute(s, steps[..i]).clock
  }

  /** Every row up to the cursor was delivered as it now is, and no key was delivered twice. */
  ghost predicate Exact<V>(table: map<Key, V>, cursor: u64, got: seq<Delivery<V>>)
  {
    && (forall k :: k in table && Stamp(k) <= cursor ==> Delivery(k, table[k]) in got)
    && (forall i :: 0 <= i < |got| ==> Stamp(got[i].key) <= cursor)
    && (forall i, j :: 0 <= i < j < |got| ==> got[i].key != got[j].key)
  }

  ghost predicate StampsUpTo(ks: set<Key>, clock: u64)
  {
    forall k :: k in ks ==> Stamp(k) <= clock
  }

  ghost predicate Good(s: System)
  {
    && Inv(s.db)
    && StampsUpTo(s.db.policies.Keys, s.clock) && StampsUpTo(s.db.tombstones, s.clock)
    && s.client.cursor <= s.clock && s.client.tombCursor <= s.clock
    && Exact(s.db.policies, s.client.cursor, s.client.rows)
    && Exact(TombTable(s.db), s.client.tombCursor, s.client.tombs)
    && NoneNewer(s.db.policies, s.client.rows)
  }

  /** Nothing was delivered for an address that is newer than its row. */
  ghost predicate NoneNewer(policies: Policies, got: seq<Delivery<SharedPolicy>>)
  {
    forall i :: 0 <= i < |got| ==>
      var row := Row(policies, AddrOf(got[i].key));
      row.Some? ==> Stamp(got[i].key) <= row.value.lastSeenNs
  }

  // ----- One page -----

  /**
   One page: in scan order, exactly the rows after `since` up to the returned
   cursor, at most `limit` of them strictly older than the cursor, and more than
   `limit` in all if there is anything beyond; the cursor is the time of the last.
   */
  ghost predicate ExactPage<V>(table: map<Key, V>, page: seq<Delivery<V>>, since: u64, limit: nat, end: u64)
  {
    && (forall k :: k in table && since < Stamp(k) <= end ==> Delivery(k, table[k]) in page)
    && (forall i :: 0 <= i < |page| ==>
          && page[i].key in table && page[i].row == table[page[i].key]
          && since < Stamp(page[i].key) <= end)
    && (forall i, j :: 0 <= i < j < |page| ==> LexLess(page[i].key, page[j].key))
    && (forall i :: limit <= i < |page| ==> Stamp(page[i].key) == end)
    && (limit > 0 && (exists k :: k in table && Stamp(k) > end) ==> |page| > limit)
    && end == (if page == [] then since else Stamp(page[|page| - 1].key))
  }

  /** Every page is exact, and the cursor moves whenever there is something newer. */
  lemma PageIsExact<V>(table: map<Key, V>, since: u64, limit: nat)
    ensures var end := PageEnd(SortedKeys(table.Keys), since, limit);
            && since <= end
            && ExactPage(table, PageOf(table, since, limit), since, limit, end)
            && (limit > 0 && (exists k :: k in table && Stamp(k) > since) ==> end > since)
  {
    var ks := SortedKeys(table.Keys);
    PageKeys(ks, table.Keys, since, limit);
    DeliveredPage(table, Between(ks, since, PageEnd(ks, since, limit)), since, limit, PageEnd(ks, since, limit));
  }

  lemma DeliveredPage<V>(table: map<Key, V>, keys: seq<Key>, since: u64, limit: nat, end: u64)
    requires IsPage(table.Keys, since, limit, keys, end)
    ensures ExactPage(table, Deliveries(table, keys), since, limit, end)
  {
    DeliveredRows(table, keys, since, end);
    DeliveredOrder(table, keys);
    DeliveredEnd(table, keys, since, limit, end);
  }

  lemma DeliveredRows<V>(table: map<Key, V>, keys: seq<Key>, since: u64, end: u64)
    requires forall k :: k in keys <==> k in table && since < Stamp(k) <= end
    ensures var page := Deliveries(table, keys);
            && (forall k :: k in table && since < Stamp(k) <= end ==> Delivery(k, table[k]) in page)
            && (forall i :: 0 <= i < |page| ==>
                  && page[i].key in table && page[i].row == table[page[i].key]
                  && since < Stamp(page[i].key) <= end)
  {
    DeliveriesMembers(table, keys);
  }

  lemma DeliveredOrder<V>(table: map<Key, V>, keys: seq<Key>)
    requires Ascending(keys) && forall k :: k in keys ==> k in table
    ensures var page := Deliveries(table, keys); forall i, j :: 0 <= i < j < |page| ==> LexLess(page[i].key, page[j].key)
  {
  }

  lemma DeliveredEnd<V>(table: map<Key, V>, keys: seq<Key>, since: u64, limit: nat, end: u64)
    requires forall k :: k in keys ==> k in table
    requires forall i :: limit <= i < |keys| ==> limit > 0 && Stamp(keys[i]) == end
    requires end == (if keys == [] then since else Stamp(keys[|keys| - 1]))
    ensures var page := Deliveries(table, keys);
            && |page| == |keys|
            && (forall i :: limit <= i < |page| ==> Stamp(page[i].key) == end)
            && end == (if page == [] then since else Stamp(page[|page| - 1].key))
  {
  }

  lemma DeliveriesMembers<V>(table: map<Key, V>, keys: seq<Key>)
    requires forall k :: k in keys ==> k in table
    ensures forall k :: k in keys ==> Delivery(k, table[k]) in Deliveries(table, keys)
    ensures var ds := Deliveries(table, keys);
            forall i :: 0 <= i < |ds| ==> ds[i].key in keys && ds[i].key in table && ds[i].row == table[ds[i].key]
  {
    var ds := Deliveries(table, keys);
    forall k | k in keys ensures Delivery(k, table[k]) in ds {
      var i :| 0 <= i < |keys| && keys[i] == k;
      assert ds[i] == Delivery(k, table[k]);
    }
    forall i | 0 <= i < |ds| ensures ds[i].key in keys {
      assert ds[i].key == keys[i];
    }
  }

  // ----- Steps keep exactness -----

  lemma PullKeepsExact<V>(table: map<Key, V>, cursor: u64, got: seq<Delivery<V>>, limit: nat, clock: u64)
    requires Exact(table, cursor, got) && cursor <= clock && StampsUpTo(table.Keys, clock)
    ensures var end := PageEnd(SortedKeys(table.Keys), cursor, limit);
            cursor <= end <= clock && Exact(table, end, got + PageOf(table, cursor, limit))
  {
    var page := PageOf(table, cursor, limit);
    var end := PageEnd(SortedKeys(table.Keys), cursor, limit);
    PageIsExact(table, cursor, limit);
    var all := got + page;
    forall k | k in table && Stamp(k) <= end ensures Delivery(k, table[k]) in all {
      if Stamp(k) <= cursor {
        assert Delivery(k, table[k]) in got;
      } else {
        assert Delivery(k, table[k]) in page;
      }
    }
    forall i, j | 0 <= i < j < |all| ensures all[i].key != all[j].key {
      if |got| <= i {
        LexOrder(page[i - |got|].key, page[j - |got|].key);
      }
    }
  }

  /** A write that touches nothing up to the cursor, except by removing it, keeps a client exact. */
  lemma WriteKeepsExact<V>(table: map<Key, V>, table': map<Key, V>, cursor: u64, got: seq<Delivery<V>>)
    requires Exact(table, cursor, got)
    requires forall k :: k in table' && Stamp(k) <= cursor ==> k in table && table[k] == table'[k]
    ensures Exact(table', cursor, got)
  {
  }

  lemma PushedStamp(db: Db, node: string, np: NodePolicy, now: u64, clock: u64)
    requires RowsOk(db.policies) && IsInverse(db.policies, db.index) && StampsUpTo(db.policies.Keys, clock)
    ensures now <= Pushed(Row(db.policies, IndexKeyOf(np.ip)), node, np, now).lastSeenNs <= Max(clock, now)
  {
    var ik := IndexKeyOf(np.ip);
    if k: Key :| k in db.policies && AddrOf(k) == ik {
      RowIs(db.policies, k);
      assert Stamp(k) == db.policies[k].lastSeenNs;
    }
  }

  lemma MergeOneIsNew(db: Db, node: string, np: NodePolicy, now: u64, clock: u64)
    requires RowsOk(db.policies) && IsInverse(db.policies, db.index) && StampsUpTo(db.policies.Keys, clock)
    ensures var r := MergeOne(db, node, np, now);
            && r.Ok? && RowsOk(r.value.policies) && IsInverse(r.value.policies, r.value.index)
            && StampsUpTo(r.value.policies.Keys, Max(clock, now))
            && forall k :: k in r.value.policies && Stamp(k) < now ==> k in db.policies && db.policies[k] == r.value.policies[k]
  {
    MergeOneKeeps(db, node, np, now);
    MergeOneShape(db, node, np, now);
    PushedStamp(db, node, np, now, clock);
    var p := Pushed(Row(db.policies, IndexKeyOf(np.ip)), node, np, now);
    assert Stamp(CompositeKey(p.lastSeenNs, p.ip)) == p.lastSeenNs;
  }

  lemma {:induction false} MergedRowsAreNew(db: Db, node: string, nps: seq<NodePolicy>, now: u64, clock: u64)
    requires RowsOk(db.policies) && IsInverse(db.policies, db.index) && StampsUpTo(db.policies.Keys, clock)
    ensures var r := MergeAll(db, node, nps, now);
            && r.Ok? && StampsUpTo(r.value.policies.Keys, Max(clock, now))
            && forall k :: k in r.value.policies && Stamp(k) < now ==> k in db.policies && db.policies[k] == r.value.policies[k]
    decreases |nps|
  {
    if nps != [] {
      MergeOneIsNew(db, node, nps[0], now, clock);
      MergedRowsAreNew(MergeOne(db, node, nps[0], now).value, node, nps[1..], now, Max(clock, now));
    }
  }

  /** What the transactions do to timestamps: new rows and tombstones carry the commit time. */
  lemma WritesAreNew(db: Db, t: Txn, clock: u64)
    requires Inv(db) && StampsUpTo(db.policies.Keys, clock) && StampsUpTo(db.tombstones, clock)
    ensures var d := Apply(db, t);
            && StampsUpTo(d.policies.Keys, WriteTime(t, clock)) && StampsUpTo(d.tombstones, WriteTime(t, clock))
            && (forall k :: k in d.policies && (Stamp(k) < t.now || t.Prune?) ==> k in db.policies && db.policies[k] == d.policies[k])
            && (forall k :: k in d.tombstones && (Stamp(k) < t.now || t.Prune?) ==> k in db.tombstones)
  {
    match t
    case Merge(node, nps, now) =>
      RebuiltIsInverse(db);
      MergedRowsAreNew(Rebuilt(db), node, nps, now, clock);
      MergeTxnKeeps(db, node, nps, now);
    case Delete(ips, now) =>
      DeletesOnlyRemove(db, ips);
      DeleteAllKeeps(db, ips);
    case Prune(now, ttl) =>
  }

  lemma {:induction false} DeletesOnlyRemove(db: Db, ips: seq<IpKey>)
    ensures forall k :: k in DeleteAll(db, ips).policies ==> k in db.policies && DeleteAll(db, ips).policies[k] == db.policies[k]
    decreases |ips|
  {
    if ips != [] { DeletesOnlyRemove(DeleteOne(db, ips[0]), ips[1..]); }
  }

  ghost predicate PushesTo(nps: seq<NodePolicy>, ik: IndexKey)
  {
    exists i :: 0 <= i < |nps| && IndexKeyOf(nps[i].ip) == ik
  }

  /** A list of pushes dates the rows it names, and leaves the others alone. */
  lemma {:induction false} PushedAllStamp(row: Option<SharedPolicy>, ik: IndexKey, node: string, nps: seq<NodePolicy>, now: u64)
    ensures var row' := PushedAll(row, ik, node, nps, now);
            if PushesTo(nps, ik) then row'.Some? && row'.value.lastSeenNs == if row.Some? then Max(row.value.lastSeenNs, now) else now
            else row' == row
    decreases |nps|
  {
    if nps != [] {
      var next := if IndexKeyOf(nps[0].ip) == ik then Some(Pushed(row, node, nps[0], now)) else row;
      PushedAllStamp(next, ik, node, nps[1..], now);
      assert PushesTo(nps[1..], ik) ==> PushesTo(nps, ik) by {
        if i :| 0 <= i < |nps[1..]| && IndexKeyOf(nps[1..][i].ip) == ik { assert nps[i + 1] == nps[1..][i]; }
      }
      assert PushesTo(nps, ik) && IndexKeyOf(nps[0].ip) != ik ==> PushesTo(nps[1..], ik) by {
        if i :| 1 <= i < |nps| && IndexKeyOf(nps[i].ip) == ik { assert nps[1..][i - 1] == nps[i]; }
      }
    }
  }

  lemma WriteKeepsNoneNewer(db: Db, t: Txn, got: seq<Delivery<SharedPolicy>>, cursor: u64)
    requires Inv(db) && NoneNewer(db.policies, got)
    requires forall i :: 0 <= i < |got| ==> Stamp(got[i].key) <= cursor
    requires !t.Prune? ==> cursor < t.now
    ensures NoneNewer(Apply(db, t).policies, got)
  {
    match t
    case Merge(node, nps, now) =>
      MergeTxnKeeps(db, node, nps, now);
      forall ik { PushedAllStamp(Row(db.policies, ik), ik, node, nps, now); }
    case Delete(ips, now) => DeleteTxnKeeps(db, ips, now);
    case Prune(now, ttl) => PruneTxnKeeps(db, now, ttl);
  }

  lemma PullKeepsNoneNewer(policies: Policies, got: seq<Delivery<SharedPolicy>>, cursor: u64, limit: nat)
    requires RowsOk(policies) && NoneNewer(policies, got)
    ensures NoneNewer(policies, got + PageOf(policies, cursor, limit))
  {
    PageIsExact(policies, cursor, limit);
    StoredNoneNewer(policies, PageOf(policies, cursor, limit));
  }

  lemma StoredNoneNewer(policies: Policies, page: seq<Delivery<SharedPolicy>>)
    requires RowsOk(policies) && forall i :: 0 <= i < |page| ==> page[i].key in policies
    ensures NoneNewer(policies, page)
  {
    forall i | 0 <= i < |page| ensures Row(policies, AddrOf(page[i].key)).Some? ==>
      Stamp(page[i].key) <= Row(policies, AddrOf(page[i].key)).value.lastSeenNs
    {
      RowIs(policies, page[i].key);
    }
  }

  lemma StepKeepsGood(s: System, step: Step)
    requires Good(s)
    requires step.Write? && !step.t.Prune? ==> step.t.now > s.clock
    ensures Good(Next(s, step))
  {
    var c := s.client;
    match step
    case Write(t) =>
      ApplyKeeps(s.db, t);
      WritesAreNew(s.db, t, s.clock);
      WriteKeepsNoneNewer(s.db, t, c.rows, c.cursor);
      var d := Apply(s.db, t);
      WriteKeepsExact(s.db.policies, d.policies, c.cursor, c.rows);
      WriteKeepsExact(TombTable(s.db), TombTable(d), c.tombCursor, c.tombs);
    case PullRows(limit) =>
      PullKeepsExact(s.db.policies, c.cursor, c.rows, limit, s.clock);
      PullKeepsNoneNewer(s.db.policies, c.rows, c.cursor, limit);
    case PullTombstones(limit) =>
      PullKeepsExact(TombTable(s.db), c.tombCursor, c.tombs, limit, s.clock);
  }

  /** Main result: over any interleaving in clock order, the client holds exactly the rows up to its cursors. */
  lemma {:induction false} NoLossNoRepeat(s: System, steps: seq<Step>)
    requires Good(s) && InClockOrder(s, steps)
    ensures Good(Execute(s, steps))
  {
    if steps != [] {
      var n := |steps| - 1;
      forall i | 0 <= i < n && steps[..n][i].Write? && !steps[..n][i].t.Prune?
        ensures steps[..n][i].t.now > Execute(s, steps[..n][..i]).clock
      {
        assert steps[..n][..i] == steps[..i];
      }
      NoLossNoRepeat(s, steps[..n]);
      StepKeepsGood(Execute(s, steps[..n]), steps[n]);
    }
  }

  const FRESH: Client := Client(0, [], 0, [])

  /** A fresh client is such a system on any well-formed store, exactly if no row or tombstone is dated 0. */
  lemma StartIsGood(db: Db, clock: u64)
    requires Inv(db) && StampsUpTo(db.policies.Keys, clock) && StampsUpTo(db.tombstones, clock)
    ensures Good(System(db, clock, FRESH)) <==> forall k :: k in db.policies || k in db.tombstones ==> Stamp(k) > 0
  {
    assert forall k :: k in TombTable(db) <==> k in db.tombstones;
  }

  // ----- Draining -----

  /** Pages pulled one after the other from an unchanged table. */
  function Drained<V>(table: map<Key, V>, since: u64, limit: nat, pulls: nat): seq<Delivery<V>>
    decreases pulls
  {
    if pulls == 0 then []
    else PageOf(table, since, limit)
         + Drained(table, PageEnd(SortedKeys(table.Keys), since, limit), limit, pulls - 1)
  }

  /** All rows newer than `since`, in scan order. */
  function Newer<V>(table: map<Key, V>, since: u64): seq<Delivery<V>>
  {
    BetweenMembers(SortedKeys(table.Keys), since, U64_MAX);
    Deliveries(table, Between(SortedKeys(table.Keys), since, U64_MAX))
  }

  /** Each of them once. */
  lemma NewerIsExact<V>(table: map<Key, V>, since: u64)
    ensures var ds := Newer(table, since);
            && (forall k :: k in table && since < Stamp(k) ==> Delivery(k, table[k]) in ds)
            && (forall i :: 0 <= i < |ds| ==> ds[i].key in table && ds[i].row == table[ds[i].key] && since < Stamp(ds[i].key))
            && (forall i, j :: 0 <= i < j < |ds| ==> LexLess(ds[i].key, ds[j].key))
  {
    var ks := SortedKeys(table.Keys);
    BetweenMembers(ks, since, U64_MAX);
    BetweenAscends(ks, since, U64_MAX);
    DeliveriesMembers(table, Between(ks, since, U64_MAX));
  }

  /** Pulling an unchanged table as often as it has newer rows delivers each newer row once, in scan order. */
  lemma {:induction false} DrainIsComplete<V>(table: map<Key, V>, since: u64, limit: nat, pulls: nat)
    requires limit > 0 && pulls >= |Newer(table, since)|
    ensures Drained(table, since, limit, pulls) == Newer(table, since)
    decreases pulls
  {
    if pulls > 0 {
      NewerShortens(table, since, limit);
      DrainIsComplete(table, PageEnd(SortedKeys(table.Keys), since, limit), limit, pulls - 1);
      DrainStep(table, since, limit, pulls);
    }
  }

  lemma NewerShortens<V>(table: map<Key, V>, since: u64, limit: nat)
    requires limit > 0
    ensures var rest, newer := Newer(table, PageEnd(SortedKeys(table.Keys), since, limit)), Newer(table, since);
            |rest| < |newer| || |rest| == |newer| == 0
  {
    PageShortens(SortedKeys(table.Keys), since, limit);
  }

  lemma DrainStep<V>(table: map<Key, V>, since: u64, limit: nat, pulls: nat)
    requires pulls > 0
    requires var end := PageEnd(SortedKeys(table.Keys), since, limit);
             Drained(table, end, limit, pulls - 1) == Newer(table, end)
    ensures Drained(table, since, limit, pulls) == Newer(table, since)
  {
    PageThenRest(table, since, limit);
  }

  lemma PageThenRest<V>(table: map<Key, V>, since: u64, limit: nat)
    ensures PageOf(table, since, limit) + Newer(table, PageEnd(SortedKeys(table.Keys), since, limit)) == Newer(table, since)
  {
    var ks := SortedKeys(table.Keys);
    var end := PageEnd(ks, since, limit);
    PageKeys(ks, table.Keys, since, limit);
    SplitAt(ks, since, end);
    BetweenMembers(ks, end, U64_MAX);
    BetweenMembers(ks, since, end);
    DeliveriesJoin(table, Between(ks, since, end), Between(ks, end, U64_MAX));
  }

  lemma DeliveriesJoin<V>(table: map<Key, V>, xs: seq<Key>, ys: seq<Key>)
    requires (forall k :: k in xs ==> k in table) && (forall k :: k in ys ==> k in table)
    ensures forall k :: k in xs + ys ==> k in table
    ensures Deliveries(table, xs) + Deliveries(table, ys) == Deliveries(table, xs + ys)
  {
  }

  lemma PageShortens(ks: seq<Key>, since: u64, limit: nat)
    requires Ascending(ks) && limit > 0
    ensures var rest := Between(ks, PageEnd(ks, since, limit), U64_MAX);
            var newer := Between(ks, since, U64_MAX);
            |rest| < |newer| || rest == newer == []
  {
    var end := PageEnd(ks, since, limit);
    PageKeys(ks, (set k | k in ks), since, limit);
    SplitAt(ks, since, end);
    BetweenMembers(ks, since, U64_MAX);
    var newer := Between(ks, since, U64_MAX);
    if newer != [] { assert newer[0] in newer; }
  }

  lemma {:induction false} SplitAt(ks: seq<Key>, since: u64, end: u64)
    requires Ascending(ks) && since <= end
    ensures Between(ks, since, end) + Between(ks, end, U64_MAX) == Between(ks, since, U64_MAX)
  {
    if ks != [] {
      var n := |ks| - 1;
      SplitAt(ks[..n], since, end);
      if since < Stamp(ks[n]) <= end {
        forall i | 0 <= i < n ensures Stamp(ks[i]) <= end {
          LexAgreesWithTime(ks[i], ks[n]);
        }
        NoneAbove(ks[..n], end);
      }
    }
  }

  lemma {:induction false} NoneAbove(ks: seq<Key>, end: u64)
    requires forall i :: 0 <= i < |ks| ==> Stamp(ks[i]) <= end
    ensures Between(ks, end, U64_MAX) == []
  {
    if ks != [] { NoneAbove(ks[..|ks| - 1], end); }
  }

  // ----- Commits out of clock order -----

  function KeyOf(p: SharedPolicy): Key { CompositeKey(p.lastSeenNs, p.ip) }

  /**
   A merge at or below the cursor spares a client if the row of the address is
   past the cursor or stays as it is; an address without a row must have been
   delivered before, exactly as the merge writes it.
   */
  ghost predicate Spared(s: System, ik: IndexKey, row': Option<SharedPolicy>)
  {
    match Row(s.db.policies, ik)
    case Some(p) => p.lastSeenNs > s.client.cursor || row' == Some(p)
    case None => row'.Some? && Delivery(KeyOf(row'.value), row'.value) in s.client.rows
  }

  /**
   The clock is read before the write transaction starts, so a merge may commit
   with a time at or below a cursor that was handed out meanwhile. The client
   stays exact exactly when the time is above its cursor or every address of the
   merge is spared.
   */
  lemma LateMergeIsLostIff(s: System, node: string, nps: seq<NodePolicy>, now: u64)
    requires Good(s)
    ensures Exact(Apply(s.db, Merge(node, nps, now)).policies, s.client.cursor, s.client.rows)
            <==> now > s.client.cursor || forall ik :: PushesTo(nps, ik) ==>
                                            Spared(s, ik, PushedAll(Row(s.db.policies, ik), ik, node, nps, now))
  {
    var d, cursor, got := Apply(s.db, Merge(node, nps, now)), s.client.cursor, s.client.rows;
    MergeTxnKeeps(s.db, node, nps, now);
    forall ik { PushedAllStamp(Row(s.db.policies, ik), ik, node, nps, now); }
    if Exact(d.policies, cursor, got) && now <= cursor {
      forall ik | PushesTo(nps, ik) ensures Spared(s, ik, Row(d.policies, ik)) {
        ExactMeansSpared(s, d.policies, ik, now);
      }
    }
    if now > cursor || forall ik :: PushesTo(nps, ik) ==> Spared(s, ik, Row(d.policies, ik)) {
      forall k | k in d.policies && Stamp(k) <= cursor ensures Delivery(k, d.policies[k]) in got {
        SparedIsDelivered(s, d.policies, k, PushesTo(nps, AddrOf(k)), now);
      }
    }
  }

  lemma RowAt(policies: Policies, ik: IndexKey)
    requires RowsOk(policies) && Row(policies, ik).Some?
    ensures var p := Row(policies, ik).value;
            KeyOf(p) in policies && policies[KeyOf(p)] == p && AddrOf(KeyOf(p)) == ik && Stamp(KeyOf(p)) == p.lastSeenNs
  {
    var k: Key :| k in policies && AddrOf(k) == ik;
    RowIs(policies, k);
  }

  lemma ExactMeansSpared(s: System, policies: Policies, ik: IndexKey, now: u64)
    requires Good(s) && RowsOk(policies) && Exact(policies, s.client.cursor, s.client.rows) && now <= s.client.cursor
    requires Row(policies, ik).Some?
    requires var row := Row(s.db.policies, ik);
             Row(policies, ik).value.lastSeenNs == if row.Some? then Max(row.value.lastSeenNs, now) else now
    ensures Spared(s, ik, Row(policies, ik))
  {
    RowAt(policies, ik);
    var q := Row(policies, ik).value;
    if Row(s.db.policies, ik).Some? && Row(s.db.policies, ik).value.lastSeenNs <= s.client.cursor {
      RowAt(s.db.policies, ik);
      var p := Row(s.db.policies, ik).value;
      assert Delivery(KeyOf(p), p) in s.client.rows && Delivery(KeyOf(q), q) in s.client.rows;
      var i :| 0 <= i < |s.client.rows| && s.client.rows[i] == Delivery(KeyOf(q), q);
      assert q.lastSeenNs <= p.lastSeenNs;
      assert KeyOf(q)[..8] == KeyOf(p)[..8] && KeyOf(q)[8..] == KeyOf(p)[8..];
      assert KeyOf(q) == KeyOf(q)[..8] + KeyOf(q)[8..] == KeyOf(p);
    }
  }

  lemma SparedIsDelivered(s: System, policies: Policies, k: Key, pushed: bool, now: u64)
    requires Good(s) && RowsOk(policies) && k in policies && Stamp(k) <= s.client.cursor
    requires var row, row' := Row(s.db.policies, AddrOf(k)), Row(policies, AddrOf(k));
             if pushed then row'.Some? && row'.value.lastSeenNs == if row.Some? then Max(row.value.lastSeenNs, now) else now
             else row' == row
    requires now > s.client.cursor || (pushed ==> Spared(s, AddrOf(k), Row(policies, AddrOf(k))))
    ensures Delivery(k, policies[k]) in s.client.rows
  {
    RowIs(policies, k);
    assert Stamp(k) == policies[k].lastSeenNs;
    if Row(s.db.policies, AddrOf(k)) == Some(policies[k]) { RowAt(s.db.policies, AddrOf(k)); }
  }

  /**
   A delete never harms the rows of a client. Its tombstones reach the client
   exactly when its time is above the tombstone cursor, unless each of them was
   delivered already, by a delete with the same clock reading.
   */
  lemma LateDeleteIsLostIff(s: System, ips: seq<IpKey>, now: u64)
    requires Good(s)
    ensures Exact(Apply(s.db, Delete(ips, now)).policies, s.client.cursor, s.client.rows)
    ensures Exact(TombTable(Apply(s.db, Delete(ips, now))), s.client.tombCursor, s.client.tombs)
            <==> now > s.client.tombCursor || forall ip :: ip in ips ==> Delivery(CompositeKey(now, ip), IndexKeyOf(ip)) in s.client.tombs
  {
    var d, c := Apply(s.db, Delete(ips, now)), s.client;
    DeletesOnlyRemove(s.db, ips);
    WriteKeepsExact(s.db.policies, d.policies, c.cursor, c.rows);
    DeleteTxnKeeps(s.db, ips, now);
    NewTombstones(TombTable(s.db), TombTable(d), ips, now, c.tombCursor, c.tombs);
  }

  lemma NewTombstones(
    table: map<Key, IndexKey>, table': map<Key, IndexKey>, ips: seq<IpKey>, now: u64, cursor: u64, got: seq<Delivery<IndexKey>>)
    requires Exact(table, cursor, got)
    requires forall k :: k in table' <==> k in table || exists ip :: ip in ips && k == CompositeKey(now, ip)
    requires (forall k :: k in table ==> table[k] == AddrOf(k)) && (forall k :: k in table' ==> table'[k] == AddrOf(k))
    ensures Exact(table', cursor, got)
            <==> now > cursor || forall ip :: ip in ips ==> Delivery(CompositeKey(now, ip), IndexKeyOf(ip)) in got
  {
    forall ip | ip in ips ensures var k := CompositeKey(now, ip); k in table' && Stamp(k) == now && table'[k] == IndexKeyOf(ip) {}
  }

  ghost predicate Missed<V>(k: Key, cursor: u64, got: seq<Delivery<V>>)
  {
    Stamp(k) <= cursor && forall i :: 0 <= i < |got| ==> got[i].key != k
  }

  /** What a client has missed it never gets, whatever is pulled or written later. */
  lemma {:induction false} LostForGood(s: System, steps: seq<Step>, k: Key)
    ensures var c, c' := s.client, Execute(s, steps).client;
            && (Missed(k, c.cursor, c.rows) ==> Missed(k, c'.cursor, c'.rows))
            && (Missed(k, c.tombCursor, c.tombs) ==> Missed(k, c'.tombCursor, c'.tombs))
  {
    if steps != [] {
      var front, step := steps[..|steps| - 1], steps[|steps| - 1];
      LostForGood(s, front, k);
      var mid := Execute(s, front);
      match step
      case Write(_) =>
      case PullRows(limit) => PageIsExact(mid.db.policies, mid.client.cursor, limit);
      case PullTombstones(limit) => PageIsExact(TombTable(mid.db), mid.client.tombCursor, limit);
    }
  }
}
