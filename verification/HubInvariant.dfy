/**
 What every transaction of the hub store keeps: one row per address, each row
 under the key made of its own time and address, and an index that is either
 empty (a store written before the index existed) or the exact inverse of the
 table. Under this invariant a store is a map from addresses to rows, and each
 transaction has a simple meaning on that map.
 */
module HubInvariant {
  import opened Words
  import opened HubKeys
  import opened HubStore

  function AddrOf(k: Key): IndexKey { k[8..] }

  ghost predicate RowsOk(policies: Policies)
  {
    && (forall k :: k in policies ==> k == CompositeKey(policies[k].lastSeenNs, policies[k].ip))
    && (forall j, k :: j in policies && k in policies && AddrOf(j) == AddrOf(k) ==> j == k)
  }

  ghost predicate IsInverse(policies: Policies, index: Index)
  {
    && (forall ik :: ik in index ==> index[ik] in policies && AddrOf(index[ik]) == ik)
    && (forall k :: k in policies ==> AddrOf(k) in index && index[AddrOf(k)] == k)
  }

  ghost predicate Inv(db: Db)
  {
    RowsOk(db.policies) && (db.index == map[] || IsInverse(db.policies, db.index))
  }

  ghost predicate Legacy(db: Db)
  {
    db.index == map[] && db.policies != map[]
  }

  /** The row of an address. */
  ghost function Row(policies: Policies, ik: IndexKey): Option<SharedPolicy>
  {
    if k: Key :| k in policies && AddrOf(k) == ik then Some(policies[k]) else None
  }

  lemma RowIs(policies: Policies, k: Key)
    requires RowsOk(policies) && k in policies
    ensures Row(policies, AddrOf(k)) == Some(policies[k])
    ensures IndexKeyOf(policies[k].ip) == AddrOf(k)
  {
  }

  lemma RowsAgree(policies: Policies, policies': Policies, ik: IndexKey)
    requires RowsOk(policies) && RowsOk(policies')
    requires forall k :: AddrOf(k) == ik ==> (k in policies <==> k in policies')
    requires forall k :: AddrOf(k) == ik && k in policies && k in policies' ==> policies[k] == policies'[k]
    ensures Row(policies, ik) == Row(policies', ik)
  {
    if k: Key :| k in policies && AddrOf(k) == ik {
      RowIs(policies, k);
      RowIs(policies', k);
    }
  }

  /** Writing one row in place of any other of the same address. */
  lemma PutRow(policies: Policies, policies': Policies, k: Key, p: SharedPolicy)
    requires RowsOk(policies) && k == CompositeKey(p.lastSeenNs, p.ip)
    requires forall j :: j in policies' <==> j == k || (j in policies && AddrOf(j) != AddrOf(k))
    requires forall j :: j in policies' ==> policies'[j] == if j == k then p else policies[j]
    ensures RowsOk(policies')
    ensures forall ik :: Row(policies', ik) == if ik == AddrOf(k) then Some(p) else Row(policies, ik)
  {
    RowIs(policies', k);
    forall ik | ik != AddrOf(k) ensures Row(policies', ik) == Row(policies, ik) {
      RowsAgree(policies, policies', ik);
    }
  }

  lemma DropRows(policies: Policies, gone: set<Key>)
    requires RowsOk(policies)
    ensures RowsOk(policies - gone)
    ensures forall k :: k in policies ==> Row(policies - gone, AddrOf(k)) == if k in gone then None else Some(policies[k])
    ensures forall ik :: Row(policies - gone, ik) == None || Row(policies - gone, ik) == Row(policies, ik)
  {
    var rest := policies - gone;
    forall k | k in policies ensures Row(rest, AddrOf(k)) == if k in gone then None else Some(policies[k]) {
      RowIs(policies, k);
      if k !in gone { RowIs(rest, k); }
    }
    forall ik ensures Row(rest, ik) == None || Row(rest, ik) == Row(policies, ik) {
      if k: Key :| k in rest && AddrOf(k) == ik {
        RowIs(policies, k);
      }
    }
  }

  // ----- Merge -----

  /** A push of one item, seen from its address. */
  function Pushed(row: Option<SharedPolicy>, node: string, np: NodePolicy, now: u64): SharedPolicy
  {
    match row
    case None => NewPolicy(node, np, now)
    case Some(p) => Absorb(p, node, np, now)
  }

  /** What a list of pushes makes of the row of one address. */
  function PushedAll(row: Option<SharedPolicy>, ik: IndexKey, node: string, nps: seq<NodePolicy>, now: u64)
    : Option<SharedPolicy>
    decreases |nps|
  {
    if nps == [] then row
    else if IndexKeyOf(nps[0].ip) == ik then
      PushedAll(Some(Pushed(row, node, nps[0], now)), ik, node, nps[1..], now)
    else PushedAll(row, ik, node, nps[1..], now)
  }

  /** Under an exact index, a single merge step only reads and writes the row of its address. */
  lemma MergeOneShape(db: Db, node: string, np: NodePolicy, now: u64)
    requires RowsOk(db.policies) && IsInverse(db.policies, db.index)
    ensures var r := MergeOne(db, node, np, now);
            var ik := IndexKeyOf(np.ip);
            var p := Pushed(Row(db.policies, ik), node, np, now);
            var k := CompositeKey(p.lastSeenNs, p.ip);
            && r.Ok? && AddrOf(k) == ik
            && r.value.tombstones == db.tombstones
            && r.value.index == db.index[ik := k]
            && (forall j :: j in r.value.policies <==> j == k || (j in db.policies && AddrOf(j) != ik))
            && (forall j :: j in r.value.policies ==> r.value.policies[j] == if j == k then p else db.policies[j])
  {
    var ik := IndexKeyOf(np.ip);
    if ik in db.index {
      RowIs(db.policies, db.index[ik]);
    }
  }

  lemma MergeOneKeeps(db: Db, node: string, np: NodePolicy, now: u64)
    requires RowsOk(db.policies) && IsInverse(db.policies, db.index)
    ensures var r := MergeOne(db, node, np, now);
            && r.Ok? && RowsOk(r.value.policies) && IsInverse(r.value.policies, r.value.index)
            && r.value.tombstones == db.tombstones
            && forall ik :: Row(r.value.policies, ik) ==
                 if ik == IndexKeyOf(np.ip) then Some(Pushed(Row(db.policies, ik), node, np, now)) else Row(db.policies, ik)
  {
    MergeOneShape(db, node, np, now);
    var p := Pushed(Row(db.policies, IndexKeyOf(np.ip)), node, np, now);
    PutRow(db.policies, MergeOne(db, node, np, now).value.policies, CompositeKey(p.lastSeenNs, p.ip), p);
  }

  lemma {:induction false} MergeAllKeeps(db: Db, node: string, nps: seq<NodePolicy>, now: u64)
    requires RowsOk(db.policies) && IsInverse(db.policies, db.index)
    ensures var r := MergeAll(db, node, nps, now);
            && r.Ok? && RowsOk(r.value.policies) && IsInverse(r.value.policies, r.value.index)
            && r.value.tombstones == db.tombstones
            && forall ik :: Row(r.value.policies, ik) == PushedAll(Row(db.policies, ik), ik, node, nps, now)
    decreases |nps|
  {
    if nps != [] {
      MergeOneKeeps(db, node, nps[0], now);
      MergeAllKeeps(MergeOne(db, node, nps[0], now).value, node, nps[1..], now);
    }
  }

  lemma {:induction false} IndexOfInverts(policies: Policies, ks: seq<Key>)
    requires RowsOk(policies)
    requires forall k :: k in ks ==> k in policies
    ensures var ix := IndexOf(policies, ks);
            && (forall ik :: ik in ix ==> ix[ik] in ks && AddrOf(ix[ik]) == ik)
            && (forall k :: k in ks ==> AddrOf(k) in ix && ix[AddrOf(k)] == k)
  {
    if ks != [] {
      var n := |ks| - 1;
      assert ks == ks[..n] + [ks[n]];
      IndexOfInverts(policies, ks[..n]);
    }
  }

  lemma IndexedHasIndex(db: Db)
    requires IsInverse(db.policies, db.index)
    ensures Rebuilt(db) == db && !Legacy(db)
  {
    if db.policies != map[] {
      var k :| k in db.policies;
      assert AddrOf(k) in db.index;
    }
  }

  /** The migration on the first merge turns a legacy store into an indexed one and touches no row. */
  lemma RebuiltIsInverse(db: Db)
    requires Inv(db)
    ensures IsInverse(db.policies, Rebuilt(db).index)
    ensures Rebuilt(db).policies == db.policies && Rebuilt(db).tombstones == db.tombstones
  {
    if Legacy(db) {
      IndexOfInverts(db.policies, SortedKeys(db.policies.Keys));
    }
  }

  /** A merge never meets a missing row, keeps the invariant, and absorbs its pushes address by address. */
  lemma MergeTxnKeeps(db: Db, node: string, nps: seq<NodePolicy>, now: u64)
    requires Inv(db)
    ensures var r := MergeTxn(db, node, nps, now);
            && r.Ok? && Inv(r.value) && IsInverse(r.value.policies, r.value.index)
            && r.value.tombstones == db.tombstones
            && forall ik :: Row(r.value.policies, ik) == PushedAll(Row(db.policies, ik), ik, node, nps, now)
  {
    RebuiltIsInverse(db);
    MergeAllKeeps(Rebuilt(db), node, nps, now);
  }

  lemma {:induction false} MergeAllAppends(db: Db, node: string, xs: seq<NodePolicy>, ys: seq<NodePolicy>, now: u64)
    ensures MergeAll(db, node, xs + ys, now) ==
            match MergeAll(db, node, xs, now)
            case Ok(d) => MergeAll(d, node, ys, now)
            case Err(e) => Err(e)
    decreases |xs|
  {
    if xs == [] {
      assert xs + ys == ys;
    } else {
      assert (xs + ys)[1..] == xs[1..] + ys && (xs + ys)[0] == xs[0];
      var r := MergeOne(db, node, xs[0], now);
      if r.Ok? { MergeAllAppends(r.value, node, xs[1..], ys, now); }
    }
  }

  lemma TxnKeepsInv(db: Db, node: string, nps: seq<NodePolicy>, now: u64)
    requires Inv(db)
    ensures MergeTxn(db, node, nps, now).Ok? && Inv(MergeTxn(db, node, nps, now).value)
  {
    MergeTxnKeeps(db, node, nps, now);
  }

  /** Merging the chunks one after the other does what one transaction does. */
  ghost predicate AsOne(db: Db, node: string, chunks: seq<seq<NodePolicy>>, clock: seq<u64>, now: u64, merged: nat)
    requires |clock| == |chunks|
  {
    var after, all := MergeChunks(db, node, chunks, clock, merged), MergeTxn(db, node, Flat(chunks), now);
    all.Ok? && after.0 == all.value && after.1 == Ok(merged + |Flat(chunks)|)
  }

  /** Chunks that all read the same clock leave the very same tables. */
  lemma {:induction false} ChunksAtOneTime(db: Db, node: string, chunks: seq<seq<NodePolicy>>, clock: seq<u64>, now: u64, merged: nat)
    requires Inv(db) && chunks != []
    requires |clock| == |chunks| && forall i :: 0 <= i < |clock| ==> clock[i] == now
    ensures AsOne(db, node, chunks, clock, now, merged)
    decreases |chunks|
  {
    var first, rest := chunks[0], chunks[1..];
    assert chunks == [first] + rest;
    TxnKeepsInv(db, node, first, now);
    if rest == [] {
      OneChunk(db, node, first, clock, now, merged);
    } else {
      ChunksAtOneTime(MergeTxn(db, node, first, now).value, node, rest, clock[1..], now, merged + |first|);
      ChunkThenRest(db, node, first, rest, clock, now, merged);
    }
  }

  lemma OneChunk(db: Db, node: string, first: seq<NodePolicy>, clock: seq<u64>, now: u64, merged: nat)
    requires |clock| == 1 && clock[0] == now && MergeTxn(db, node, first, now).Ok?
    ensures AsOne(db, node, [first] + [], clock, now, merged)
  {
    assert Flat([first] + []) == first;
    FirstChunk(db, node, first, [], clock, merged);
  }

  function Flat(chunks: seq<seq<NodePolicy>>): seq<NodePolicy>
  {
    if chunks == [] then [] else chunks[0] + Flat(chunks[1..])
  }

  lemma {:induction false} ChunksAreAll(nps: seq<NodePolicy>)
    ensures Chunks(nps) != [] && Flat(Chunks(nps)) == nps
    decreases |nps|
  {
    if |nps| > CHUNK { ChunksAreAll(nps[CHUNK..]); }
  }

  /** All chunks but the last have 1000 items, and the last no more. */
  lemma {:induction false} ChunkSizes(nps: seq<NodePolicy>, i: nat)
    requires i < |Chunks(nps)|
    ensures |Chunks(nps)[i]| <= 1000 && (i < |Chunks(nps)| - 1 ==> |Chunks(nps)[i]| == 1000)
    decreases |nps|
  {
    if |nps| > CHUNK && i > 0 { ChunkSizes(nps[CHUNK..], i - 1); }
  }

  /** The two rows of an address differ in nothing but their times. */
  predicate SameButTimes(row: Option<SharedPolicy>, row': Option<SharedPolicy>)
  {
    match (row, row')
    case (None, None) => true
    case (Some(p), Some(q)) => q == p.(firstSeenNs := q.firstSeenNs, lastSeenNs := q.lastSeenNs)
    case _ => false
  }

  /** Apart from times, a list of pushes does the same whenever it is merged. */
  lemma {:induction false} PushedAnyTime(
    row: Option<SharedPolicy>, row': Option<SharedPolicy>, ik: IndexKey, node: string, nps: seq<NodePolicy>, now: u64, now': u64)
    requires SameButTimes(row, row')
    ensures SameButTimes(PushedAll(row, ik, node, nps, now), PushedAll(row', ik, node, nps, now'))
    decreases |nps|
  {
    if nps != [] {
      if IndexKeyOf(nps[0].ip) == ik {
        PushedAnyTime(Some(Pushed(row, node, nps[0], now)), Some(Pushed(row', node, nps[0], now')), ik, node, nps[1..], now, now');
      } else {
        PushedAnyTime(row, row', ik, node, nps[1..], now, now');
      }
    }
  }

  lemma {:induction false} PushedAppends(
    row: Option<SharedPolicy>, ik: IndexKey, node: string, xs: seq<NodePolicy>, ys: seq<NodePolicy>, now: u64)
    ensures PushedAll(row, ik, node, xs + ys, now) == PushedAll(PushedAll(row, ik, node, xs, now), ik, node, ys, now)
    decreases |xs|
  {
    if xs == [] {
      assert xs + ys == ys;
    } else {
      assert (xs + ys)[1..] == xs[1..] + ys && (xs + ys)[0] == xs[0];
      if IndexKeyOf(xs[0].ip) == ik {
        PushedAppends(Some(Pushed(row, node, xs[0], now)), ik, node, xs[1..], ys, now);
      } else {
        PushedAppends(row, ik, node, xs[1..], ys, now);
      }
    }
  }

  lemma ChunkThenFlat(row: Option<SharedPolicy>, row': Option<SharedPolicy>, ik: IndexKey, node: string,
    first: seq<NodePolicy>, rest: seq<NodePolicy>, t: u64, now: u64)
    requires SameButTimes(row', PushedAll(PushedAll(row, ik, node, first, t), ik, node, rest, now))
    ensures SameButTimes(row', PushedAll(row, ik, node, first + rest, now))
  {
    PushedAppends(row, ik, node, first, rest, now);
    PushedAnyTime(row, row, ik, node, first, t, now);
    PushedAnyTime(PushedAll(row, ik, node, first, t), PushedAll(row, ik, node, first, now), ik, node, rest, now, now);
  }

  /** Every row of `after` is what the push makes of it, at any time, apart from times. */
  ghost predicate HasPushed(db: Db, after: Db, node: string, nps: seq<NodePolicy>, now: u64)
  {
    && Inv(after) && after.tombstones == db.tombstones
    && forall ik :: SameButTimes(Row(after.policies, ik), PushedAll(Row(db.policies, ik), ik, node, nps, now))
  }

  lemma PushedThenRest(db: Db, after: Db, node: string, first: seq<NodePolicy>, rest: seq<NodePolicy>, t: u64, now: u64)
    requires Inv(db) && MergeTxn(db, node, first, t).Ok?
    requires HasPushed(MergeTxn(db, node, first, t).value, after, node, rest, now)
    ensures HasPushed(db, after, node, first + rest, now)
  {
    MergeTxnKeeps(db, node, first, t);
    forall ik ensures SameButTimes(Row(after.policies, ik), PushedAll(Row(db.policies, ik), ik, node, first + rest, now)) {
      ChunkThenFlat(Row(db.policies, ik), Row(after.policies, ik), ik, node, first, rest, t, now);
    }
  }

  /** Chunk after chunk, each at its own time. */
  lemma {:induction false} ChunksPush(db: Db, node: string, chunks: seq<seq<NodePolicy>>, clock: seq<u64>, now: u64, merged: nat)
    requires Inv(db) && |clock| == |chunks|
    ensures MergeChunks(db, node, chunks, clock, merged).1 == Ok(merged + |Flat(chunks)|)
    ensures HasPushed(db, MergeChunks(db, node, chunks, clock, merged).0, node, Flat(chunks), now)
    decreases |chunks|
  {
    if chunks != [] {
      var first, rest := chunks[0], chunks[1..];
      TxnKeepsInv(db, node, first, clock[0]);
      var d := MergeTxn(db, node, first, clock[0]).value;
      ChunksPush(d, node, rest, clock[1..], now, merged + |first|);
      PushedThenRest(db, MergeChunks(d, node, rest, clock[1..], merged + |first|).0, node, first, Flat(rest), clock[0], now);
    }
  }

  /**
   Cutting a push into chunks, any chunks, each with its own clock reading, gives
   every row the contents, apart from times, that one transaction gives it.
   */
  lemma ChunkingIsInvisible(db: Db, node: string, chunks: seq<seq<NodePolicy>>, clock: seq<u64>, now: u64, merged: nat)
    requires Inv(db) && |clock| == |chunks|
    ensures MergeTxn(db, node, Flat(chunks), now).Ok?
    ensures var after := MergeChunks(db, node, chunks, clock, merged);
            && after.1 == Ok(merged + |Flat(chunks)|)
            && forall ik :: SameButTimes(Row(after.0.policies, ik), Row(MergeTxn(db, node, Flat(chunks), now).value.policies, ik))
  {
    ChunksPush(db, node, chunks, clock, now, merged);
    MergeTxnKeeps(db, node, Flat(chunks), now);
  }

  /** The push as it is cut: the rows of one transaction apart from times, and its very tables if the clock stood still. */
  lemma PushIsOneMerge(db: Db, node: string, nps: seq<NodePolicy>, clock: seq<u64>, now: u64)
    requires Inv(db) && |clock| == |Chunks(nps)|
    ensures MergeTxn(db, node, nps, now).Ok?
    ensures var after, all := MergeChunks(db, node, Chunks(nps), clock, 0), MergeTxn(db, node, nps, now).value;
            && after.1 == Ok(|nps|)
            && (forall ik :: SameButTimes(Row(after.0.policies, ik), Row(all.policies, ik)))
            && ((forall i :: 0 <= i < |clock| ==> clock[i] == now) ==> after.0 == all)
  {
    ChunksAreAll(nps);
    ChunkingIsInvisible(db, node, Chunks(nps), clock, now, 0);
    if forall i :: 0 <= i < |clock| ==> clock[i] == now {
      ChunksAtOneTime(db, node, Chunks(nps), clock, now, 0);
    }
  }

  lemma ChunkThenRest(db: Db, node: string, first: seq<NodePolicy>, rest: seq<seq<NodePolicy>>, clock: seq<u64>, now: u64, merged: nat)
    requires Inv(db) && |clock| == |rest| + 1 && clock[0] == now && MergeTxn(db, node, first, now).Ok?
    requires AsOne(MergeTxn(db, node, first, now).value, node, rest, clock[1..], now, merged + |first|)
    ensures AsOne(db, node, [first] + rest, clock, now, merged)
  {
    assert ([first] + rest)[1..] == rest;
    assert Flat([first] + rest) == first + Flat(rest);
    SplitAtOneTime(db, node, first, Flat(rest), now);
    FirstChunk(db, node, first, rest, clock, merged);
  }

  lemma FirstChunk(db: Db, node: string, first: seq<NodePolicy>, rest: seq<seq<NodePolicy>>, clock: seq<u64>, merged: nat)
    requires |clock| == |rest| + 1
    requires MergeTxn(db, node, first, clock[0]).Ok?
    ensures MergeChunks(db, node, [first] + rest, clock, merged)
            == MergeChunks(MergeTxn(db, node, first, clock[0]).value, node, rest, clock[1..], merged + |first|)
  {
    assert ([first] + rest)[1..] == rest;
  }

  lemma SplitAtOneTime(db: Db, node: string, first: seq<NodePolicy>, rest: seq<NodePolicy>, now: u64)
    requires Inv(db)
    ensures MergeTxn(db, node, first, now).Ok?
    ensures MergeTxn(db, node, first + rest, now) == MergeTxn(MergeTxn(db, node, first, now).value, node, rest, now)
  {
    MergeTxnKeeps(db, node, first, now);
    MergeAllAppends(Rebuilt(db), node, first, rest, now);
    IndexedHasIndex(MergeTxn(db, node, first, now).value);
  }

  /** Two transactions, at any two times, do what one does apart from times. */
  lemma SplitMerge(db: Db, node: string, first: seq<NodePolicy>, rest: seq<NodePolicy>, t1: u64, t2: u64, now: u64)
    requires Inv(db)
    ensures var d := MergeTxn(db, node, first, t1);
            && d.Ok? && MergeTxn(d.value, node, rest, t2).Ok? && MergeTxn(db, node, first + rest, now).Ok?
            && forall ik :: SameButTimes(Row(MergeTxn(d.value, node, rest, t2).value.policies, ik),
                                         Row(MergeTxn(db, node, first + rest, now).value.policies, ik))
  {
    MergeTxnKeeps(db, node, first, t1);
    var d := MergeTxn(db, node, first, t1).value;
    MergeTxnKeeps(d, node, rest, t2);
    MergeTxnKeeps(db, node, first + rest, now);
    var d2 := MergeTxn(d, node, rest, t2).value;
    forall ik ensures SameButTimes(Row(d2.policies, ik), PushedAll(Row(db.policies, ik), ik, node, first + rest, now)) {
      PushedAnyTime(Row(d.policies, ik), Row(d.policies, ik), ik, node, rest, t2, now);
      ChunkThenFlat(Row(db.policies, ik), Row(d2.policies, ik), ik, node, first, rest, t1, now);
    }
  }

  // ----- Delete -----

  /** A delete removes the row of its address, except that the scan of a legacy store compares whole keys. */
  ghost predicate Removes(db: Db, ip: IpKey, ik: IndexKey)
  {
    ik == IndexKeyOf(ip) && (Legacy(db) && Row(db.policies, ik).Some? ==> Row(db.policies, ik).value.ip == ip)
  }

  lemma DoomedRows(db: Db, ip: IpKey)
    requires Inv(db)
    ensures Doomed(db, ip) <= db.policies.Keys
    ensures forall k :: k in db.policies ==> (k in Doomed(db, ip) <==> Removes(db, ip, AddrOf(k)))
  {
    forall k | k in db.policies ensures k in Doomed(db, ip) <==> Removes(db, ip, AddrOf(k)) {
      RowIs(db.policies, k);
    }
  }

  lemma DeleteIndexKeeps(db: Db, ip: IpKey)
    requires Inv(db)
    ensures db.index == map[] ==> DeleteOne(db, ip).index == map[]
    ensures IsInverse(db.policies, db.index) ==> IsInverse(DeleteOne(db, ip).policies, DeleteOne(db, ip).index)
  {
    DoomedRows(db, ip);
    if IsInverse(db.policies, db.index) { IndexedHasIndex(db); }
  }

  lemma DeleteOneKeeps(db: Db, ip: IpKey)
    requires Inv(db)
    ensures var d := DeleteOne(db, ip);
            && Inv(d) && d.tombstones == db.tombstones
            && (IsInverse(db.policies, db.index) ==> IsInverse(d.policies, d.index))
            && forall ik :: Row(d.policies, ik) == if Removes(db, ip, ik) then None else Row(db.policies, ik)
  {
    DropRows(db.policies, Doomed(db, ip));
    DeleteIndexKeeps(db, ip);
    DoomedRows(db, ip);
    forall ik ensures Row(DeleteOne(db, ip).policies, ik) == if Removes(db, ip, ik) then None else Row(db.policies, ik) {
      if k: Key :| k in db.policies && AddrOf(k) == ik {
        RowIs(db.policies, k);
      }
    }
  }

  ghost predicate Named(ips: seq<IpKey>, ik: IndexKey)
  {
    exists i :: 0 <= i < |ips| && IndexKeyOf(ips[i]) == ik
  }

  lemma {:induction false} DeleteAllKeeps(db: Db, ips: seq<IpKey>)
    requires Inv(db)
    ensures var d := DeleteAll(db, ips);
            && Inv(d) && d.tombstones == db.tombstones
            && (forall ik :: Row(d.policies, ik) == None || Row(d.policies, ik) == Row(db.policies, ik))
            && (IsInverse(db.policies, db.index) ==>
                && IsInverse(d.policies, d.index)
                && forall ik :: Row(d.policies, ik) == if Named(ips, ik) then None else Row(db.policies, ik))
    decreases |ips|
  {
    if ips != [] {
      DeleteOneKeeps(db, ips[0]);
      DeleteAllKeeps(DeleteOne(db, ips[0]), ips[1..]);
      forall ik ensures Named(ips, ik) <==> IndexKeyOf(ips[0]) == ik || Named(ips[1..], ik) {
        if i :| 0 <= i < |ips| && IndexKeyOf(ips[i]) == ik && i > 0 {
          assert ips[1..][i - 1] == ips[i];
        }
        if i :| 0 <= i < |ips[1..]| && IndexKeyOf(ips[1..][i]) == ik {
          assert ips[i + 1] == ips[1..][i];
        }
      }
      if IsInverse(db.policies, db.index) { IndexedHasIndex(db); }
    }
  }

  lemma DeleteTxnKeeps(db: Db, ips: seq<IpKey>, now: u64)
    requires Inv(db)
    ensures var d := DeleteTxn(db, ips, now);
            && Inv(d) && d.tombstones == db.tombstones + (set ip | ip in ips :: CompositeKey(now, ip))
            && (forall ik :: Row(d.policies, ik) == None || Row(d.policies, ik) == Row(db.policies, ik))
            && (IsInverse(db.policies, db.index) ==>
                && IsInverse(d.policies, d.index)
                && forall ik :: Row(d.policies, ik) == if Named(ips, ik) then None else Row(db.policies, ik))
  {
    DeleteAllKeeps(db, ips);
  }

  /**
   A deleted address keeps its row exactly when the store is still without index
   and the stored address differs from the requested one in its padding.
   */
  lemma DeleteMissesIff(db: Db, ip: IpKey, now: u64)
    requires Inv(db) && Row(db.policies, IndexKeyOf(ip)).Some?
    ensures Row(DeleteTxn(db, [ip], now).policies, IndexKeyOf(ip)).Some?
            <==> Legacy(db) && Row(db.policies, IndexKeyOf(ip)).value.ip.padding != ip.padding
  {
    var ik := IndexKeyOf(ip);
    var d := DeleteOne(db, ip);
    DeleteOneKeeps(db, ip);
    assert DeleteAll(db, [ip]) == DeleteAll(d, []) == d;
    var k: Key :| k in db.policies && AddrOf(k) == ik;
    RowIs(db.policies, k);
    var stored := db.policies[k].ip;
    assert stored.family == IndexKeyOf(stored)[0] && stored.addr == IndexKeyOf(stored)[1..];
    assert ip.family == IndexKeyOf(ip)[0] && ip.addr == IndexKeyOf(ip)[1..];
  }

  // ----- Prune -----

  /** Saturation never decides: a row expires exactly at its own last seen time plus its ttl. */
  lemma ExpiredMeans(p: SharedPolicy, now: u64)
    ensures Expired(p, now) <==> p.ttlS != 0 && p.lastSeenNs + p.ttlS * NS_PER_S < now
  {
  }

  lemma PruneIndexKeeps(db: Db, stale: set<Key>)
    requires Inv(db) && stale <= db.policies.Keys
    ensures var ix := db.index - set k | k in stale :: IndexKeyOf(db.policies[k].ip);
            && (db.index == map[] ==> ix == map[])
            && (IsInverse(db.policies, db.index) ==> IsInverse(db.policies - stale, ix))
  {
    forall k | k in db.policies ensures IndexKeyOf(db.policies[k].ip) == AddrOf(k) {
      RowIs(db.policies, k);
    }
    assert (set k | k in stale :: IndexKeyOf(db.policies[k].ip)) == set k | k in stale :: AddrOf(k);
  }

  /** Prune removes exactly the rows past their ttl and the tombstones past the retention time. */
  lemma PruneTxnKeeps(db: Db, now: u64, tombstoneTtlNs: u64)
    requires Inv(db)
    ensures var d := PruneTxn(db, now, tombstoneTtlNs);
            && Inv(d)
            && (IsInverse(db.policies, db.index) ==> IsInverse(d.policies, d.index))
            && (forall k :: k in d.tombstones <==> k in db.tombstones && now <= Stamp(k) + tombstoneTtlNs)
            && (forall ik :: Row(d.policies, ik) ==
                  if Row(db.policies, ik).Some? && Expired(Row(db.policies, ik).value, now) then None else Row(db.policies, ik))
  {
    var stale := ExpiredKeys(db.policies, now);
    PruneIndexKeeps(db, stale);
    PrunedRows(db.policies, now);
  }

  lemma PrunedRows(policies: Policies, now: u64)
    requires RowsOk(policies)
    ensures var rest := policies - ExpiredKeys(policies, now);
            && RowsOk(rest)
            && forall ik :: Row(rest, ik) ==
                 if Row(policies, ik).Some? && Expired(Row(policies, ik).value, now) then None else Row(policies, ik)
  {
    var stale := ExpiredKeys(policies, now);
    DropRows(policies, stale);
    forall k | k in policies ensures k in stale <==> Expired(Row(policies, AddrOf(k)).value, now) {
      RowIs(policies, k);
    }
  }
}
