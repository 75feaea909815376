/**
 The hub's policy store: a policies table keyed by (last seen, address), a
 secondary index from address to key, and a table of tombstones. Every write
 runs on copies of the tables that are assigned back when the transaction
 commits; a transaction that fails leaves the store as it was.
 */
module HubStore {
  import opened Words
  import opened HubKeys

  const CHUNK := 1000

  datatype SharedPolicy = SharedPolicy(
    ip: IpKey, reason: u8, hitCount: u32, trustScore: u32,
    firstSeenNs: u64, lastSeenNs: u64, sourceNodes: seq<string>, ttlS: u64)

  datatype NodePolicy = NodePolicy(ip: IpKey, reason: u8, hitCount: u32, trustScore: u32, ttlS: u64)

  datatype StoreError = MissingRow

  type Policies = map<Key, SharedPolicy>
  type Index = map<IndexKey, Key>

  datatype Db = Db(policies: Policies, index: Index, tombstones: set<Key>)

  // ----- What each transaction computes -----

  function NewPolicy(node: string, np: NodePolicy, now: u64): SharedPolicy
  {
    SharedPolicy(np.ip, np.reason, np.hitCount, np.trustScore, now, now, [node], np.ttlS)
  }

  /** A push for an address that already has a row. A ttl of 0 means for ever and wins. */
  function Absorb(p: SharedPolicy, node: string, np: NodePolicy, now: u64): SharedPolicy
  {
    p.(reason := np.reason,
       hitCount := Max(p.hitCount, np.hitCount),
       trustScore := Min(p.trustScore, np.trustScore),
       sourceNodes := if node in p.sourceNodes then p.sourceNodes else p.sourceNodes + [node],
       ttlS := if p.ttlS == 0 || np.ttlS == 0 then 0 else Max(p.ttlS, np.ttlS),
       lastSeenNs := Max(p.lastSeenNs, now),
       firstSeenNs := Min(p.firstSeenNs, now))
  }

  function MergeOne(db: Db, node: string, np: NodePolicy, now: u64): Result<Db, StoreError>
  {
    var ik := IndexKeyOf(np.ip);
    if ik in db.index then
      var oldKey := db.index[ik];
      if oldKey !in db.policies then Err(MissingRow)
      else
        var p := Absorb(db.policies[oldKey], node, np, now);
        var newKey := CompositeKey(p.lastSeenNs, p.ip);
        var rest := if oldKey != newKey then db.policies - {oldKey} else db.policies;
        Ok(db.(policies := rest[newKey := p], index := db.index[ik := newKey]))
    else
      var p := NewPolicy(node, np, now);
      var newKey := CompositeKey(p.lastSeenNs, p.ip);
      Ok(db.(policies := db.policies[newKey := p], index := db.index[ik := newKey]))
  }

  function MergeAll(db: Db, node: string, nps: seq<NodePolicy>, now: u64): Result<Db, StoreError>
    decreases |nps|
  {
    if nps == [] then Ok(db)
    else match MergeOne(db, node, nps[0], now)
      case Ok(d) => MergeAll(d, node, nps[1..], now)
      case Err(e) => Err(e)
  }

  /** The index written by scanning the rows `ks` of the table in order. */
  function IndexOf(policies: Policies, ks: seq<Key>): Index
    requires forall k :: k in ks ==> k in policies
  {
    if ks == [] then map[]
    else
      var n := |ks| - 1;
      IndexOf(policies, ks[..n])[IndexKeyOf(policies[ks[n]].ip) := ks[n]]
  }

  lemma IndexOfNext(policies: Policies, ks: seq<Key>, i: nat)
    requires i < |ks| && forall k :: k in ks ==> k in policies
    ensures ks[i] in policies
    ensures IndexOf(policies, ks[..i + 1]) == IndexOf(policies, ks[..i])[IndexKeyOf(policies[ks[i]].ip) := ks[i]]
  {
    assert ks[..i + 1][..i] == ks[..i] && ks[..i + 1][i] == ks[i];
  }

  /** A store written before the index existed gets its index on the first merge. */
  function Rebuilt(db: Db): Db
  {
    if db.index == map[] && db.policies != map[] then
      db.(index := IndexOf(db.policies, SortedKeys(db.policies.Keys)))
    else db
  }

  function MergeTxn(db: Db, node: string, nps: seq<NodePolicy>, now: u64): Result<Db, StoreError>
  {
    MergeAll(Rebuilt(db), node, nps, now)
  }

  /** A large push is cut into chunks of `CHUNK` items. */
  function Chunks(nps: seq<NodePolicy>): seq<seq<NodePolicy>>
    decreases |nps|
  {
    if |nps| <= CHUNK then [nps] else [nps[..CHUNK]] + Chunks(nps[CHUNK..])
  }

  /** One transaction per chunk, each with its own clock reading; chunks before a failing one stay committed. */
  function MergeChunks(db: Db, node: string, chunks: seq<seq<NodePolicy>>, clock: seq<u64>, merged: nat)
    : (Db, Result<nat, StoreError>)
    requires |clock| >= |chunks|
    decreases |chunks|
  {
    if chunks == [] then (db, Ok(merged))
    else match MergeTxn(db, node, chunks[0], clock[0])
      case Err(e) => (db, Err(e))
      case Ok(d) => MergeChunks(d, node, chunks[1..], clock[1..], merged + |chunks[0]|)
  }

  /** The rows a delete of `ip` removes: the indexed one or, without index entry, those found by scanning. */
  function Doomed(db: Db, ip: IpKey): set<Key>
  {
    var ik := IndexKeyOf(ip);
    if ik in db.index then {db.index[ik]} * db.policies.Keys
    else set k | k in db.policies && db.policies[k].ip == ip
  }

  function DeleteOne(db: Db, ip: IpKey): Db
  {
    db.(policies := db.policies - Doomed(db, ip), index := db.index - {IndexKeyOf(ip)})
  }

  function DeleteAll(db: Db, ips: seq<IpKey>): Db
    decreases |ips|
  {
    if ips == [] then db else DeleteAll(DeleteOne(db, ips[0]), ips[1..])
  }

  function DeleteTxn(db: Db, ips: seq<IpKey>, now: u64): Db
  {
    DeleteAll(db, ips).(tombstones := db.tombstones + set ip | ip in ips :: CompositeKey(now, ip))
  }

  predicate Expired(p: SharedPolicy, now: u64)
  {
    p.ttlS != 0 && SatAdd(p.lastSeenNs, SatMul(p.ttlS, NS_PER_S)) < now
  }

  function ExpiredKeys(policies: Policies, now: u64): set<Key>
  {
    set k | k in policies && Expired(policies[k], now)
  }

  function ExpiredTombstones(tombstones: set<Key>, now: u64, ttlNs: u64): set<Key>
  {
    set k | k in tombstones && SatAdd(Stamp(k), ttlNs) < now
  }

  function PruneTxn(db: Db, now: u64, tombstoneTtlNs: u64): Db
  {
    var stale := ExpiredKeys(db.policies, now);
    Db(db.policies - stale,
       db.index - set k | k in stale :: IndexKeyOf(db.policies[k].ip),
       db.tombstones - ExpiredTombstones(db.tombstones, now, tombstoneTtlNs))
  }

  // ----- Paging -----

  /** The keys of a scan with lo < time <= hi. */
  function Between(ks: seq<Key>, lo: u64, hi: u64): seq<Key>
  {
    if ks == [] then []
    else
      var front := Between(ks[..|ks| - 1], lo, hi);
      var k := ks[|ks| - 1];
      if lo < Stamp(k) <= hi then front + [k] else front
  }

  /** Where a page of a scan ends: at the time of the key after the first `limit` newer ones, or of the last key. */
  function PageEnd(ks: seq<Key>, since: u64, limit: nat): u64
  {
    var newer := Between(ks, since, U64_MAX);
    if limit == 0 || newer == [] then since else Stamp(newer[Min(limit, |newer| - 1)])
  }

  /** The address a tombstone key names. */
  function DecodeIp(k: Key): (ip: IpKey)
    ensures IndexKeyOf(ip) == k[8..]
  {
    IpKey(k[8], k[9..], seq(15, _ => 0))
  }

  // ----- The store -----

  function RowsAt(table: Policies, keys: seq<Key>): (rows: seq<SharedPolicy>)
    requires forall k :: k in keys ==> k in table
    ensures |rows| == |keys| && forall i :: 0 <= i < |keys| ==> keys[i] in table && rows[i] == table[keys[i]]
  {
    seq(|keys|, i requires 0 <= i < |keys| => assert keys[i] in keys; table[keys[i]])
  }

  class Store {
    var policies: Policies
    var index: Index
    var tombstones: set<Key>

    function State(): Db
      reads this
    {
      Db(policies, index, tombstones)
    }

    constructor ()
      ensures State() == Db(map[], map[], {})
    {
      policies, index, tombstones := map[], map[], {};
    }

    method Merge(nodeName: string, nps: seq<NodePolicy>, clock: seq<u64>) returns (r: Result<nat, StoreError>)
      requires |clock| >= |Chunks(nps)|
      modifies this
      ensures (State(), r) == MergeChunks(old(State()), nodeName, Chunks(nps), clock, 0)
    {
      var merged: nat := 0;
      var chunks := Chunks(nps);
      for i := 0 to |chunks|
        invariant MergeChunks(old(State()), nodeName, chunks, clock, 0)
               == MergeChunks(State(), nodeName, chunks[i..], clock[i..], merged)
      {
        assert chunks[i..][0] == chunks[i] && chunks[i..][1..] == chunks[i + 1..];
        assert clock[i..][0] == clock[i] && clock[i..][1..] == clock[i + 1..];
        r := MergeChunk(nodeName, chunks[i], clock[i]);
        if r.Err? { return; }
        merged := merged + r.value;
      }
      r := Ok(merged);
    }

    method MergeChunk(nodeName: string, nps: seq<NodePolicy>, now: u64) returns (r: Result<nat, StoreError>)
      modifies this
      ensures match MergeTxn(old(State()), nodeName, nps, now)
              case Ok(db) => State() == db && r == Ok(|nps|)
              case Err(e) => State() == old(State()) && r == Err(e)
    {
      var table, ix, merged := policies, index, 0;
      if |ix| == 0 && |table| > 0 {
        ix := RebuildIndex();
      }
      assert MergeTxn(State(), nodeName, nps, now) == MergeAll(Db(table, ix, tombstones), nodeName, nps, now);
      for i := 0 to |nps|
        invariant merged == i
        invariant MergeTxn(State(), nodeName, nps, now) == MergeAll(Db(table, ix, tombstones), nodeName, nps[i..], now)
      {
        var node := nps[i];
        var indexKey := IndexKeyOf(node.ip);
        var policy;
        if indexKey in ix {
          var oldKey := ix[indexKey];
          if oldKey !in table {
            return Err(MissingRow);
          }
          policy := Absorb(table[oldKey], nodeName, node, now);
          if oldKey != CompositeKey(policy.lastSeenNs, policy.ip) {
            table := table - {oldKey};
          }
        } else {
          policy := NewPolicy(nodeName, node, now);
        }
        var newKey := CompositeKey(policy.lastSeenNs, policy.ip);
        table := table[newKey := policy];
        ix := ix[indexKey := newKey];
        merged := merged + 1;
        assert nps[i..][0] == node && nps[i..][1..] == nps[i + 1..];
      }
      policies, index := table, ix;
      r := Ok(merged);
    }

    method RebuildIndex() returns (ix: Index)
      ensures ix == IndexOf(policies, SortedKeys(policies.Keys))
    {
      var rows := SortedKeys(policies.Keys);
      ix := map[];
      for i := 0 to |rows|
        invariant ix == IndexOf(policies, rows[..i])
      {
        IndexOfNext(policies, rows, i);
        ix := ix[IndexKeyOf(policies[rows[i]].ip) := rows[i]];
      }
      assert rows[..|rows|] == rows;
    }

    method DeletePolicies(ips: seq<IpKey>, now: u64) returns (removed: nat)
      modifies this
      ensures ips == [] ==> State() == old(State())
      ensures ips != [] ==> State() == DeleteTxn(old(State()), ips, now)
      ensures removed == |old(policies)| - |policies|
    {
      if ips == [] { return 0; }
      var table, ix := policies, index;
      removed := 0;
      for i := 0 to |ips|
        invariant unchanged(this)
        invariant DeleteAll(State(), ips) == DeleteAll(Db(table, ix, tombstones), ips[i..])
        invariant removed == |policies| - |table|
      {
        assert ips[i..][0] == ips[i] && ips[i..][1..] == ips[i + 1..];
        var n;
        table, ix, n := DeleteRow(table, ix, tombstones, ips[i]);
        removed := removed + n;
      }
      var tomb := Tombstones(tombstones, ips, now);
      policies, index, tombstones := table, ix, tomb;
    }

    method Prune(now: u64, tombstoneTtlNs: u64) returns (policiesRemoved: nat, tombstonesRemoved: nat)
      modifies this
      ensures State() == PruneTxn(old(State()), now, tombstoneTtlNs)
      ensures policiesRemoved == |ExpiredKeys(old(policies), now)|
      ensures tombstonesRemoved == |ExpiredTombstones(old(tombstones), now, tombstoneTtlNs)|
    {
      var stale, ips := StalePolicies(policies, now);
      var dead := StaleTombstones(tombstones, now, tombstoneTtlNs);
      policiesRemoved, tombstonesRemoved := |stale|, |dead|;
      policies, index, tombstones := policies - stale, index - ips, tombstones - dead;
    }

    /** `query_since`: the rows of one page and the cursor to ask from next. */
    method QuerySince(since: u64, limit: nat) returns (page: seq<SharedPolicy>, cursor: u64)
      ensures var keys := Between(SortedKeys(policies.Keys), since, cursor);
              && cursor == PageEnd(SortedKeys(policies.Keys), since, limit)
              && IsPage(policies.Keys, since, limit, keys, cursor)
              && page == RowsAt(policies, keys)
    {
      var keys;
      keys, cursor := ScanPage(SortedKeys(policies.Keys), since, limit);
      PageEndIsPage(policies.Keys, since, limit);
      page := RowsAt(policies, keys);
    }

    /** `query_tombstones_since`: the same paging over the deleted addresses, decoded from their keys. */
    method QueryTombstonesSince(since: u64, limit: nat) returns (page: seq<IpKey>, cursor: u64)
      ensures var ks := SortedKeys(tombstones);
              && cursor == PageEnd(ks, since, limit)
              && IsPage(tombstones, since, limit, Between(ks, since, cursor), cursor)
              && |page| == |Between(ks, since, cursor)|
              && forall i :: 0 <= i < |page| ==> IndexKeyOf(page[i]) == Between(ks, since, cursor)[i][8..]
    {
      var keys;
      keys, cursor := ScanPage(SortedKeys(tombstones), since, limit);
      PageEndIsPage(tombstones, since, limit);
      page := seq(|keys|, i requires 0 <= i < |keys| => DecodeIp(keys[i]));
    }
  }

  method DeleteRow(table: Policies, ix: Index, ghost tombstones: set<Key>, ip: IpKey)
    returns (table': Policies, ix': Index, removed: nat)
    ensures Db(table', ix', tombstones) == DeleteOne(Db(table, ix, tombstones), ip)
    ensures removed == |table| - |table'|
  {
    ghost var doomed := Doomed(Db(table, ix, tombstones), ip);
    var indexKey := IndexKeyOf(ip);
    if indexKey in ix {
      removed := if ix[indexKey] in table then 1 else 0;
      table' := table - {ix[indexKey]};
      if ix[indexKey] in table {
        SizeWithout(table, ix[indexKey]);
      } else {
        assert table' == table;
      }
      assert table' == table - doomed;
    } else {
      // No index entry: fall back to one scan of the table.
      table', removed := ScanDelete(table, ip);
      assert table' == table - doomed;
    }
    ix' := ix - {indexKey};
  }

  method ScanDelete(table: Policies, ip: IpKey) returns (table': Policies, removed: nat)
    ensures table' == table - set k | k in table && table[k].ip == ip
    ensures removed == |table| - |table'|
  {
    var toRemove := RowsOf(table, ip);
    table', removed := table - toRemove, |toRemove|;
    assert table'.Keys == table.Keys - toRemove;
  }

  /** The scanned keys that pass a test. */
  function Passing(ks: seq<Key>, test: Key -> bool): set<Key> { set k | k in ks && test(k) }

  lemma PassingNext(ks: seq<Key>, i: nat, test: Key -> bool)
    requires i < |ks|
    ensures Passing(ks[..i + 1], test) == Passing(ks[..i], test) + if test(ks[i]) then {ks[i]} else {}
  {
    assert ks[..i + 1] == ks[..i] + [ks[i]];
  }

  method RowsOf(table: Policies, ip: IpKey) returns (found: set<Key>)
    ensures found == set k | k in table && table[k].ip == ip
  {
    var rows := SortedKeys(table.Keys);
    ghost var test := (k: Key) => k in table && table[k].ip == ip;
    found := {};
    for j := 0 to |rows|
      invariant found == Passing(rows[..j], test)
    {
      PassingNext(rows, j, test);
      assert rows[j] in rows;
      if table[rows[j]].ip == ip {
        found := found + {rows[j]};
      }
    }
    assert rows[..|rows|] == rows;
  }

  method Tombstones(marks: set<Key>, ips: seq<IpKey>, now: u64) returns (tomb: set<Key>)
    ensures tomb == marks + set ip | ip in ips :: CompositeKey(now, ip)
  {
    tomb := marks;
    for i := 0 to |ips|
      invariant tomb == marks + set ip | ip in ips[..i] :: CompositeKey(now, ip)
    {
      assert ips[..i + 1] == ips[..i] + [ips[i]];
      tomb := tomb + {CompositeKey(now, ips[i])};
    }
    assert ips[..|ips|] == ips;
  }

  method StalePolicies(policies: Policies, now: u64) returns (stale: set<Key>, ips: set<IndexKey>)
    ensures stale == ExpiredKeys(policies, now)
    ensures ips == set k | k in stale :: IndexKeyOf(policies[k].ip)
  {
    var rows := SortedKeys(policies.Keys);
    ghost var test := (k: Key) => k in policies && Expired(policies[k], now);
    stale, ips := {}, {};
    for i := 0 to |rows|
      invariant stale == Passing(rows[..i], test)
      invariant ips == AddressesOf(policies, stale)
    {
      PassingNext(rows, i, test);
      assert rows[i] in rows;
      if Expired(policies[rows[i]], now) {
        stale := stale + {rows[i]};
        ips := ips + {IndexKeyOf(policies[rows[i]].ip)};
      }
    }
    assert rows[..|rows|] == rows;
  }

  function AddressesOf(policies: Policies, ks: set<Key>): set<IndexKey>
    requires ks <= policies.Keys
  {
    set k | k in ks :: IndexKeyOf(policies[k].ip)
  }

  method StaleTombstones(tombstones: set<Key>, now: u64, ttlNs: u64) returns (dead: set<Key>)
    ensures dead == ExpiredTombstones(tombstones, now, ttlNs)
  {
    var marks := SortedKeys(tombstones);
    dead := {};
    for i := 0 to |marks|
      invariant dead == set k | k in marks[..i] && SatAdd(Stamp(k), ttlNs) < now
    {
      assert marks[..i + 1] == marks[..i] + [marks[i]];
      if SatAdd(Stamp(marks[i]), ttlNs) < now {
        dead := dead + {marks[i]};
      }
    }
    assert marks[..|marks|] == marks;
  }

  /** The first key a range scan after `since` may return. */
  function RangeStart(since: u64): Key
  {
    CompositeKey(SatAdd(since, 1), IpKey(0, seq(16, _ => 0), []))
  }

  lemma BelowRangeStart(k: Key, since: u64)
    requires LexLess(k, RangeStart(since))
    ensures Stamp(k) <= since
  {
    var start := RangeStart(since);
    var i :| 0 <= i < 25 && k[..i] == start[..i] && k[i] < start[i];
    assert start[8..] == IndexKeyOf(IpKey(0, seq(16, _ => 0), []));
    assert forall j :: 8 <= j < 25 ==> start[8..][j - 8] == start[j] == 0;
    assert k[..8][..i] == k[..i] && start[..8][..i] == start[..i];
    assert LexLess(k[..8], start[..8]);
    LexIsNumeric(k[..8], start[..8]);
  }

  /** The table's range begins at `RangeStart`; the guard on time covers since == u64::MAX. */
  method InRange(k: Key, since: u64) returns (yes: bool)
    ensures yes <==> Stamp(k) > since
  {
    if LexLess(k, RangeStart(since)) {
      BelowRangeStart(k, since);
      return false;
    }
    yes := Stamp(k) > since;
  }

  /** The range scan both queries share: from the first key after `since` to the end of the page. */
  method ScanPage(ks: seq<Key>, since: u64, limit: nat) returns (page: seq<Key>, cursor: u64)
    requires Ascending(ks)
    ensures cursor == PageEnd(ks, since, limit)
    ensures page == Between(ks, since, cursor)
  {
    NothingBetween(ks, since);
    NewerIsSuffix(ks, since);
    if limit == 0 {
      return [], since;
    }
    ghost var older := |ks| - |Between(ks, since, U64_MAX)|;
    ghost var end;
    page, cursor, end := FillPage(ks, since, limit, older);
    PageIsBetween(ks, since, cursor, older, end);
  }

  method FillPage(ks: seq<Key>, since: u64, limit: nat, ghost older: nat)
    returns (page: seq<Key>, cursor: u64, ghost end: nat)
    requires older <= |ks|
    requires forall i :: 0 <= i < |ks| ==> (older <= i <==> Stamp(ks[i]) > since)
    ensures older <= end <= |ks| && page == ks[older..end]
    ensures cursor == if end == older then since else Stamp(ks[end - 1])
    ensures older < end < |ks| ==> Stamp(ks[end]) != cursor
    ensures older < end ==> cursor == Stamp(ks[Min(older + limit, |ks| - 1)])
    ensures older < |ks| ==> older < end
  {
    page, cursor := [], since;
    var cutoff: Option<u64> := None;
    var j := 0;
    while j < |ks|
      invariant 0 <= j <= |ks|
      invariant |page| == Max(0, j - older)
      invariant forall i :: 0 <= i < |page| ==> page[i] == ks[older + i]
      invariant cursor == if j <= older then since else Stamp(ks[j - 1])
      invariant j > older + limit <==> cutoff.Some?
      invariant cutoff.Some? ==> cursor == cutoff.value == Stamp(ks[older + limit])
    {
      var key := ks[j];
      var lastSeen := Stamp(key);
      var inRange := InRange(key, since);
      if !inRange {
        j := j + 1;
        continue;
      }
      if cutoff.Some? {
        if lastSeen != cutoff.value { break; }
      } else if |page| >= limit {
        cutoff := Some(lastSeen);
      }
      page := page + [key];
      cursor := lastSeen;
      j := j + 1;
    }
    end := Max(older, j);
  }

  lemma SizeWithout<K, V>(m: map<K, V>, k: K)
    requires k in m
    ensures |m - {k}| == |m| - 1
  {
    assert (m - {k}).Keys == m.Keys - {k};
  }

  lemma {:induction false} BetweenMembers(ks: seq<Key>, lo: u64, hi: u64)
    ensures forall k :: k in Between(ks, lo, hi) <==> k in ks && lo < Stamp(k) <= hi
  {
    if ks != [] {
      BetweenMembers(ks[..|ks| - 1], lo, hi);
      assert ks == ks[..|ks| - 1] + [ks[|ks| - 1]];
    }
  }

  lemma {:induction false} NothingBetween(ks: seq<Key>, lo: u64)
    ensures Between(ks, lo, lo) == []
  {
    if ks != [] { NothingBetween(ks[..|ks| - 1], lo); }
  }

  function Select<T>(xs: seq<T>, keep: T -> bool): seq<T>
  {
    if xs == [] then []
    else
      var front := Select(xs[..|xs| - 1], keep);
      if keep(xs[|xs| - 1]) then front + [xs[|xs| - 1]] else front
  }

  lemma {:induction false} BetweenIsSelect(ks: seq<Key>, lo: u64, hi: u64, keep: Key -> bool)
    requires forall i :: 0 <= i < |ks| ==> (keep(ks[i]) <==> lo < Stamp(ks[i]) <= hi)
    ensures Between(ks, lo, hi) == Select(ks, keep)
  {
    if ks != [] { BetweenIsSelect(ks[..|ks| - 1], lo, hi, keep); }
  }

  /** If what is kept stays kept, it starts somewhere. */
  lemma {:induction false} FirstKept<T>(xs: seq<T>, keep: T -> bool, n: nat) returns (a: nat)
    requires n <= |xs| && forall i, j :: 0 <= i < j < |xs| && keep(xs[i]) ==> keep(xs[j])
    ensures a <= n && forall i :: 0 <= i < n ==> (a <= i <==> keep(xs[i]))
  {
    a := 0;
    if n > 0 {
      a := FirstKept(xs, keep, n - 1);
      if !keep(xs[n - 1]) { a := n; }
    }
  }

  /** If exactly the stretch a..b is kept, so it is of every prefix. */
  lemma {:induction false} SelectSlice<T>(xs: seq<T>, keep: T -> bool, a: nat, b: nat, n: nat)
    requires a <= b <= |xs| && n <= |xs|
    requires forall i :: 0 <= i < |xs| ==> (a <= i < b <==> keep(xs[i]))
    ensures Select(xs[..n], keep) == xs[Min(a, n)..Min(b, n)]
  {
    if n > 0 {
      SelectSlice(xs, keep, a, b, n - 1);
      SelectNext(xs, keep, n - 1);
      if a <= n - 1 < b { SliceNext(xs, a, n - 1); }
    }
  }

  lemma SelectNext<T>(xs: seq<T>, keep: T -> bool, n: nat)
    requires n < |xs|
    ensures Select(xs[..n + 1], keep) == Select(xs[..n], keep) + if keep(xs[n]) then [xs[n]] else []
  {
    assert xs[..n + 1][..n] == xs[..n];
  }

  lemma SliceNext<T>(xs: seq<T>, a: nat, n: nat)
    requires a <= n < |xs|
    ensures xs[a..n] + [xs[n]] == xs[a..n + 1]
  {
  }

  /** In a scan the newer keys are a suffix. */
  lemma NewerIsSuffix(ks: seq<Key>, since: u64)
    requires Ascending(ks)
    ensures var newer := Between(ks, since, U64_MAX);
            && |newer| <= |ks| && newer == ks[|ks| - |newer|..]
            && (forall i :: 0 <= i < |ks| - |newer| ==> Stamp(ks[i]) <= since)
            && (forall i :: |ks| - |newer| <= i < |ks| ==> Stamp(ks[i]) > since)
  {
    var keep := (k: Key) => since < Stamp(k) <= U64_MAX;
    forall i, j | 0 <= i < j < |ks| ensures Stamp(ks[i]) <= Stamp(ks[j]) { LexAgreesWithTime(ks[i], ks[j]); }
    BetweenIsSelect(ks, since, U64_MAX, keep);
    var a := FirstKept(ks, keep, |ks|);
    SelectSlice(ks, keep, a, |ks|, |ks|);
    assert ks[..|ks|] == ks && ks[a..|ks|] == ks[a..];
  }

  /** A stretch of newer keys that stops where the time changes is exactly the keys up to that time. */
  lemma PageIsBetween(ks: seq<Key>, since: u64, cursor: u64, older: nat, end: nat)
    requires Ascending(ks)
    requires 0 <= older <= end <= |ks| && older == |ks| - |Between(ks, since, U64_MAX)|
    requires cursor == if end == older then since else Stamp(ks[end - 1])
    requires older < end < |ks| ==> Stamp(ks[end]) != cursor
    ensures Between(ks, since, cursor) == ks[older..end]
  {
    NewerIsSuffix(ks, since);
    forall i, j | 0 <= i < j < |ks| ensures Stamp(ks[i]) <= Stamp(ks[j]) {
      LexAgreesWithTime(ks[i], ks[j]);
    }
    BetweenSlice(ks, since, cursor, older, end);
  }

  lemma BetweenSlice(ks: seq<Key>, lo: u64, hi: u64, a: nat, b: nat)
    requires a <= b <= |ks|
    requires forall i :: 0 <= i < |ks| ==> (a <= i < b <==> lo < Stamp(ks[i]) <= hi)
    ensures Between(ks, lo, hi) == ks[a..b]
  {
    var keep := (k: Key) => lo < Stamp(k) <= hi;
    BetweenIsSelect(ks, lo, hi, keep);
    SelectSlice(ks, keep, a, b, |ks|);
    assert ks[..|ks|] == ks;
  }

  // ----- What a page is -----

  /**
   A page of a table, without reference to how it is scanned: in ascending order
   all keys after `since` up to the cursor, which is the time of the last of them;
   all but the first `limit` carry the cursor's time; and if anything lies beyond
   the cursor, there are more than `limit`.
   */
  ghost predicate IsPage(table: set<Key>, since: u64, limit: nat, keys: seq<Key>, cursor: u64)
  {
    && Ascending(keys)
    && (forall k :: k in keys <==> k in table && since < Stamp(k) <= cursor)
    && cursor == (if keys == [] then since else Stamp(keys[|keys| - 1]))
    && (forall i :: limit <= i < |keys| ==> limit > 0 && Stamp(keys[i]) == cursor)
    && (limit > 0 && (exists k :: k in table && Stamp(k) > cursor) ==> |keys| > limit)
  }

  /** That leaves one page only. */
  lemma PageIsUnique(table: set<Key>, since: u64, limit: nat, xs: seq<Key>, x: u64, ys: seq<Key>, y: u64)
    requires IsPage(table, since, limit, xs, x) && IsPage(table, since, limit, ys, y)
    ensures xs == ys && x == y
  {
    if x < y {
      ShorterPageIsWrong(table, since, limit, xs, x, ys, y);
    } else if y < x {
      ShorterPageIsWrong(table, since, limit, ys, y, xs, x);
    }
    AscendingUnique(xs, ys);
  }

  lemma ShorterPageIsWrong(table: set<Key>, since: u64, limit: nat, xs: seq<Key>, x: u64, ys: seq<Key>, y: u64)
    requires IsPage(table, since, limit, xs, x) && IsPage(table, since, limit, ys, y)
    ensures !(x < y)
  {
    if x < y {
      assert ys[|ys| - 1] in ys;
      if limit > 0 {
        assert xs[limit] in xs;
        var rank := IndexIn(xs, ys, limit);
        assert false;
      }
    }
  }

  /** An element of one scan is at least as far on in a scan that holds all the earlier ones too. */
  lemma {:induction false} IndexIn(xs: seq<Key>, ys: seq<Key>, i: nat) returns (j: nat)
    requires Ascending(xs) && Ascending(ys) && i < |xs| && forall k :: k in xs ==> k in ys
    ensures i <= j < |ys| && ys[j] == xs[i]
  {
    assert xs[i] in ys;
    j :| 0 <= j < |ys| && ys[j] == xs[i];
    if i > 0 {
      var h := IndexIn(xs, ys, i - 1);
      LaterInBoth(ys, h, j, xs[i - 1], xs[i]);
    }
  }

  lemma LaterInBoth(ys: seq<Key>, h: nat, j: nat, x: Key, y: Key)
    requires Ascending(ys) && h < |ys| && j < |ys| && ys[h] == x && ys[j] == y && LexLess(x, y)
    ensures h < j
  {
    LexOrder(x, y);
  }

  /** The same on times alone: where a page ends in a scan, and that it has the shape of one. */
  lemma PageCut(times: seq<u64>, since: u64, limit: nat, a: nat) returns (b: nat)
    requires forall i, j :: 0 <= i < j < |times| ==> times[i] <= times[j]
    requires a <= |times| && forall i :: 0 <= i < |times| ==> (i < a <==> times[i] <= since)
    ensures IsStretch(times, since, limit, a, b, CutTime(times, since, limit, a))
  {
    if limit == 0 || a == |times| {
      return a;
    }
    var at := Min(a + limit, |times| - 1);
    b := FirstKept(times, t => t > times[at], |times|);
    assert times[at] <= times[b - 1];
  }

  function CutTime(times: seq<u64>, since: u64, limit: nat, a: nat): u64
    requires a <= |times|
  {
    if limit == 0 || a == |times| then since else times[Min(a + limit, |times| - 1)]
  }

  function Times(ks: seq<Key>): (ts: seq<u64>)
    ensures |ts| == |ks| && forall i :: 0 <= i < |ks| ==> ts[i] == Stamp(ks[i])
  {
    seq(|ks|, i requires 0 <= i < |ks| => Stamp(ks[i]))
  }

  /** The stretch of the scan that a page is. */
  lemma PageStretch(ks: seq<Key>, since: u64, limit: nat) returns (a: nat, b: nat)
    requires Ascending(ks)
    ensures a <= b <= |ks| && Between(ks, since, PageEnd(ks, since, limit)) == ks[a..b]
    ensures IsStretch(Times(ks), since, limit, a, b, PageEnd(ks, since, limit))
  {
    var ts := Times(ks);
    NewerIsSuffix(ks, since);
    a := |ks| - |Between(ks, since, U64_MAX)|;
    forall i, j | 0 <= i < j < |ks| ensures ts[i] <= ts[j] { LexAgreesWithTime(ks[i], ks[j]); }
    b := PageCut(ts, since, limit, a);
    assert CutTime(ts, since, limit, a) == PageEnd(ks, since, limit);
    BetweenSlice(ks, since, PageEnd(ks, since, limit), a, b);
  }

  /** What a scan with its cutoff returns is that page. */
  lemma PageEndIsPage(table: set<Key>, since: u64, limit: nat)
    ensures var ks := SortedKeys(table);
            IsPage(table, since, limit, Between(ks, since, PageEnd(ks, since, limit)), PageEnd(ks, since, limit))
  {
    PageKeys(SortedKeys(table), table, since, limit);
  }

  lemma PageKeys(ks: seq<Key>, table: set<Key>, since: u64, limit: nat)
    requires Ascending(ks) && forall k :: k in ks <==> k in table
    ensures IsPage(table, since, limit, Between(ks, since, PageEnd(ks, since, limit)), PageEnd(ks, since, limit))
    ensures since <= PageEnd(ks, since, limit)
    ensures limit > 0 && (exists k :: k in table && Stamp(k) > since) ==> PageEnd(ks, since, limit) > since
  {
    var a, b := PageStretch(ks, since, limit);
    StretchIsPage(ks, table, since, limit, a, b, PageEnd(ks, since, limit));
  }

  ghost predicate IsStretch(ts: seq<u64>, since: u64, limit: nat, a: nat, b: nat, end: u64)
  {
    && a <= b <= |ts|
    && (forall i :: 0 <= i < |ts| ==> (a <= i < b <==> since < ts[i] <= end))
    && since <= end == (if a == b then since else ts[b - 1])
    && (forall i :: a + limit <= i < b ==> limit > 0 && ts[i] == end)
    && (limit > 0 && (exists i :: 0 <= i < |ts| && ts[i] > end) ==> b - a > limit)
    && (limit > 0 && (exists i :: 0 <= i < |ts| && ts[i] > since) ==> a < b)
  }

  lemma StretchIsPage(ks: seq<Key>, table: set<Key>, since: u64, limit: nat, a: nat, b: nat, end: u64)
    requires Ascending(ks) && (forall k :: k in ks <==> k in table) && IsStretch(Times(ks), since, limit, a, b, end)
    ensures IsPage(table, since, limit, ks[a..b], end)
    ensures limit > 0 && (exists k :: k in table && Stamp(k) > since) ==> end > since
  {
    AscendingSlice(ks, a, b);
    StretchTimes(ks, since, limit, a, b, end);
    forall k | k in table ensures k in ks[a..b] <==> since < Stamp(k) <= end { InStretch(ks, since, a, b, end, k); }
    forall k | k in ks[a..b] ensures k in table { assert k in ks; }
    if k :| k in table && Stamp(k) > since { SomewhereIn(ks, k, since); }
    if k :| k in table && Stamp(k) > end { SomewhereIn(ks, k, end); }
  }

  lemma AscendingSlice(ks: seq<Key>, a: nat, b: nat)
    requires Ascending(ks) && a <= b <= |ks|
    ensures Ascending(ks[a..b])
  {
    forall i, j | 0 <= i < j < b - a ensures LexLess(ks[a..b][i], ks[a..b][j]) {
      assert ks[a..b][i] == ks[a + i] && ks[a..b][j] == ks[a + j];
    }
  }

  lemma StretchTimes(ks: seq<Key>, since: u64, limit: nat, a: nat, b: nat, end: u64)
    requires IsStretch(Times(ks), since, limit, a, b, end)
    ensures var keys := ks[a..b];
            && end == (if keys == [] then since else Stamp(keys[|keys| - 1]))
            && forall i :: limit <= i < |keys| ==> limit > 0 && Stamp(keys[i]) == end
  {
    var keys, ts := ks[a..b], Times(ks);
    forall i | 0 <= i < |keys| ensures Stamp(keys[i]) == ts[a + i] { assert keys[i] == ks[a + i]; }
  }

  lemma SomewhereIn(ks: seq<Key>, k: Key, t: u64)
    requires k in ks && Stamp(k) > t
    ensures exists i :: 0 <= i < |Times(ks)| && Times(ks)[i] > t
  {
    var i :| 0 <= i < |ks| && ks[i] == k;
    assert Times(ks)[i] == Stamp(k);
  }

  lemma InStretch(ks: seq<Key>, since: u64, a: nat, b: nat, end: u64, k: Key)
    requires a <= b <= |ks| && k in ks
    requires forall i :: 0 <= i < |ks| ==> (a <= i < b <==> since < Times(ks)[i] <= end)
    ensures k in ks[a..b] <==> since < Stamp(k) <= end
  {
    var i :| 0 <= i < |ks| && ks[i] == k;
    assert since < Stamp(k) <= end <==> since < Times(ks)[i] <= end;
    if a <= i < b { assert ks[a..b][i - a] == k; }
    if k in ks[a..b] {
      var j :| 0 <= j < |ks[a..b]| && ks[a..b][j] == k;
      assert Times(ks)[a + j] == Stamp(k);
    }
  }

  lemma {:induction false} BetweenAscends(ks: seq<Key>, lo: u64, hi: u64)
    requires Ascending(ks)
    ensures Ascending(Between(ks, lo, hi))
  {
    if ks != [] {
      var n := |ks| - 1;
      BetweenAscends(ks[..n], lo, hi);
      BetweenMembers(ks[..n], lo, hi);
      var front := Between(ks[..n], lo, hi);
      forall i | 0 <= i < |front| ensures LexLess(front[i], ks[n]) {
        assert front[i] in ks[..n];
      }
    }
  }
}
