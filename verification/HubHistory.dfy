/**
 What a stored row is: the fold of all pushes of its address since the address
 was last removed, whatever the order of the pushes and however they were cut
 into transactions.
 */
module HubHistory {
  import opened Words
  import opened HubKeys
  import opened HubStore
  import opened HubInvariant

  datatype Txn =
    | Merge(node: string, nps: seq<NodePolicy>, now: u64)
    | Delete(ips: seq<IpKey>, now: u64)
    | Prune(now: u64, tombstoneTtlNs: u64)

  function Apply(db: Db, t: Txn): Db
  {
    match t
    case Merge(node, nps, now) => (match MergeTxn(db, node, nps, now) case Ok(d) => d case Err(_) => db)
    case Delete(ips, now) => if ips == [] then db else DeleteTxn(db, ips, now)
    case Prune(now, ttl) => PruneTxn(db, now, ttl)
  }

  function Run(db: Db, ts: seq<Txn>): Db
  {
    if ts == [] then db else Apply(Run(db, ts[..|ts| - 1]), ts[|ts| - 1])
  }

  const EMPTY: Db := Db(map[], map[], {})

  lemma ApplyKeeps(db: Db, t: Txn)
    requires Inv(db)
    ensures Inv(Apply(db, t))
    ensures t.Merge? ==> MergeTxn(db, t.node, t.nps, t.now) == Ok(Apply(db, t))
  {
    match t
    case Merge(node, nps, now) => MergeTxnKeeps(db, node, nps, now);
    case Delete(ips, now) => DeleteTxnKeeps(db, ips, now);
    case Prune(now, ttl) => PruneTxnKeeps(db, now, ttl);
  }

  /** Every reachable store is well formed, so the error for an index entry without row cannot occur. */
  lemma {:induction false} ReachableIsWellFormed(db: Db, ts: seq<Txn>, node: string, nps: seq<NodePolicy>, now: u64)
    requires Inv(db)
    ensures Inv(Run(db, ts))
    ensures MergeTxn(Run(db, ts), node, nps, now).Ok?
  {
    if ts != [] {
      ReachableIsWellFormed(db, ts[..|ts| - 1], node, nps, now);
      ApplyKeeps(Run(db, ts[..|ts| - 1]), ts[|ts| - 1]);
    }
    MergeTxnKeeps(Run(db, ts), node, nps, now);
  }

  // ----- The pushes behind a row -----

  datatype Push = Push(node: string, policy: NodePolicy, now: u64)

  /** `xs` followed by the pushes of one address in a merged list. */
  function Logged(xs: seq<Push>, ik: IndexKey, node: string, nps: seq<NodePolicy>, now: u64): seq<Push>
    decreases |nps|
  {
    if nps == [] then xs
    else if IndexKeyOf(nps[0].ip) == ik then Logged(xs + [Push(node, nps[0], now)], ik, node, nps[1..], now)
    else Logged(xs, ik, node, nps[1..], now)
  }

  function Hits(xs: seq<Push>): seq<int> { seq(|xs|, i requires 0 <= i < |xs| => xs[i].policy.hitCount) }
  function Trusts(xs: seq<Push>): seq<int> { seq(|xs|, i requires 0 <= i < |xs| => xs[i].policy.trustScore) }
  function Ttls(xs: seq<Push>): seq<int> { seq(|xs|, i requires 0 <= i < |xs| => xs[i].policy.ttlS) }
  function Times(xs: seq<Push>): seq<int> { seq(|xs|, i requires 0 <= i < |xs| => xs[i].now) }
  function Nodes(xs: seq<Push>): seq<string> { seq(|xs|, i requires 0 <= i < |xs| => xs[i].node) }

  ghost predicate IsMax(v: int, vs: seq<int>) { v in vs && forall x :: x in vs ==> x <= v }
  ghost predicate IsMin(v: int, vs: seq<int>) { v in vs && forall x :: x in vs ==> v <= x }
  ghost predicate IsLongest(v: int, vs: seq<int>) { v in vs && forall x :: x in vs ==> v == 0 || 0 < x <= v }

  ghost predicate SameMembers<T(!new)>(xs: seq<T>, ys: seq<T>) { forall x :: x in xs <==> x in ys }
  ghost predicate NoRepeats<T>(xs: seq<T>) { forall i, j :: 0 <= i < j < |xs| ==> xs[i] != xs[j] }

  /** A row is the fold of a list of pushes: largest hit count, least trust, longest ttl with 0 on top, all nodes. */
  ghost predicate Folds(p: SharedPolicy, xs: seq<Push>)
  {
    && xs != []
    && IsMax(p.hitCount, Hits(xs))
    && IsMin(p.trustScore, Trusts(xs))
    && IsLongest(p.ttlS, Ttls(xs))
    && IsMax(p.lastSeenNs, Times(xs))
    && IsMin(p.firstSeenNs, Times(xs))
    && SameMembers(p.sourceNodes, Nodes(xs)) && NoRepeats(p.sourceNodes)
    && p.reason == xs[|xs| - 1].policy.reason
  }

  /** Have the pushes lapsed: is their longest ttl finite, and over since the latest of them? */
  ghost predicate Lapsed(xs: seq<Push>, now: u64)
  {
    exists ttl, last :: IsLongest(ttl, Ttls(xs)) && IsMax(last, Times(xs)) && ttl != 0 && last + ttl * NS_PER_S < now
  }

  /** A merge adds its pushes of the address; a delete that names it, or a prune that finds them lapsed, drops all. */
  ghost function Extended(xs: seq<Push>, t: Txn, ik: IndexKey): seq<Push>
  {
    match t
    case Merge(node, nps, now) => Logged(xs, ik, node, nps, now)
    case Delete(ips, _) => if Named(ips, ik) then [] else xs
    case Prune(now, _) => if Lapsed(xs, now) then [] else xs
  }

  /** All pushes of an address since its last removal. */
  ghost function History(ts: seq<Txn>, ik: IndexKey): seq<Push>
  {
    if ts == [] then [] else Extended(History(ts[..|ts| - 1], ik), ts[|ts| - 1], ik)
  }

  ghost predicate Explains(xs: seq<Push>, row: Option<SharedPolicy>)
  {
    match row
    case None => xs == []
    case Some(p) => Folds(p, xs)
  }

  lemma FoldsNew(x: Push)
    ensures Folds(NewPolicy(x.node, x.policy, x.now), [x])
  {
    assert Hits([x]) == [x.policy.hitCount] && Trusts([x]) == [x.policy.trustScore];
    assert Ttls([x]) == [x.policy.ttlS] && Times([x]) == [x.now] && Nodes([x]) == [x.node];
  }

  lemma ExtremesExtend(v: int, vs: seq<int>, w: int)
    ensures IsMax(v, vs) ==> IsMax(Max(v, w), vs + [w])
    ensures IsMin(v, vs) ==> IsMin(Min(v, w), vs + [w])
    ensures IsLongest(v, vs) && 0 <= v && 0 <= w ==> IsLongest(if v == 0 || w == 0 then 0 else Max(v, w), vs + [w])
  {
    assert forall x :: x in vs + [w] <==> x in vs || x == w;
  }

  lemma NodesExtend(ns: seq<string>, ms: seq<string>, n: string)
    requires SameMembers(ns, ms) && NoRepeats(ns)
    ensures var ns' := if n in ns then ns else ns + [n];
            SameMembers(ns', ms + [n]) && NoRepeats(ns')
  {
    assert forall s :: s in ms + [n] <==> s in ms || s == n;
    assert forall s :: s in ns + [n] <==> s in ns || s == n;
  }

  lemma FoldsExtends(p: SharedPolicy, xs: seq<Push>, x: Push)
    requires Folds(p, xs)
    ensures Folds(Absorb(p, x.node, x.policy, x.now), xs + [x])
  {
    var ys := xs + [x];
    assert Hits(ys) == Hits(xs) + [x.policy.hitCount] && Trusts(ys) == Trusts(xs) + [x.policy.trustScore];
    assert Ttls(ys) == Ttls(xs) + [x.policy.ttlS] && Times(ys) == Times(xs) + [x.now];
    assert Nodes(ys) == Nodes(xs) + [x.node];
    ExtremesExtend(p.hitCount, Hits(xs), x.policy.hitCount);
    ExtremesExtend(p.trustScore, Trusts(xs), x.policy.trustScore);
    ExtremesExtend(p.ttlS, Ttls(xs), x.policy.ttlS);
    ExtremesExtend(p.lastSeenNs, Times(xs), x.now);
    ExtremesExtend(p.firstSeenNs, Times(xs), x.now);
    NodesExtend(p.sourceNodes, Nodes(xs), x.node);
  }

  lemma PushExplains(row: Option<SharedPolicy>, xs: seq<Push>, x: Push)
    requires Explains(xs, row)
    ensures Explains(xs + [x], Some(Pushed(row, x.node, x.policy, x.now)))
  {
    if row.None? {
      FoldsNew(x);
      assert xs + [x] == [x];
    } else {
      FoldsExtends(row.value, xs, x);
    }
  }

  lemma {:induction false} PushedAllExplains(
    row: Option<SharedPolicy>, xs: seq<Push>, ik: IndexKey, node: string, nps: seq<NodePolicy>, now: u64)
    requires Explains(xs, row)
    ensures Explains(Logged(xs, ik, node, nps, now), PushedAll(row, ik, node, nps, now))
    decreases |nps|
  {
    if nps == [] {
    } else if IndexKeyOf(nps[0].ip) == ik {
      var x := Push(node, nps[0], now);
      PushExplains(row, xs, x);
      PushedAllExplains(Some(Pushed(row, node, nps[0], now)), xs + [x], ik, node, nps[1..], now);
    } else {
      PushedAllExplains(row, xs, ik, node, nps[1..], now);
    }
  }

  lemma LapsedMeansExpired(p: SharedPolicy, xs: seq<Push>, now: u64)
    requires Folds(p, xs)
    ensures Lapsed(xs, now) <==> Expired(p, now)
  {
    ExpiredMeans(p, now);
    if Expired(p, now) {
      assert IsLongest(p.ttlS, Ttls(xs)) && IsMax(p.lastSeenNs, Times(xs));
    }
  }

  lemma PrunedExplains(row: Option<SharedPolicy>, xs: seq<Push>, now: u64)
    requires Explains(xs, row)
    ensures Explains(if Lapsed(xs, now) then [] else xs, if row.Some? && Expired(row.value, now) then None else row)
  {
    if row.Some? { LapsedMeansExpired(row.value, xs, now); }
  }

  lemma StepExplains(db: Db, t: Txn, xs: seq<Push>, ik: IndexKey)
    requires Inv(db) && IsInverse(db.policies, db.index) && Explains(xs, Row(db.policies, ik))
    ensures var d := Apply(db, t);
            Inv(d) && IsInverse(d.policies, d.index) && Explains(Extended(xs, t, ik), Row(d.policies, ik))
  {
    match t
    case Merge(node, nps, now) =>
      MergeTxnKeeps(db, node, nps, now);
      PushedAllExplains(Row(db.policies, ik), xs, ik, node, nps, now);
    case Delete(ips, now) =>
      DeleteTxnKeeps(db, ips, now);
    case Prune(now, ttl) =>
      PruneTxnKeeps(db, now, ttl);
      PrunedExplains(Row(db.policies, ik), xs, now);
  }

  /** The main result: in every reachable store, an address has a row exactly if it has a history, and the row is its fold. */
  lemma {:induction false} RowsFoldTheirHistory(ts: seq<Txn>, ik: IndexKey)
    ensures Inv(Run(EMPTY, ts)) && IsInverse(Run(EMPTY, ts).policies, Run(EMPTY, ts).index)
    ensures Explains(History(ts, ik), Row(Run(EMPTY, ts).policies, ik))
  {
    if ts != [] {
      var front := ts[..|ts| - 1];
      RowsFoldTheirHistory(front, ik);
      StepExplains(Run(EMPTY, front), ts[|ts| - 1], History(front, ik), ik);
    }
  }

  /** A push without its time. */
  function Untimed(xs: seq<Push>): seq<(string, NodePolicy)> { seq(|xs|, i requires 0 <= i < |xs| => (xs[i].node, xs[i].policy)) }

  /**
   What a row says does not depend on the order, multiplicity or times of its
   pushes, except for the reason; its times depend on theirs alone.
   */
  lemma FoldIgnoresOrder(p: SharedPolicy, q: SharedPolicy, xs: seq<Push>, ys: seq<Push>)
    requires Folds(p, xs) && Folds(q, ys)
    requires SameMembers(Untimed(xs), Untimed(ys))
    ensures p.hitCount == q.hitCount && p.trustScore == q.trustScore && p.ttlS == q.ttlS
    ensures (set s | s in p.sourceNodes) == (set s | s in q.sourceNodes)
    ensures SameMembers(Times(xs), Times(ys)) ==> p.firstSeenNs == q.firstSeenNs && p.lastSeenNs == q.lastSeenNs
  {
    FoldBelow(p, q, xs, ys);
    FoldBelow(q, p, ys, xs);
  }

  lemma FoldBelow(p: SharedPolicy, q: SharedPolicy, xs: seq<Push>, ys: seq<Push>)
    requires Folds(p, xs) && Folds(q, ys)
    requires forall x :: x in Untimed(xs) ==> x in Untimed(ys)
    ensures p.hitCount <= q.hitCount && p.trustScore >= q.trustScore
    ensures q.ttlS == 0 || 0 < p.ttlS <= q.ttlS
    ensures forall s :: s in p.sourceNodes ==> s in q.sourceNodes
  {
    forall i | 0 <= i < |xs|
      ensures Hits(xs)[i] in Hits(ys) && Trusts(xs)[i] in Trusts(ys) && Ttls(xs)[i] in Ttls(ys) && Nodes(xs)[i] in Nodes(ys)
    {
      assert Untimed(xs)[i] in Untimed(ys);
      var j :| 0 <= j < |ys| && Untimed(ys)[j] == Untimed(xs)[i];
      assert Hits(ys)[j] == Hits(xs)[i] && Trusts(ys)[j] == Trusts(xs)[i] && Ttls(ys)[j] == Ttls(xs)[i];
      assert Nodes(ys)[j] == Nodes(xs)[i];
    }
  }
}
