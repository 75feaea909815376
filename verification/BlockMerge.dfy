/**
 Merging writes to the blacklist. Data plane and control plane share one rule:
 a live entry keeps its first cause and its expiry only moves later, with 0
 (permanent) as the latest; a lapsed entry is replaced.
 */
module BlockMerge {
  import opened Words

  const BLOCK_PERMANENT := 0

  datatype BlockEntry = BlockEntry(
    blockedUntilNs: u64, firstSeenNs: u64, hitCount: u32, blockReason: u8, lastReason: u8)
  {
    predicate Live(now: u64)
    {
      blockedUntilNs == BLOCK_PERMANENT || blockedUntilNs > now
    }
  }

  function MergeBlockEntry(prev: Option<BlockEntry>, now: u64, until: u64, reason: u8, explicit: bool): BlockEntry
  {
    if prev.Some? && prev.value.Live(now) then
      var p := prev.value;
      var later := if p.blockedUntilNs == BLOCK_PERMANENT || until == BLOCK_PERMANENT then BLOCK_PERMANENT
                   else Max(p.blockedUntilNs, until);
      if explicit then
        BlockEntry(later, p.firstSeenNs, p.hitCount, reason,
                   if p.blockReason != reason then p.blockReason else p.lastReason)
      else
        BlockEntry(later, p.firstSeenNs, p.hitCount, p.blockReason,
                   if reason != p.blockReason then reason else p.lastReason)
    else BlockEntry(until, now, 0, reason, 0)
  }

  /** The expiry requested by a block of `durationS` seconds; 0 seconds means for ever. */
  function RequestedUntil(now: u64, durationS: u64): (until: u64)
    ensures until == BLOCK_PERMANENT <==> durationS == 0
    ensures durationS != 0 ==> until > now || until == U64_MAX
    ensures durationS != 0 && now + durationS * 1_000_000_000 <= U64_MAX ==> until == now + durationS * 1_000_000_000
  {
    if durationS == 0 then BLOCK_PERMANENT else SatAdd(now, SatMul(durationS, NS_PER_S))
  }

  /** The order of expiries, with permanent on top. */
  predicate NotEarlier(a: u64, b: u64)
  {
    b == BLOCK_PERMANENT || (a != BLOCK_PERMANENT && a <= b)
  }

  /** No block, from whatever source, ever moves an expiry earlier, live or lapsed. */
  lemma BlocksNeverShorten(p: BlockEntry, now: u64, until: u64, reason: u8, explicit: bool)
    requires until == BLOCK_PERMANENT || now <= until
    ensures var e := MergeBlockEntry(Some(p), now, until, reason, explicit);
            NotEarlier(p.blockedUntilNs, e.blockedUntilNs) && NotEarlier(until, e.blockedUntilNs)
  {
  }

  /** A live entry keeps its hits and the time it was first seen; a lapsed one starts with none. */
  lemma LiveBlocksKeepHits(p: BlockEntry, now: u64, until: u64, reason: u8, explicit: bool)
    ensures var e := MergeBlockEntry(Some(p), now, until, reason, explicit);
            if p.blockedUntilNs == 0 || now < p.blockedUntilNs
            then e.hitCount == p.hitCount && e.firstSeenNs == p.firstSeenNs
            else e.hitCount == 0 && e.firstSeenNs == now
  {
  }

  // ----- Any sequence of merges -----

  datatype Request = Request(now: u64, until: u64, reason: u8, explicit: bool)

  function Run(rs: seq<Request>): Option<BlockEntry>
  {
    if rs == [] then None
    else
      var r := rs[|rs| - 1];
      Some(MergeBlockEntry(Run(rs[..|rs| - 1]), r.now, r.until, r.reason, r.explicit))
  }

  /** The requests since the entry last lapsed. */
  function Current(rs: seq<Request>): seq<Request>
  {
    if rs == [] then []
    else
      var front, r := rs[..|rs| - 1], rs[|rs| - 1];
      if front != [] && Run(front).value.Live(r.now) then Current(front) + [r] else [r]
  }

  /** The latest reason that differs from the first one, or 0. */
  function LastOther(rs: seq<Request>): u8
  {
    if rs == [] then 0
    else
      var r := rs[|rs| - 1];
      if r.reason != rs[0].reason then r.reason else LastOther(rs[..|rs| - 1])
  }

  /** The reason of the latest explicit request, or else of the first request. */
  function Authority(rs: seq<Request>): u8
    requires rs != []
  {
    var r := rs[|rs| - 1];
    if |rs| == 1 || r.explicit then r.reason else Authority(rs[..|rs| - 1])
  }

  /** Request i disagrees with the reason in force before it. */
  ghost predicate Disputes(rs: seq<Request>, i: nat)
  {
    0 < i < |rs| && rs[i].reason != Authority(rs[..i])
  }

  /** What loses it: the reason in force if the request is explicit, else the request's own. */
  function Loser(rs: seq<Request>, i: nat): u8
    requires 0 < i < |rs|
  {
    if rs[i].explicit then Authority(rs[..i]) else rs[i].reason
  }

  /** The other reason is the loser of the latest dispute, or 0 without one. */
  ghost predicate IsOther(last: u8, rs: seq<Request>)
  {
    && (forall i: nat :: Disputes(rs, i) && (forall j: nat :: i < j ==> !Disputes(rs, j)) ==> last == Loser(rs, i))
    && ((forall i: nat :: !Disputes(rs, i)) ==> last == 0)
  }

  ghost predicate Sums(e: BlockEntry, rs: seq<Request>)
  {
    && rs != []
    && e.firstSeenNs == rs[0].now
    && (exists i :: 0 <= i < |rs| && e.blockedUntilNs == rs[i].until)
    && (forall i :: 0 <= i < |rs| ==> NotEarlier(rs[i].until, e.blockedUntilNs))
    && e.blockReason == Authority(rs)
    && IsOther(e.lastReason, rs)
    && ((forall i :: 0 <= i < |rs| ==> !rs[i].explicit) ==>
          e.blockReason == rs[0].reason && e.lastReason == LastOther(rs))
  }

  lemma SameDisputes(rs: seq<Request>, r: Request, i: nat)
    requires i < |rs|
    ensures Disputes(rs + [r], i) <==> Disputes(rs, i)
    ensures 0 < i ==> Loser(rs + [r], i) == Loser(rs, i)
  {
    assert (rs + [r])[..i] == rs[..i];
  }

  lemma OtherExtends(last: u8, rs: seq<Request>, r: Request)
    requires rs != [] && IsOther(last, rs)
    ensures IsOther(if r.reason == Authority(rs) then last else if r.explicit then Authority(rs) else r.reason, rs + [r])
  {
    var all, n := rs + [r], |rs|;
    assert all[..n] == rs;
    assert Disputes(all, n) <==> r.reason != Authority(rs);
    forall i: nat | i < n ensures Disputes(all, i) <==> Disputes(rs, i) { SameDisputes(rs, r, i); }
    forall i: nat | Disputes(all, i) && (forall j: nat :: i < j ==> !Disputes(all, j))
      ensures (if r.reason == Authority(rs) then last else if r.explicit then Authority(rs) else r.reason) == Loser(all, i)
    {
      if i < n {
        SameDisputes(rs, r, i);
        assert !Disputes(all, n);
        forall j: nat | i < j ensures !Disputes(rs, j) { assert !Disputes(all, j); }
      }
    }
  }

  lemma SumsExtend(e: BlockEntry, rs: seq<Request>, r: Request)
    requires Sums(e, rs) && e.Live(r.now)
    ensures Sums(MergeBlockEntry(Some(e), r.now, r.until, r.reason, r.explicit), rs + [r])
  {
    var all := rs + [r];
    var n := |rs|;
    var e' := MergeBlockEntry(Some(e), r.now, r.until, r.reason, r.explicit);
    assert all[..n] == rs && all[n] == r && all[0] == rs[0];
    OtherExtends(e.lastReason, rs, r);
    var i :| 0 <= i < n && e.blockedUntilNs == rs[i].until;
    assert all[if e'.blockedUntilNs == e.blockedUntilNs then i else n].until == e'.blockedUntilNs;
    if forall j :: 0 <= j <= n ==> !all[j].explicit {
      assert !all[n].explicit;
      forall j | 0 <= j < n ensures !rs[j].explicit { assert all[j] == rs[j]; }
    }
  }

  /**
   Main result: after any requests, the entry is the fold of those since its last
   lapse: first time seen, latest expiry with permanent on top, first cause (or
   the latest explicit one), and the latest other cause.
   */
  lemma {:induction false} EntrySumsCurrentRequests(rs: seq<Request>)
    requires rs != []
    ensures Sums(Run(rs).value, Current(rs))
  {
    var front, r := rs[..|rs| - 1], rs[|rs| - 1];
    if front != [] {
      EntrySumsCurrentRequests(front);
      if Run(front).value.Live(r.now) {
        SumsExtend(Run(front).value, Current(front), r);
      }
    }
    if front == [] || !Run(front).value.Live(r.now) {
      assert Current(rs) == [r] && [r][..0] == [];
      assert LastOther([r]) == LastOther([]) == 0;
      assert [r][0].until == Run(rs).value.blockedUntilNs;
    }
  }
}
