/**
 The byte keys of the hub tables and the order in which the tables are scanned.
 A table is scanned in the lexicographic order of its keys. Paging by time is
 correct only because that order agrees with the numeric order of the leading
 big-endian timestamp; this module proves that agreement.
 */
module HubKeys {
  import opened Words

  type Key = s: seq<u8> | |s| == 25 witness seq(25, _ => 0)
  type IndexKey = s: seq<u8> | |s| == 17 witness seq(17, _ => 0)

  function Pow256(n: nat): (p: nat)
    ensures p > 0
  {
    if n == 0 then 1 else 256 * Pow256(n - 1)
  }

  function ToBE(x: nat, n: nat): (s: seq<u8>)
    ensures |s| == n
  {
    if n == 0 then [] else ToBE(x / 256, n - 1) + [x % 256]
  }

  function FromBE(s: seq<u8>): (x: nat)
    ensures x < Pow256(|s|)
  {
    if s == [] then 0 else FromBE(s[..|s| - 1]) * 256 + s[|s| - 1]
  }

  lemma {:induction false} FromToBE(x: nat, n: nat)
    requires x < Pow256(n)
    ensures FromBE(ToBE(x, n)) == x
  {
    if n > 0 {
      FromToBE(x / 256, n - 1);
      assert ToBE(x, n)[..n - 1] == ToBE(x / 256, n - 1);
    }
  }

  /** `composite_key`: big-endian time, then the address. */
  function CompositeKey(lastSeenNs: u64, ip: IpKey): (k: Key)
    ensures k[8..] == IndexKeyOf(ip)
    ensures Stamp(k) == lastSeenNs
  {
    var k := ToBE(lastSeenNs, 8) + IndexKeyOf(ip);
    assert Pow256(8) == U64_MAX + 1 by { Pow256Of8(); }
    FromToBE(lastSeenNs, 8);
    assert k[..8] == ToBE(lastSeenNs, 8);
    k
  }

  /** `ip_index_key`: the address without its padding. */
  function IndexKeyOf(ip: IpKey): IndexKey { [ip.family] + ip.addr }

  lemma Pow256Of8()
    ensures Pow256(8) == U64_MAX + 1
  {
    assert Pow256(2) == 0x1_0000;
    assert Pow256(4) == 0x1_0000_0000;
    assert Pow256(6) == 0x1_0000_0000_0000;
  }

  /** The timestamp a scan decodes from the first eight bytes of a key. */
  function Stamp(k: Key): u64
  {
    Pow256Of8();
    FromBE(k[..8])
  }

  /** Lexicographic order of byte strings of one length. */
  predicate LexLess(a: seq<u8>, b: seq<u8>)
    requires |a| == |b|
  {
    exists i :: 0 <= i < |a| && a[..i] == b[..i] && a[i] < b[i]
  }

  /** On strings of one length, lexicographic order is numeric order. */
  lemma {:induction false} LexIsNumeric(a: seq<u8>, b: seq<u8>)
    requires |a| == |b|
    ensures LexLess(a, b) <==> FromBE(a) < FromBE(b)
    ensures a == b <==> FromBE(a) == FromBE(b)
  {
    if |a| > 0 {
      var n := |a| - 1;
      var a', b' := a[..n], b[..n];
      LexIsNumeric(a', b');
      assert a == a' + [a[n]] && b == b' + [b[n]];
      if LexLess(a, b) {
        var i :| 0 <= i < |a| && a[..i] == b[..i] && a[i] < b[i];
        if i < n {
          assert a'[..i] == a[..i] && b'[..i] == b[..i];
          assert LexLess(a', b');
        }
      }
      if LexLess(a', b') {
        var i :| 0 <= i < n && a'[..i] == b'[..i] && a'[i] < b'[i];
        assert a'[..i] == a[..i] && b'[..i] == b[..i];
        assert a[..i] == b[..i] && a[i] < b[i];
      }
      if a' == b' && a[n] < b[n] {
        assert a[..n] == b[..n];
      }
    }
  }

  /** A scan meets keys in non-decreasing time, and older keys first. */
  lemma LexAgreesWithTime(a: Key, b: Key)
    ensures LexLess(a, b) ==> Stamp(a) <= Stamp(b)
    ensures Stamp(a) < Stamp(b) ==> LexLess(a, b)
  {
    LexIsNumeric(a[..8], b[..8]);
    if LexLess(a, b) {
      var i :| 0 <= i < 25 && a[..i] == b[..i] && a[i] < b[i];
      if i < 8 {
        assert a[..8][..i] == a[..i] && b[..8][..i] == b[..i];
        assert LexLess(a[..8], b[..8]);
      } else {
        assert a[..8] == a[..i][..8] && b[..8] == b[..i][..8];
      }
    }
    if Stamp(a) < Stamp(b) {
      var i :| 0 <= i < 8 && a[..8][..i] == b[..8][..i] && a[..8][i] < b[..8][i];
      assert a[..i] == a[..8][..i] && b[..i] == b[..8][..i];
      assert a[i] < b[i];
    }
  }

  // ----- Scanning a table -----

  ghost predicate Ascending(ks: seq<Key>)
  {
    forall i, j :: 0 <= i < j < |ks| ==> LexLess(ks[i], ks[j])
  }

  predicate IsLeast(k: Key, s: set<Key>)
  {
    k in s && forall j :: j in s ==> j == k || LexLess(k, j)
  }

  lemma LexOrder(a: Key, b: Key)
    ensures !(LexLess(a, b) && LexLess(b, a)) && !LexLess(a, a)
    ensures a == b || LexLess(a, b) || LexLess(b, a)
  {
    LexIsNumeric(a, b);
    LexIsNumeric(b, a);
    LexIsNumeric(a, a);
  }

  lemma {:induction false} LeastKey(s: set<Key>)
    requires s != {}
    ensures exists k: Key :: IsLeast(k, s)
    ensures forall j: Key, k: Key :: IsLeast(j, s) && IsLeast(k, s) ==> j == k
  {
    forall j: Key, k: Key | IsLeast(j, s) && IsLeast(k, s) ensures j == k {
      LexOrder(j, k);
    }
    var k :| k in s;
    var rest := s - {k};
    if rest == {} {
      assert s == {k};
      assert IsLeast(k, s);
    } else {
      LeastKey(rest);
      var m: Key :| IsLeast(m, rest);
      LexOrder(k, m);
      if LexLess(k, m) {
        forall j | j in s ensures j == k || LexLess(k, j) {
          LexIsNumeric(k, m);
          LexIsNumeric(m, j);
          LexIsNumeric(k, j);
        }
        assert IsLeast(k, s);
      } else {
        assert IsLeast(m, s);
      }
    }
  }

  /** The order of a full table scan. */
  function SortedKeys(s: set<Key>): (ks: seq<Key>)
    ensures Ascending(ks)
    ensures forall k :: k in ks <==> k in s
  {
    if s == {} then []
    else
      LeastKey(s);
      var k: Key :| k in s && IsLeast(k, s);
      [k] + SortedKeys(s - {k})
  }

  lemma SomeMember(ks: seq<Key>)
    ensures ks == [] || exists k :: k in ks
  {
    if ks != [] { assert ks[0] in ks; }
  }

  /** Ascending key lists with the same members are equal, so a scan is determined by its table. */
  lemma {:induction false} AscendingUnique(xs: seq<Key>, ys: seq<Key>)
    requires Ascending(xs) && Ascending(ys)
    requires forall k :: k in xs <==> k in ys
    ensures xs == ys
  {
    if xs == [] {
      SomeMember(ys);
    } else {
      assert xs[0] in ys && ys != [];
      assert ys[0] in xs;
      LexIsNumeric(xs[0], ys[0]);
      LexIsNumeric(ys[0], xs[0]);
      assert xs[0] == ys[0];
      forall k ensures k in xs[1..] <==> k in ys[1..] {
        if k in xs[1..] {
          LexIsNumeric(xs[0], k);
          assert k in ys;
        }
        if k in ys[1..] {
          LexIsNumeric(ys[0], k);
          assert k in xs;
        }
      }
      AscendingUnique(xs[1..], ys[1..]);
    }
  }
}
