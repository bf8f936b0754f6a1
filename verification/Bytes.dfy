/**
 Byte strings: their bytewise order (the order of Rust's `Vec<u8>` and of `BTreeMap` keys)
 and fixed-width big-endian integers.
 */
module Bytes {
  type byte = b: int | 0 <= b < 256

  type Key = seq<byte>

  const U32_MAX: nat := 0xFFFF_FFFF
  const U64_MAX: nat := 0xFFFF_FFFF_FFFF_FFFF

  // ---- bytewise order ------------------------------------------------

  /** Strictly below, comparing byte by byte; a proper prefix sorts first. */
  predicate Less(a: Key, b: Key)
    decreases |a|
  {
    b != [] && (a == [] || a[0] < b[0] || (a[0] == b[0] && Less(a[1..], b[1..])))
  }

  lemma {:induction false} LessIrreflexive(a: Key)
    ensures !Less(a, a)
    decreases |a|
  {
    if a != [] { LessIrreflexive(a[1..]); }
  }

  lemma {:induction false} LessTransitive(a: Key, b: Key, c: Key)
    requires Less(a, b) && Less(b, c)
    ensures Less(a, c)
    decreases |a|
  {
    if a != [] && a[0] == b[0] && b[0] == c[0] {
      LessTransitive(a[1..], b[1..], c[1..]);
    }
  }

  lemma {:induction false} LessTotal(a: Key, b: Key)
    ensures Less(a, b) || a == b || Less(b, a)
    decreases |a|
  {
    if a != [] && b != [] && a[0] == b[0] {
      LessTotal(a[1..], b[1..]);
      assert a == [a[0]] + a[1..] && b == [b[0]] + b[1..];
    }
  }

  lemma LessAsymmetric(a: Key, b: Key)
    requires Less(a, b)
    ensures !Less(b, a) && a != b
  {
    LessIrreflexive(a);
    if Less(b, a) { LessTransitive(a, b, a); }
  }

  /** A common prefix does not affect the order. */
  lemma {:induction false} LessUnderPrefix(p: Key, a: Key, b: Key)
    ensures Less(p + a, p + b) == Less(a, b)
    decreases |p|
  {
    if p == [] {
      assert p + a == a && p + b == b;
    } else {
      assert (p + a)[1..] == p[1..] + a && (p + b)[1..] == p[1..] + b;
      LessUnderPrefix(p[1..], a, b);
    }
  }

  // ---- sorted key sequences ------------------------------------------

  ghost predicate Ascending(s: seq<Key>)
  {
    forall i, j :: 0 <= i < j < |s| ==> Less(s[i], s[j])
  }

  /** The keys of `s`, in ascending order: the iteration order of a `BTreeMap`. */
  ghost predicate IsSorting(ks: seq<Key>, s: set<Key>)
  {
    Ascending(ks) && forall k :: k in s <==> k in ks
  }

  lemma AscendingDistinct(s: seq<Key>)
    requires Ascending(s)
    ensures forall i, j :: 0 <= i < j < |s| ==> s[i] != s[j]
  {
    forall i, j | 0 <= i < j < |s| ensures s[i] != s[j] { LessIrreflexive(s[i]); }
  }

  ghost predicate IsLeast(k: Key, s: set<Key>)
  {
    k in s && forall j :: j in s ==> !Less(j, k)
  }

  lemma {:induction false} LeastExists(s: set<Key>)
    requires s != {}
    ensures exists k :: IsLeast(k, s)
    decreases |s|
  {
    var x :| x in s;
    var rest := s - {x};
    LessIrreflexive(x);
    if rest == {} {
      assert s == {x};
      assert IsLeast(x, s);
    } else {
      LeastExists(rest);
      var k :| IsLeast(k, rest);
      if Less(x, k) {
        forall j | j in s ensures !Less(j, x) {
          if Less(j, x) {
            LessTransitive(j, x, k);
          }
        }
        assert IsLeast(x, s);
      } else {
        assert forall j :: j in s ==> j == x || j in rest;
        assert IsLeast(k, s);
      }
    }
  }

  ghost function Least(s: set<Key>): (k: Key)
    requires s != {}
    ensures IsLeast(k, s)
  {
    LeastExists(s);
    var k :| IsLeast(k, s);
    k
  }

  ghost function Sorted(s: set<Key>): seq<Key>
    decreases |s|
  {
    if s == {} then [] else [Least(s)] + Sorted(s - {Least(s)})
  }

  lemma {:induction false} SortedIs(s: set<Key>)
    ensures IsSorting(Sorted(s), s)
    decreases |s|
  {
    if s != {} {
      var k := Least(s);
      SortedIs(s - {k});
      var rest := Sorted(s - {k});
      forall j | j in rest ensures Less(k, j) { LessTotal(k, j); }
    }
  }

  lemma LeastUnique(s: set<Key>, k: Key)
    requires IsLeast(k, s)
    ensures k == Least(s)
  {
    LessTotal(k, Least(s));
  }

  lemma HeadsAgree(a: seq<Key>, b: seq<Key>)
    requires Ascending(a) && Ascending(b) && a != [] && b != []
    requires a[0] in b && b[0] in a
    ensures a[0] == b[0]
  {
    var i :| 0 <= i < |b| && b[i] == a[0];
    var j :| 0 <= j < |a| && a[j] == b[0];
    if i > 0 && j > 0 {
      LessAsymmetric(a[0], b[0]);
      assert false;
    }
  }

  /** A set has only one ascending listing. */
  lemma {:induction false} SortingUnique(a: seq<Key>, b: seq<Key>)
    requires Ascending(a) && Ascending(b)
    requires forall k :: k in a <==> k in b
    ensures a == b
    decreases |a|
  {
    assert a != [] ==> a[0] in a;
    assert b != [] ==> b[0] in b;
    if a != [] && b != [] {
      HeadsAgree(a, b);
      AscendingDistinct(a);
      AscendingDistinct(b);
      forall k ensures k in a[1..] <==> k in b[1..] {
        assert k in a[1..] <==> k in a && k != a[0];
        assert k in b[1..] <==> k in b && k != b[0];
      }
      SortingUnique(a[1..], b[1..]);
      assert a == [a[0]] + a[1..] && b == [b[0]] + b[1..];
    }
  }

  /** Iterate a key set in byte order, as a walk over a `BTreeSet` does. */
  method KeysInOrder(s: set<Key>) returns (ks: seq<Key>)
    ensures ks == Sorted(s)
  {
    ks := [];
    var rest := s;
    while rest != {}
      invariant Sorted(s) == ks + Sorted(rest)
      decreases |rest|
    {
      var k := FirstKey(rest);
      assert Sorted(rest) == [k] + Sorted(rest - {k});
      ks, rest := ks + [k], rest - {k};
    }
  }

  method FirstKey(s: set<Key>) returns (k: Key)
    requires s != {}
    ensures k == Least(s)
  {
    LeastExists(s);
    assert exists k :: k in s && forall j | j in s :: !Less(j, k) by {
      var k :| IsLeast(k, s);
    }
    k :| k in s && forall j | j in s :: !Less(j, k);
    LeastUnique(s, k);
  }

  // ---- big-endian integers -------------------------------------------

  /** `width` bytes, most significant first. */
  function ToBE(n: nat, width: nat): (s: seq<byte>)
    ensures |s| == width
    decreases width
  {
    if width == 0 then [] else ToBE(n / 256, width - 1) + [n % 256]
  }

  function FromBE(s: seq<byte>): nat
  {
    if s == [] then 0 else 256 * FromBE(s[..|s| - 1]) + s[|s| - 1]
  }

  function Pow256(width: nat): (p: nat)
    ensures p > 0
  {
    if width == 0 then 1 else 256 * Pow256(width - 1)
  }

  lemma Widths()
    ensures Pow256(4) == U32_MAX + 1 && Pow256(8) == U64_MAX + 1
  {
    assert Pow256(4) == 256 * (256 * (256 * (256 * Pow256(0))));
    assert Pow256(8) == 256 * (256 * (256 * (256 * Pow256(4))));
  }

  lemma {:induction false} BERoundTrip(n: nat, width: nat)
    requires n < Pow256(width)
    ensures FromBE(ToBE(n, width)) == n
    decreases width
  {
    if width > 0 {
      BERoundTrip(n / 256, width - 1);
      assert ToBE(n, width)[..width - 1] == ToBE(n / 256, width - 1);
    }
  }

  lemma {:induction false} BEInverse(s: seq<byte>)
    ensures FromBE(s) < Pow256(|s|) && ToBE(FromBE(s), |s|) == s
    decreases |s|
  {
    if s != [] {
      var head, last := s[..|s| - 1], s[|s| - 1];
      BEInverse(head);
      assert FromBE(s) / 256 == FromBE(head) && FromBE(s) % 256 == last;
      assert s == head + [last];
    }
  }

  /** Fixed-width big-endian integers sort as the numbers do. */
  lemma {:induction false} BEOrder(a: nat, b: nat, width: nat)
    requires a < Pow256(width) && b < Pow256(width)
    ensures Less(ToBE(a, width), ToBE(b, width)) == (a < b)
    decreases width
  {
    if width == 0 {
    } else {
      BEOrder(a / 256, b / 256, width - 1);
      LessAppend(ToBE(a / 256, width - 1), ToBE(b / 256, width - 1), a % 256, b % 256);
      if ToBE(a / 256, width - 1) == ToBE(b / 256, width - 1) {
        BERoundTrip(a / 256, width - 1);
        BERoundTrip(b / 256, width - 1);
      }
    }
  }

  lemma {:induction false} LessAppend(a: Key, b: Key, x: byte, y: byte)
    requires |a| == |b|
    ensures Less(a + [x], b + [y]) == (Less(a, b) || (a == b && x < y))
    decreases |a|
  {
    if a == [] {
    } else {
      assert (a + [x])[1..] == a[1..] + [x] && (b + [y])[1..] == b[1..] + [y];
      LessAppend(a[1..], b[1..], x, y);
      assert a == [a[0]] + a[1..] && b == [b[0]] + b[1..];
    }
  }
}
