/** Dotted version strings (src/utils/version.rs): the components that
    parse as `u32`, compared lexicographically with the shorter side padded
    with zeros. */
module Version {
  import opened Wrappers
  import opened Text
  import opened Decimal

  /** `std::cmp::Ordering`. */
  datatype Ordering = Less | Equal | Greater

  function Flip(o: Ordering): Ordering {
    match o
    case Less => Greater
    case Equal => Equal
    case Greater => Less
  }

  /** `filter_map(|s| s.parse().ok())` over the pieces. */
  function ParsedParts(pieces: seq<string>): (r: seq<u32>)
    ensures |r| <= |pieces|
  {
    if pieces == [] then []
    else match ParseU32(pieces[0])
      case Some(n) => [n] + ParsedParts(pieces[1..])
      case None => ParsedParts(pieces[1..])
  }

  /** The numeric components of a version string, in order. */
  function NumericParts(v: string): seq<u32> {
    ParsedParts(Split(v, '.'))
  }

  /** `parts.get(i).copied().unwrap_or(0)`. */
  function Get(parts: seq<u32>, i: nat): nat {
    if i < |parts| then parts[i] else 0
  }

  function Max(a: nat, b: nat): nat {
    if a < b then b else a
  }

  /** The index loop of `compare` from `i` up to `n`: the first component
      that differs decides. */
  function CompareFrom(a: seq<u32>, b: seq<u32>, i: nat, n: nat): (r: Ordering)
    ensures r == Equal <==> forall k :: i <= k < n ==> Get(a, k) == Get(b, k)
    decreases n - i
  {
    if i >= n then Equal
    else if Get(a, i) < Get(b, i) then Less
    else if Get(a, i) > Get(b, i) then Greater
    else CompareFrom(a, b, i + 1, n)
  }

  /** `Version::compare`. */
  function Compare(v1: string, v2: string): (r: Option<Ordering>)
    ensures r.None? <==> NumericParts(v1) == [] || NumericParts(v2) == []
  {
    var a, b := NumericParts(v1), NumericParts(v2);
    if a == [] || b == [] then None
    else Some(CompareFrom(a, b, 0, Max(|a|, |b|)))
  }

  /** `Version::is_newer`. */
  function IsNewer(newVersion: string, currentVersion: string): (r: bool)
    ensures r ==> NumericParts(newVersion) != [] && NumericParts(currentVersion) != []
    ensures r ==> NumericParts(newVersion) != NumericParts(currentVersion)
  {
    match Compare(newVersion, currentVersion)
    case Some(o) => o == Greater
    case None => false
  }

  // ------------------------------------------- the lexicographic reference

  /** The first `n` components, padded with zeros. */
  function Padded(a: seq<u32>, n: nat): (r: seq<nat>)
    ensures |r| == n && forall k :: 0 <= k < n ==> r[k] == Get(a, k)
  {
    seq(n, k requires 0 <= k < n => Get(a, k))
  }

  /** `a` is below `b` at position `k`, the two agreeing before it. */
  predicate LessAt(a: seq<nat>, b: seq<nat>, k: nat)
    requires |a| == |b|
  {
    k < |a| && a[k] < b[k] && a[..k] == b[..k]
  }

  /** `a` and `b` agree from `i` up to `k`. */
  predicate AgreeBetween(a: seq<u32>, b: seq<u32>, i: nat, k: nat) {
    forall j: nat :: i <= j < k ==> Get(a, j) == Get(b, j)
  }

  /** The first difference between the padded sides, when there is one,
      decides `CompareFrom`. */
  lemma {:induction false} CompareFromLess(a: seq<u32>, b: seq<u32>, i: nat, n: nat)
    requires i <= n
    ensures CompareFrom(a, b, i, n) == Less <==>
      exists k: nat :: i <= k < n && Get(a, k) < Get(b, k) && AgreeBetween(a, b, i, k)
    decreases n - i
  {
    if i < n && Get(a, i) == Get(b, i) {
      CompareFromLess(a, b, i + 1, n);
      if CompareFrom(a, b, i + 1, n) == Less {
        var k: nat :| i + 1 <= k < n && Get(a, k) < Get(b, k) && AgreeBetween(a, b, i + 1, k);
        assert AgreeBetween(a, b, i, k);
      }
    } else if i < n && Get(a, i) < Get(b, i) {
      assert AgreeBetween(a, b, i, i);
    }
  }

  /** Agreement of the lists below `k` is equality of the padded prefixes. */
  lemma AgreePadded(a: seq<u32>, b: seq<u32>, k: nat, n: nat)
    requires k <= n
    ensures AgreeBetween(a, b, 0, k) <==> Padded(a, n)[..k] == Padded(b, n)[..k]
  {
    var pa, pb := Padded(a, n)[..k], Padded(b, n)[..k];
    assert forall j: nat :: j < k ==> pa[j] == Get(a, j) && pb[j] == Get(b, j);
  }

  /** `compare` is the lexicographic order on the zero-padded lists:
      `Less` exactly when the padded left side is below the right at their
      first difference. */
  lemma CompareIsLexicographic(a: seq<u32>, b: seq<u32>)
    ensures var n := Max(|a|, |b|);
      CompareFrom(a, b, 0, n) == Less <==> exists k: nat :: LessAt(Padded(a, n), Padded(b, n), k)
  {
    var n := Max(|a|, |b|);
    var pa, pb := Padded(a, n), Padded(b, n);
    CompareFromLess(a, b, 0, n);
    if CompareFrom(a, b, 0, n) == Less {
      var k: nat :| k < n && Get(a, k) < Get(b, k) && AgreeBetween(a, b, 0, k);
      AgreePadded(a, b, k, n);
      assert LessAt(pa, pb, k);
    }
    if k: nat :| LessAt(pa, pb, k) {
      AgreePadded(a, b, k, n);
      assert Get(a, k) < Get(b, k);
    }
  }

  /** Components beyond both lists are zero on both sides, so the bound of
      the loop does not matter once it covers both lists. */
  lemma {:induction false} CompareFromBound(a: seq<u32>, b: seq<u32>, i: nat, n: nat, m: nat)
    requires Max(|a|, |b|) <= n <= m
    ensures CompareFrom(a, b, i, n) == CompareFrom(a, b, i, m)
    decreases m - i
  {
    if i < n && Get(a, i) == Get(b, i) {
      CompareFromBound(a, b, i + 1, n, m);
    } else if n <= i < m {
      assert Get(a, i) == 0 == Get(b, i);
      CompareFromBound(a, b, i + 1, n, m);
    }
  }

  lemma {:induction false} CompareFromFlip(a: seq<u32>, b: seq<u32>, i: nat, n: nat)
    ensures CompareFrom(b, a, i, n) == Flip(CompareFrom(a, b, i, n))
    decreases n - i
  {
    if i < n && Get(a, i) == Get(b, i) {
      CompareFromFlip(a, b, i + 1, n);
    }
  }

  lemma {:induction false} CompareFromTransitive(a: seq<u32>, b: seq<u32>, c: seq<u32>, i: nat, n: nat)
    requires CompareFrom(a, b, i, n) == Less && CompareFrom(b, c, i, n) == Less
    ensures CompareFrom(a, c, i, n) == Less
    decreases n - i
  {
    if Get(a, i) == Get(b, i) && Get(b, i) == Get(c, i) {
      CompareFromTransitive(a, b, c, i + 1, n);
    }
  }

  /** Zero padding: a version and the same version with `.0` appended
      compare `Equal`, so `1.0` equals `1.0.0`. */
  lemma ComparePadding(v: string, w: string)
    requires NumericParts(w) == NumericParts(v) + [0] && NumericParts(v) != []
    ensures Compare(v, w) == Some(Equal)
  {
    var a, b := NumericParts(v), NumericParts(w);
    assert forall k :: 0 <= k < |b| ==> Get(a, k) == Get(b, k);
  }

  /** `Equal` means the zero-padded component lists coincide everywhere. */
  lemma CompareEqualIff(v1: string, v2: string)
    ensures Compare(v1, v2) == Some(Equal) <==>
      NumericParts(v1) != [] && NumericParts(v2) != [] &&
      forall k: nat :: Get(NumericParts(v1), k) == Get(NumericParts(v2), k)
  {
    var a, b := NumericParts(v1), NumericParts(v2);
    if Compare(v1, v2) == Some(Equal) {
      forall k: nat ensures Get(a, k) == Get(b, k) {
        if k >= Max(|a|, |b|) {
          assert Get(a, k) == 0 == Get(b, k);
        }
      }
    }
  }

  /** `compare(v, v)` is `Equal` whenever `v` has a numeric component. */
  lemma CompareReflexive(v: string)
    requires NumericParts(v) != []
    ensures Compare(v, v) == Some(Equal)
  {
  }

  /** `Greater` on (v1, v2) iff `Less` on (v2, v1). */
  lemma CompareAntisymmetric(v1: string, v2: string)
    ensures Compare(v1, v2) == Some(Greater) <==> Compare(v2, v1) == Some(Less)
    ensures Compare(v1, v2) == Some(Equal) <==> Compare(v2, v1) == Some(Equal)
  {
    var a, b := NumericParts(v1), NumericParts(v2);
    if a != [] && b != [] {
      CompareFromFlip(a, b, 0, Max(|a|, |b|));
    }
  }

  lemma CompareTransitive(v1: string, v2: string, v3: string)
    requires Compare(v1, v2) == Some(Less) && Compare(v2, v3) == Some(Less)
    ensures Compare(v1, v3) == Some(Less)
  {
    var a, b, c := NumericParts(v1), NumericParts(v2), NumericParts(v3);
    var n := Max(Max(|a|, |b|), |c|);
    CompareFromBound(a, b, 0, Max(|a|, |b|), n);
    CompareFromBound(b, c, 0, Max(|b|, |c|), n);
    CompareFromBound(a, c, 0, Max(|a|, |c|), n);
    CompareFromTransitive(a, b, c, 0, n);
  }

  /** `is_newer(a, b)` iff `b` compares below `a`; never for a side with
      no numeric component, and never in both directions. */
  lemma IsNewerIff(v1: string, v2: string)
    ensures IsNewer(v1, v2) <==> Compare(v1, v2) == Some(Greater)
    ensures IsNewer(v1, v2) <==> Compare(v2, v1) == Some(Less)
    ensures IsNewer(v1, v2) ==> NumericParts(v1) != [] && NumericParts(v2) != [] && !IsNewer(v2, v1)
  {
    CompareAntisymmetric(v1, v2);
  }

  /** Pieces that do not parse are dropped: `1.x.2` has the components
      `[1, 2]`. */
  lemma DropsNonNumeric(p: string, q: string, junk: string)
    requires ParseU32(p).Some? && ParseU32(q).Some? && ParseU32(junk).None?
    ensures ParsedParts([p, junk, q]) == [ParseU32(p).value, ParseU32(q).value]
  {
    var pv, qv := ParseU32(p).value, ParseU32(q).value;
    assert ParsedParts([q]) == [qv] by {
      assert [q][1..] == [];
    }
    assert ParsedParts([junk, q]) == [qv] by {
      assert [junk, q][1..] == [q];
    }
    assert [p, junk, q][1..] == [junk, q];
  }
}
