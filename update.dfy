/** The version check of the `update` command (src/cli/commands/update.rs):
    the release tag with its leading `v`s removed, and `compare_versions`,
    which looks only at the first three numeric components. Fetching the
    release and running `git` are not part of this model. */
module Update {
  import opened Decimal
  import opened Version

  /** `trim_start_matches('v')`: every leading `v` removed. */
  function StripTagV(tag: string): (r: string)
    ensures |r| <= |tag| && r == tag[|tag| - |r|..]
    ensures r == [] || r[0] != 'v'
    ensures forall i :: 0 <= i < |tag| - |r| ==> tag[i] == 'v'
  {
    if tag != [] && tag[0] == 'v' then
      var r := StripTagV(tag[1..]);
      assert tag[1..][|tag| - 1 - |r|..] == tag[|tag| - |r|..];
      r
    else tag
  }

  /** The loop of `compare_versions` from component `i` to the third:
      true when `current` is at least `latest`. */
  function AtLeastFrom(current: seq<u32>, latest: seq<u32>, i: nat): bool
    decreases 3 - i
  {
    if i >= 3 then true
    else if Get(current, i) > Get(latest, i) then true
    else if Get(current, i) < Get(latest, i) then false
    else AtLeastFrom(current, latest, i + 1)
  }

  /** `compare_versions(current, latest)`: no update is needed. */
  function CompareVersions(current: string, latest: string): (r: bool)
    ensures r <==> CompareFrom(NumericParts(current), NumericParts(latest), 0, 3) != Less
  {
    AtLeastFromIsNotLess(NumericParts(current), NumericParts(latest), 0);
    AtLeastFrom(NumericParts(current), NumericParts(latest), 0)
  }

  // ---------------------------------------------------------------- lemmas

  /** Removing the `v`s twice removes nothing more. */
  lemma StripTagVIdempotent(tag: string)
    ensures StripTagV(StripTagV(tag)) == StripTagV(tag)
  {
  }

  lemma {:induction false} AtLeastFromIsNotLess(a: seq<u32>, b: seq<u32>, i: nat)
    requires i <= 3
    ensures AtLeastFrom(a, b, i) <==> CompareFrom(a, b, i, 3) != Less
    decreases 3 - i
  {
    if i < 3 && Get(a, i) == Get(b, i) {
      AtLeastFromIsNotLess(a, b, i + 1);
    }
  }

  /** On versions of one to three numeric components, `compare_versions`
      agrees with `Version::compare`: true exactly when `compare` finds
      `current` not below `latest`. */
  lemma CompareVersionsAgreesWithCompare(current: string, latest: string)
    requires 0 < |NumericParts(current)| <= 3 && 0 < |NumericParts(latest)| <= 3
    ensures Compare(current, latest).Some?
    ensures CompareVersions(current, latest) <==> Compare(current, latest).value != Less
  {
    var a, b := NumericParts(current), NumericParts(latest);
    AtLeastFromIsNotLess(a, b, 0);
    CompareFromBound(a, b, 0, Max(|a|, |b|), 3);
  }

  /** Total: one side is always at least the other. */
  lemma CompareVersionsTotal(v1: string, v2: string)
    ensures CompareVersions(v1, v2) || CompareVersions(v2, v1)
  {
    var a, b := NumericParts(v1), NumericParts(v2);
    AtLeastFromIsNotLess(a, b, 0);
    AtLeastFromIsNotLess(b, a, 0);
    CompareFromFlip(a, b, 0, 3);
  }

  lemma CompareVersionsReflexive(v: string)
    ensures CompareVersions(v, v)
  {
    AtLeastFromIsNotLess(NumericParts(v), NumericParts(v), 0);
  }

  /** Only the first three components matter: versions that agree there
      compare alike against anything, so `1.2.3.9` and `1.2.3.1` are each
      at least the other. */
  lemma CompareVersionsFirstThree(v1: string, v2: string, w: string)
    requires forall k: nat :: k < 3 ==> Get(NumericParts(v1), k) == Get(NumericParts(v2), k)
    ensures CompareVersions(v1, w) == CompareVersions(v2, w)
    ensures CompareVersions(w, v1) == CompareVersions(w, v2)
    ensures CompareVersions(v1, v2) && CompareVersions(v2, v1)
  {
    var a, b, c := NumericParts(v1), NumericParts(v2), NumericParts(w);
    SameFirstThree(a, b, c, 0);
    SameFirstThree(c, c, a, 0);
    AtLeastFromIsNotLess(a, b, 0);
    AtLeastFromIsNotLess(b, a, 0);
    AtLeastFromIsNotLess(c, a, 0);
    AtLeastFromIsNotLess(c, b, 0);
  }

  lemma {:induction false} SameFirstThree(a: seq<u32>, b: seq<u32>, c: seq<u32>, i: nat)
    requires i <= 3
    requires forall k: nat :: k < 3 ==> Get(a, k) == Get(b, k)
    ensures AtLeastFrom(a, c, i) == AtLeastFrom(b, c, i)
    ensures AtLeastFrom(c, a, i) == AtLeastFrom(c, b, i)
    ensures AtLeastFrom(a, b, i)
    decreases 3 - i
  {
    if i < 3 {
      SameFirstThree(a, b, c, i + 1);
    }
  }
}
