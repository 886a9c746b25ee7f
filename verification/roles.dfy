/**
 * The four sample roles, the keyword each is recognised by, the script's
 * first-match prefix test and the output file name `{role}/{index}.jpg`.
 */
module Roles {
  import opened Wrappers
  import opened Decimal

  datatype Role = Reference | Mask | Distorted | Flawless

  const FLAWLESS_KEYWORD: string := "flawless"
  const DISTORTED_KEYWORD: string := "distorted"
  const MASK_KEYWORD: string := "mask"
  const REFERENCE_KEYWORD: string := "reference"

  /** Every role, for quantifying over roles in a finite set. */
  const ALL_ROLES: set<Role> := {Reference, Mask, Distorted, Flawless}

  function Keyword(r: Role): string {
    match r
    case Reference => REFERENCE_KEYWORD
    case Mask => MASK_KEYWORD
    case Distorted => DISTORTED_KEYWORD
    case Flawless => FLAWLESS_KEYWORD
  }

  /** Position of a role in the order in which the script tests the prefixes. */
  function Rank(r: Role): nat {
    match r
    case Reference => 0
    case Mask => 1
    case Distorted => 2
    case Flawless => 3
  }

  /** Python's `s.startswith(prefix)`. */
  predicate StartsWith(s: string, prefix: string) {
    |prefix| <= |s| && s[..|prefix|] == prefix
  }

  /**
   * The role a file name is given by the `if`/`elif` chain: the first
   * keyword in the order reference, mask, distorted, flawless that prefixes
   * the name, or none.
   */
  function RoleOf(name: string): (role: Option<Role>)
    ensures role.Some? <==>
      StartsWith(name, REFERENCE_KEYWORD) || StartsWith(name, MASK_KEYWORD) ||
      StartsWith(name, DISTORTED_KEYWORD) || StartsWith(name, FLAWLESS_KEYWORD)
    ensures role.Some? ==> StartsWith(name, Keyword(role.value))
    ensures role.Some? ==> forall r :: Rank(r) < Rank(role.value) ==> !StartsWith(name, Keyword(r))
  {
    if StartsWith(name, REFERENCE_KEYWORD) then Some(Reference)
    else if StartsWith(name, MASK_KEYWORD) then Some(Mask)
    else if StartsWith(name, DISTORTED_KEYWORD) then Some(Distorted)
    else if StartsWith(name, FLAWLESS_KEYWORD) then Some(Flawless)
    else None
  }

  lemma KeywordInjective(r1: Role, r2: Role)
    ensures Keyword(r1) == Keyword(r2) ==> r1 == r2
  {
  }

  /** No keyword is a prefix of another one: their first letters differ. */
  lemma KeywordsPrefixFree(r1: Role, r2: Role)
    requires r1 != r2
    ensures !StartsWith(Keyword(r2), Keyword(r1))
  {
    var k1, k2 := Keyword(r1), Keyword(r2);
    assert k1[0] != k2[0];
    if |k1| <= |k2| {
      assert k2[..|k1|][0] == k2[0];
    }
  }

  /**
   * A name is prefixed by at most one keyword, so the order of the tests
   * never decides a role: every name the script classifies would get the same
   * role under any order of the four tests.
   */
  lemma AtMostOneRole(name: string, r1: Role, r2: Role)
    requires StartsWith(name, Keyword(r1)) && StartsWith(name, Keyword(r2))
    ensures r1 == r2
  {
    if r1 != r2 {
      var k1, k2 := Keyword(r1), Keyword(r2);
      if |k1| <= |k2| {
        assert k2[..|k1|] == name[..|k2|][..|k1|] == name[..|k1|];
        KeywordsPrefixFree(r1, r2);
      } else {
        assert k1[..|k2|] == name[..|k1|][..|k2|] == name[..|k2|];
        KeywordsPrefixFree(r2, r1);
      }
    }
  }

  /** The role given to a name is exactly the one whose keyword prefixes it. */
  lemma RoleOfExact(name: string, r: Role)
    ensures RoleOf(name) == Some(r) <==> StartsWith(name, Keyword(r))
  {
    if StartsWith(name, Keyword(r)) {
      var got := RoleOf(name);
      AtMostOneRole(name, got.value, r);
    }
  }

  /** `reference_mask.jpg` is a reference image, not a mask. */
  lemma ReferenceMaskName()
    ensures RoleOf("reference_mask.jpg") == Some(Reference)
  {
    assert "reference_mask.jpg"[..9] == REFERENCE_KEYWORD;
  }

  /** The file name `f'{index}.jpg'`. */
  function IndexFileName(index: nat): string {
    NatToString(index) + ".jpg"
  }

  /** `os.path.join(keyword, f'{index}.jpg')`, the path the script saves role `r` of sample `index` to. */
  function OutputPath(r: Role, index: nat): string {
    Keyword(r) + "/" + IndexFileName(index)
  }

  /**
   * An output path is the role's directory, then a decimal file name ending
   * in `.jpg` whose digits read back as the index.
   */
  lemma OutputPathParts(r: Role, index: nat)
    ensures var p, k := OutputPath(r, index), |Keyword(r)|;
      k + 5 < |p| && p[..k + 1] == Keyword(r) + "/" && p[|p| - 4..] == ".jpg" &&
      AllDigits(p[k + 1..|p| - 4]) && ParseDigits(p[k + 1..|p| - 4]) == index
  {
    var p, k := OutputPath(r, index), |Keyword(r)|;
    assert p[k + 1..|p| - 4] == NatToString(index);
    ParseNatToString(index);
  }

  predicate NoSlash(s: string) {
    forall k :: 0 <= k < |s| ==> s[k] != '/'
  }

  /** Position of the first `/` in `s`, or `|s|` when there is none. */
  function SlashIndex(s: string): (i: nat)
    ensures i <= |s|
  {
    if s == [] || s[0] == '/' then 0 else 1 + SlashIndex(s[1..])
  }

  lemma {:induction false} SlashIndexAfter(k: string, t: string)
    requires NoSlash(k)
    ensures SlashIndex(k + "/" + t) == |k|
  {
    if k != [] {
      assert (k + "/" + t)[1..] == k[1..] + "/" + t;
      SlashIndexAfter(k[1..], t);
    }
  }

  /** A slash-free head followed by a slash is recovered from the whole. */
  lemma SplitAtSlash(k1: string, t1: string, k2: string, t2: string)
    requires NoSlash(k1) && NoSlash(k2)
    requires k1 + "/" + t1 == k2 + "/" + t2
    ensures k1 == k2 && t1 == t2
  {
    var p := k1 + "/" + t1;
    SlashIndexAfter(k1, t1);
    SlashIndexAfter(k2, t2);
    assert k1 == p[..|k1|] == k2;
    assert t1 == p[|k1| + 1..] == t2;
  }

  /** Distinct (role, index) pairs name distinct output files. */
  lemma OutputPathInjective(r1: Role, i1: nat, r2: Role, i2: nat)
    ensures OutputPath(r1, i1) == OutputPath(r2, i2) ==> r1 == r2 && i1 == i2
  {
    if OutputPath(r1, i1) == OutputPath(r2, i2) {
      var k1, k2 := Keyword(r1), Keyword(r2);
      var d1, d2 := NatToString(i1), NatToString(i2);
      KeywordNoSlash(r1);
      KeywordNoSlash(r2);
      SplitAtSlash(k1, IndexFileName(i1), k2, IndexFileName(i2));
      KeywordInjective(r1, r2);
      DropSuffix(d1, d2, ".jpg");
      NatToStringInjective(i1, i2);
    }
  }

  lemma KeywordNoSlash(r: Role)
    ensures NoSlash(Keyword(r))
  {
  }

  lemma DropSuffix(a: string, b: string, suffix: string)
    requires a + suffix == b + suffix
    ensures a == b
  {
    assert a == (a + suffix)[..|a|] == (b + suffix)[..|b|] == b;
  }
}
