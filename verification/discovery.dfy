/**
 * From a directory walk to the ordered list of samples: a directory whose
 * group is complete contributes one sample per reference file, all sharing
 * its mask, distorted and flawless files; any other directory contributes
 * nothing.
 */
module Discovery {
  import opened Wrappers
  import opened Roles
  import opened Classify

  /** One step of `os.walk`: a directory and the names of the files directly in it. */
  datatype Listing = Listing(dir: string, files: seq<string>)

  /** One output sample: the directory and the four file names it pairs. */
  datatype Sample = Sample(dir: string, reference: string, mask: string, distorted: string, flawless: string)

  /** The script's gate: at least one reference and a mask, distorted and flawless file. */
  predicate Complete(g: Group) {
    |g.references| > 0 && g.mask.Some? && g.distorted.Some? && g.flawless.Some?
  }

  /** One sample per reference name, in order, each with the same other three files. */
  function FanOut(dir: string, references: seq<string>, mask: string, distorted: string, flawless: string)
    : (samples: seq<Sample>)
    ensures |samples| == |references|
    ensures forall k :: 0 <= k < |samples| ==>
      samples[k].reference == references[k] && samples[k].dir == dir &&
      samples[k].mask == mask && samples[k].distorted == distorted && samples[k].flawless == flawless
  {
    if references == [] then []
    else
      var n := |references| - 1;
      FanOut(dir, references[..n], mask, distorted, flawless)
        + [Sample(dir, references[n], mask, distorted, flawless)]
  }

  /** The samples one directory's group yields. */
  function SamplesOf(dir: string, g: Group): seq<Sample> {
    if Complete(g) then FanOut(dir, g.references, g.mask.value, g.distorted.value, g.flawless.value)
    else []
  }

  /** The samples of a whole walk, in walk order and then reference order. */
  function Samples(walk: seq<Listing>): seq<Sample> {
    if walk == [] then []
    else
      var n := |walk| - 1;
      Samples(walk[..n]) + SamplesOf(walk[n].dir, GroupOf(walk[n].files))
  }

  /** The final counter, counted directly: reference files over complete directories. */
  function CompleteReferenceCount(walk: seq<Listing>): nat {
    if walk == [] then 0
    else
      var n := |walk| - 1;
      var g := GroupOf(walk[n].files);
      CompleteReferenceCount(walk[..n]) + (if Complete(g) then |g.references| else 0)
  }

  /** A directory yields no samples exactly when its group is incomplete. */
  lemma NoSamplesIffIncomplete(dir: string, g: Group)
    ensures SamplesOf(dir, g) == [] <==> !Complete(g)
  {
  }

  /**
   * A complete directory with k reference files yields exactly k samples, in
   * reference order, sharing the directory's mask, distorted and flawless files.
   */
  lemma CompleteFanOut(dir: string, g: Group)
    requires Complete(g)
    ensures |SamplesOf(dir, g)| == |g.references|
    ensures forall k :: 0 <= k < |g.references| ==>
      SamplesOf(dir, g)[k] == Sample(dir, g.references[k], g.mask.value, g.distorted.value, g.flawless.value)
  {
  }

  /** Some name of the listing is classified with role `r`. */
  predicate Listed(files: seq<string>, r: Role) {
    exists j :: 0 <= j < |files| && RoleOf(files[j]) == Some(r)
  }

  /** The completeness gate, read on the listing: every one of the four roles has a listed name. */
  lemma CompleteIffEveryRoleListed(files: seq<string>)
    ensures Complete(GroupOf(files)) <==> forall r: Role :: Listed(files, r)
  {
    LastWithRoleNone(files, Mask);
    LastWithRoleNone(files, Distorted);
    LastWithRoleNone(files, Flawless);
    var refs := ReferenceFiles(files);
    if Listed(files, Reference) {
      var j :| 0 <= j < |files| && RoleOf(files[j]) == Some(Reference);
      ReferenceFilesMembers(files, files[j]);
    }
    if Complete(GroupOf(files)) {
      ReferenceFilesMembers(files, refs[0]);
      var j :| 0 <= j < |files| && files[j] == refs[0];
      forall r: Role
        ensures Listed(files, r)
      {
        match r
        case Reference => assert RoleOf(files[j]) == Some(Reference);
        case Mask =>
        case Distorted =>
        case Flawless =>
      }
    }
    if forall r: Role :: Listed(files, r) {
      assert Listed(files, Mask) && Listed(files, Distorted) && Listed(files, Flawless);
    }
  }

  /** The number of samples is the sum of reference counts over complete directories. */
  lemma {:induction false} SampleCount(walk: seq<Listing>)
    ensures |Samples(walk)| == CompleteReferenceCount(walk)
  {
    if walk != [] {
      SampleCount(walk[..|walk| - 1]);
    }
  }

  /** Samples of a longer walk extend those of its prefix. */
  lemma {:induction false} SamplesAppend(walk: seq<Listing>, listing: Listing)
    ensures Samples(walk + [listing]) == Samples(walk) + SamplesOf(listing.dir, GroupOf(listing.files))
  {
    assert (walk + [listing])[..|walk|] == walk;
  }

  /** Listing one more directory leaves the sample count unchanged exactly when its group is incomplete. */
  lemma CountUnchangedIffIncomplete(walk: seq<Listing>, listing: Listing)
    ensures |Samples(walk + [listing])| == |Samples(walk)| <==> !Complete(GroupOf(listing.files))
  {
    SamplesAppend(walk, listing);
    NoSamplesIffIncomplete(listing.dir, GroupOf(listing.files));
  }

  /** The four files of a sample each carry the role they are used for. */
  predicate WellFormed(s: Sample) {
    RoleOf(s.reference) == Some(Reference) && RoleOf(s.mask) == Some(Mask) &&
    RoleOf(s.distorted) == Some(Distorted) && RoleOf(s.flawless) == Some(Flawless)
  }

  /**
   * Every sample comes from one listed directory: its reference is one of
   * that directory's reference files and its other three files are the last
   * files of their roles there.
   */
  lemma {:induction false} SamplesFromListing(walk: seq<Listing>, j: nat)
    requires j < |Samples(walk)|
    ensures exists d :: 0 <= d < |walk| && SampleOfListing(Samples(walk)[j], walk[d])
  {
    var n := |walk| - 1;
    var prefix := Samples(walk[..n]);
    if j < |prefix| {
      SamplesFromListing(walk[..n], j);
      var d :| 0 <= d < n && SampleOfListing(prefix[j], walk[..n][d]);
      assert walk[..n][d] == walk[d];
    } else {
      var g := GroupOf(walk[n].files);
      var s := Samples(walk)[j];
      assert s == SamplesOf(walk[n].dir, g)[j - |prefix|];
      ReferenceFilesMembers(walk[n].files, s.reference);
      assert SampleOfListing(s, walk[n]);
    }
  }

  /** `s` pairs a reference file of `l` with the last mask, distorted and flawless files of `l`. */
  predicate SampleOfListing(s: Sample, l: Listing) {
    var g := GroupOf(l.files);
    s.dir == l.dir && s.reference in l.files && RoleOf(s.reference) == Some(Reference) &&
    g.mask == Some(s.mask) && g.distorted == Some(s.distorted) && g.flawless == Some(s.flawless)
  }

  /** Every sample's files carry the roles they are used for. */
  lemma SampleRoles(walk: seq<Listing>, j: nat)
    requires j < |Samples(walk)|
    ensures WellFormed(Samples(walk)[j])
  {
    SamplesFromListing(walk, j);
    var d :| 0 <= d < |walk| && SampleOfListing(Samples(walk)[j], walk[d]);
    var s := Samples(walk)[j];
    var _ := LastWithRoleSome(walk[d].files, Mask);
    var _ := LastWithRoleSome(walk[d].files, Distorted);
    var _ := LastWithRoleSome(walk[d].files, Flawless);
  }

  /** A directory with one each of flawless, distorted and mask files and two references. */
  const EXAMPLE_FILES: seq<string> :=
    ["flawless_a.jpg", "distorted_a.jpg", "mask_a.jpg", "reference_a.jpg", "reference_b.jpg"]

  lemma ExampleRoles()
    ensures RoleOf(EXAMPLE_FILES[0]) == Some(Flawless) && RoleOf(EXAMPLE_FILES[1]) == Some(Distorted)
    ensures RoleOf(EXAMPLE_FILES[2]) == Some(Mask) && RoleOf(EXAMPLE_FILES[3]) == Some(Reference)
    ensures RoleOf(EXAMPLE_FILES[4]) == Some(Reference)
  {
    assert EXAMPLE_FILES[0][..8] == FLAWLESS_KEYWORD;
    assert EXAMPLE_FILES[1][..9] == DISTORTED_KEYWORD;
    assert EXAMPLE_FILES[2][..4] == MASK_KEYWORD;
    assert EXAMPLE_FILES[3][..9] == REFERENCE_KEYWORD;
    assert EXAMPLE_FILES[4][..9] == REFERENCE_KEYWORD;
  }

  lemma ExampleGroup()
    ensures GroupOf(EXAMPLE_FILES) == Group(["reference_a.jpg", "reference_b.jpg"], Some("mask_a.jpg"),
                                            Some("distorted_a.jpg"), Some("flawless_a.jpg"))
  {
    var files := EXAMPLE_FILES;
    ExampleRoles();
    assert files[..4][..3] == files[..3] && files[..3][..2] == files[..2] && files[..2][..1] == files[..1];
    assert files[..1][..0] == [];
    assert ReferenceFiles(files[..3]) == [] by {
      assert ReferenceFiles(files[..1]) == [];
      assert ReferenceFiles(files[..2]) == [];
    }
    assert ReferenceFiles(files) == ReferenceFiles(files[..4]) + [files[4]] == [files[3], files[4]];
    assert LastWithRole(files, Mask) == LastWithRole(files[..4], Mask) == LastWithRole(files[..3], Mask);
    assert LastWithRole(files, Distorted) == LastWithRole(files[..3], Distorted) == LastWithRole(files[..2], Distorted);
    assert LastWithRole(files, Flawless) == LastWithRole(files[..2], Flawless) == LastWithRole(files[..1], Flawless);
  }

  /** That directory yields two samples, numbered 0 and 1, differing only in the reference. */
  lemma TwoReferenceExample()
    ensures Samples([Listing("sample1", EXAMPLE_FILES)]) == [
        Sample("sample1", "reference_a.jpg", "mask_a.jpg", "distorted_a.jpg", "flawless_a.jpg"),
        Sample("sample1", "reference_b.jpg", "mask_a.jpg", "distorted_a.jpg", "flawless_a.jpg")]
  {
    ExampleGroup();
    assert [Listing("sample1", EXAMPLE_FILES)][..0] == [];
    CompleteFanOut("sample1", GroupOf(EXAMPLE_FILES));
  }
}
