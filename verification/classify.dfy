/**
 * Classification of the files directly inside one directory into the four
 * role slots: a list of reference files and one slot each for the mask, the
 * distorted and the flawless image.
 */
module Classify {
  import opened Wrappers
  import opened Roles

  /** What the loop over one directory's files leaves behind. */
  datatype Group = Group(
    references: seq<string>,
    mask: Option<string>,
    distorted: Option<string>,
    flawless: Option<string>)

  /** The reference-prefixed names of a listing, in listing order. */
  function ReferenceFiles(files: seq<string>): seq<string> {
    if files == [] then []
    else
      var last := files[|files| - 1];
      ReferenceFiles(files[..|files| - 1]) + (if RoleOf(last) == Some(Reference) then [last] else [])
  }

  /** The last name of a listing that is classified with role `r`, if any. */
  function LastWithRole(files: seq<string>, r: Role): Option<string> {
    if files == [] then None
    else
      var last := files[|files| - 1];
      if RoleOf(last) == Some(r) then Some(last) else LastWithRole(files[..|files| - 1], r)
  }

  /** The state after the whole listing has been classified. */
  function GroupOf(files: seq<string>): Group {
    Group(ReferenceFiles(files), LastWithRole(files, Mask),
          LastWithRole(files, Distorted), LastWithRole(files, Flawless))
  }

  /**
   * The script's loop over one directory's files: reference names are
   * appended, a mask, distorted or flawless name overwrites its slot, and
   * anything else is skipped.
   */
  method ClassifyDirectory(files: seq<string>) returns (g: Group)
    ensures g == GroupOf(files)
  {
    var references: seq<string> := [];
    var mask: Option<string> := None;
    var distorted: Option<string> := None;
    var flawless: Option<string> := None;
    for k := 0 to |files|
      invariant references == ReferenceFiles(files[..k])
      invariant mask == LastWithRole(files[..k], Mask)
      invariant distorted == LastWithRole(files[..k], Distorted)
      invariant flawless == LastWithRole(files[..k], Flawless)
    {
      var file := files[k];
      assert files[..k + 1][..k] == files[..k];
      if StartsWith(file, REFERENCE_KEYWORD) {
        references := references + [file];
      } else if StartsWith(file, MASK_KEYWORD) {
        mask := Some(file);
      } else if StartsWith(file, DISTORTED_KEYWORD) {
        distorted := Some(file);
      } else if StartsWith(file, FLAWLESS_KEYWORD) {
        flawless := Some(file);
      }
    }
    assert files[..|files|] == files;
    g := Group(references, mask, distorted, flawless);
  }

  /** Reference files of a concatenation: those of each part, in order. */
  lemma {:induction false} ReferenceFilesAppend(a: seq<string>, b: seq<string>)
    ensures ReferenceFiles(a + b) == ReferenceFiles(a) + ReferenceFiles(b)
  {
    if b != [] {
      assert (a + b)[..|a + b| - 1] == a + b[..|b| - 1];
      ReferenceFilesAppend(a, b[..|b| - 1]);
    } else {
      assert a + b == a;
    }
  }

  /** Exactly the reference-classified names of the listing are kept. */
  lemma {:induction false} ReferenceFilesMembers(files: seq<string>, name: string)
    ensures name in ReferenceFiles(files) <==> name in files && RoleOf(name) == Some(Reference)
  {
    if files != [] {
      var init := files[..|files| - 1];
      ReferenceFilesMembers(init, name);
      assert files == init + [files[|files| - 1]];
    }
  }

  /** A slot stays empty exactly when no name of the listing has its role. */
  lemma {:induction false} LastWithRoleNone(files: seq<string>, r: Role)
    ensures LastWithRole(files, r).None? <==> forall j :: 0 <= j < |files| ==> RoleOf(files[j]) != Some(r)
  {
    if files != [] {
      var n := |files| - 1;
      LastWithRoleNone(files[..n], r);
      assert forall j :: 0 <= j < n ==> files[j] == files[..n][j];
    }
  }

  /**
   * A filled slot holds the name at some position `i` of the listing: that
   * name has the slot's role and no later name has it.
   */
  lemma {:induction false} LastWithRoleSome(files: seq<string>, r: Role) returns (i: nat)
    requires LastWithRole(files, r).Some?
    ensures i < |files| && files[i] == LastWithRole(files, r).value && RoleOf(files[i]) == Some(r)
    ensures forall j :: i < j < |files| ==> RoleOf(files[j]) != Some(r)
  {
    var n := |files| - 1;
    if RoleOf(files[n]) == Some(r) {
      i := n;
    } else {
      var init := files[..n];
      i := LastWithRoleSome(init, r);
      assert files[i] == init[i];
      assert forall j :: i < j < n ==> files[j] == init[j];
    }
  }

  /** The last match of a concatenation comes from its second part if that has one. */
  lemma {:induction false} LastWithRoleAppend(a: seq<string>, b: seq<string>, r: Role)
    ensures LastWithRole(a + b, r) == if LastWithRole(b, r).Some? then LastWithRole(b, r) else LastWithRole(a, r)
  {
    if b != [] {
      assert (a + b)[..|a + b| - 1] == a + b[..|b| - 1];
      LastWithRoleAppend(a, b[..|b| - 1], r);
    } else {
      assert a + b == a;
    }
  }

  /** A one-name listing whose name matches no keyword fills nothing. */
  lemma UnmatchedSingleton(name: string)
    requires RoleOf(name) == None
    ensures ReferenceFiles([name]) == []
    ensures forall r :: LastWithRole([name], r) == None
  {
    assert [name][..0] == [];
  }

  /** A name that matches no keyword can be dropped from a listing without effect. */
  lemma UnmatchedNameIgnored(a: seq<string>, name: string, b: seq<string>)
    requires RoleOf(name) == None
    ensures GroupOf(a + [name] + b) == GroupOf(a + b)
  {
    UnmatchedSingleton(name);
    ReferencesIgnored(a, name, b);
    LastFieldIgnored(a, name, b, Mask);
    LastFieldIgnored(a, name, b, Distorted);
    LastFieldIgnored(a, name, b, Flawless);
  }

  lemma ReferencesIgnored(a: seq<string>, name: string, b: seq<string>)
    requires ReferenceFiles([name]) == []
    ensures ReferenceFiles(a + [name] + b) == ReferenceFiles(a + b)
  {
    ReferenceFilesAppend(a + [name], b);
    ReferenceFilesAppend(a, [name]);
    ReferenceFilesAppend(a, b);
    assert ReferenceFiles(a) + [] == ReferenceFiles(a);
  }

  lemma LastFieldIgnored(a: seq<string>, name: string, b: seq<string>, r: Role)
    requires LastWithRole([name], r) == None
    ensures LastWithRole(a + [name] + b, r) == LastWithRole(a + b, r)
  {
    LastWithRoleAppend(a + [name], b, r);
    LastWithRoleAppend(a, [name], r);
    LastWithRoleAppend(a, b, r);
  }
}
