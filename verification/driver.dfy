/**
 * The script's driver: the walk over the directory tree that normalises and
 * saves the four images of every sample under a shared counter, and the
 * loop that emits one manifest record per counter value.
 */
module Driver {
  import opened Wrappers
  import opened Decimal
  import opened Roles
  import opened Classify
  import opened Padding
  import opened Discovery

  /** A file opened by the script: `os.path.join(subdir, name)`. */
  datatype SourceFile = SourceFile(dir: string, name: string)

  /** What the script saves under an output path: which file, and how it was normalised. */
  datatype Saved = Saved(source: SourceFile, image: Normalized)

  /** The files saved so far, by output path. */
  type Outputs = map<string, Saved>

  const PROMPT: string := "high quality, detailed, professional photograph of a woman standing"

  function SourceOf(s: Sample, r: Role): SourceFile {
    match r
    case Reference => SourceFile(s.dir, s.reference)
    case Mask => SourceFile(s.dir, s.mask)
    case Distorted => SourceFile(s.dir, s.distorted)
    case Flawless => SourceFile(s.dir, s.flawless)
  }

  /** The `color` argument each role is normalised with: the mask alone is padded black. */
  function ColorArgument(r: Role): (color: string)
    ensures FillColour(color) == BLACK <==> r == Mask
    ensures FillColour(color) == WHITE <==> r != Mask
  {
    if r == Mask then "black" else DEFAULT_COLOR
  }

  /** `resize_with_padding(Image.open(path), color)`; `sizeOf` stands for what `Image.open` reads. */
  function Normalize(src: SourceFile, color: string, sizeOf: SourceFile -> Size, resolution: Resolution): Saved {
    Saved(src, ResizeWithPadding(sizeOf(src), color, resolution))
  }

  /**
   * The image saved for role `r` of sample `s`: that role's file of the
   * sample, made square at the chosen resolution, on a black canvas for the
   * mask and a white one for every other role.
   */
  function SaveAs(s: Sample, r: Role, sizeOf: SourceFile -> Size, resolution: Resolution): (saved: Saved)
    ensures saved.source.dir == s.dir
    ensures r == Reference ==> saved.source.name == s.reference
    ensures r == Mask ==> saved.source.name == s.mask
    ensures r == Distorted ==> saved.source.name == s.distorted
    ensures r == Flawless ==> saved.source.name == s.flawless
    ensures saved.image.width == resolution && saved.image.height == resolution
    ensures saved.image.layout == PadLayout(sizeOf(saved.source))
    ensures saved.image.layout.side == Max(sizeOf(saved.source).width, sizeOf(saved.source).height)
    ensures saved.image.fill == BLACK <==> r == Mask
    ensures saved.image.fill == WHITE <==> r != Mask
  {
    Normalize(SourceOf(s, r), ColorArgument(r), sizeOf, resolution)
  }

  /** What is saved for each role of each sample. */
  type Saver = (Sample, Role) -> Saved

  function SaverFor(sizeOf: SourceFile -> Size, resolution: Resolution): Saver {
    (s: Sample, r: Role) => SaveAs(s, r, sizeOf, resolution)
  }

  /** The four saves of one sample under index `i`, in the script's order. */
  function WriteSample(out: Outputs, s: Sample, i: nat, save: Saver): Outputs {
    out[OutputPath(Reference, i) := save(s, Reference)]
       [OutputPath(Mask, i) := save(s, Mask)]
       [OutputPath(Distorted, i) := save(s, Distorted)]
       [OutputPath(Flawless, i) := save(s, Flawless)]
  }

  /** The files left by saving the samples in order, sample j under index j. */
  function WrittenFiles(samples: seq<Sample>, save: Saver): Outputs {
    if samples == [] then map[]
    else
      var n := |samples| - 1;
      WriteSample(WrittenFiles(samples[..n], save), samples[n], n, save)
  }

  /** Saving one more sample applies its four saves under the next index. */
  lemma {:induction false} WrittenFilesSnoc(samples: seq<Sample>, s: Sample, save: Saver)
    ensures WrittenFiles(samples + [s], save) == WriteSample(WrittenFiles(samples, save), s, |samples|, save)
  {
    assert (samples + [s])[..|samples|] == samples;
  }

  /** `p` is `{role}/{i}.jpg` for some role and some i below `n`. */
  ghost predicate IndexedPathBelow(p: string, n: nat) {
    exists r: Role, i: nat :: i < n && p == OutputPath(r, i)
  }

  /** After N samples a path is saved iff it is an indexed path below N: no gap, nothing else. */
  lemma {:induction false} WrittenFilesKey(samples: seq<Sample>, p: string, save: Saver)
    ensures p in WrittenFiles(samples, save) <==> IndexedPathBelow(p, |samples|)
  {
    if samples != [] {
      var n := |samples| - 1;
      WrittenFilesKey(samples[..n], p, save);
      var before := WrittenFiles(samples[..n], save);
      assert WrittenFiles(samples, save) == WriteSample(before, samples[n], n, save);
      if IndexedPathBelow(p, n + 1) {
        var r: Role, i: nat :| i < n + 1 && p == OutputPath(r, i);
        if i < n {
          assert IndexedPathBelow(p, n);
        } else {
          assert r == Reference || r == Mask || r == Distorted || r == Flawless;
        }
      }
      if p in WrittenFiles(samples, save) && p !in before {
        if p == OutputPath(Reference, n) {
          assert IndexedPathBelow(p, n + 1);
        } else if p == OutputPath(Mask, n) {
          assert IndexedPathBelow(p, n + 1);
        } else if p == OutputPath(Distorted, n) {
          assert IndexedPathBelow(p, n + 1);
        } else {
          assert p == OutputPath(Flawless, n);
          assert IndexedPathBelow(p, n + 1);
        }
      }
      if p in before {
        var r: Role, i: nat :| i < n && p == OutputPath(r, i);
        assert IndexedPathBelow(p, n + 1);
      }
    }
  }

  /**
   * The path `{r}/{i}.jpg` holds role r of sample i: a later sample's saves
   * never overwrite it.
   */
  lemma {:induction false} WrittenFilesAt(samples: seq<Sample>, r: Role, i: nat, save: Saver)
    requires i < |samples|
    ensures OutputPath(r, i) in WrittenFiles(samples, save)
    ensures WrittenFiles(samples, save)[OutputPath(r, i)] == save(samples[i], r)
  {
    var n := |samples| - 1;
    var before := WrittenFiles(samples[..n], save);
    var after := WriteSample(before, samples[n], n, save);
    assert WrittenFiles(samples, save) == after;
    if i < n {
      WrittenFilesAt(samples[..n], r, i, save);
      assert samples[..n][i] == samples[i];
      WriteSampleKeeps(before, samples[n], n, r, i, save);
    } else {
      WriteSampleAt(before, samples[n], n, r, save);
    }
  }

  /** The saves under index n leave every path of an earlier index alone. */
  lemma WriteSampleKeeps(out: Outputs, s: Sample, n: nat, r: Role, i: nat, save: Saver)
    requires i < n && OutputPath(r, i) in out
    ensures OutputPath(r, i) in WriteSample(out, s, n, save)
    ensures WriteSample(out, s, n, save)[OutputPath(r, i)] == out[OutputPath(r, i)]
  {
    OutputPathInjective(r, i, Reference, n);
    OutputPathInjective(r, i, Mask, n);
    OutputPathInjective(r, i, Distorted, n);
    OutputPathInjective(r, i, Flawless, n);
  }

  /** The four saves under index n go to four different paths, none overwriting another. */
  lemma WriteSampleAt(out: Outputs, s: Sample, n: nat, r: Role, save: Saver)
    ensures OutputPath(r, n) in WriteSample(out, s, n, save)
    ensures WriteSample(out, s, n, save)[OutputPath(r, n)] == save(s, r)
  {
    OutputPathInjective(r, n, Reference, n);
    OutputPathInjective(r, n, Mask, n);
    OutputPathInjective(r, n, Distorted, n);
  }

  /**
   * The main loop over the walk: classify each directory, skip it unless it
   * is complete, otherwise save its samples under the following counter
   * values.
   */
  method BuildDataset(walk: seq<Listing>, sizeOf: SourceFile -> Size, resolution: Resolution)
    returns (counter: nat, outputs: Outputs)
    ensures counter == |Samples(walk)|
    ensures outputs == WrittenFiles(Samples(walk), SaverFor(sizeOf, resolution))
  {
    counter := 0;
    outputs := map[];
    ghost var written: seq<Sample> := [];
    ghost var save := SaverFor(sizeOf, resolution);
    for d := 0 to |walk|
      invariant written == Samples(walk[..d])
      invariant counter == |written|
      invariant outputs == WrittenFiles(written, save)
    {
      var listing := walk[d];
      var g := ClassifyDirectory(listing.files);
      assert walk[..d + 1] == walk[..d] + [listing];
      SamplesAppend(walk[..d], listing);
      if |g.references| == 0 || g.mask == None || g.distorted == None || g.flawless == None {
        assert written + SamplesOf(listing.dir, g) == written;
        continue;
      }
      counter, outputs := SaveGroup(listing.dir, g, counter, outputs, sizeOf, resolution, written);
      written := written + SamplesOf(listing.dir, g);
    }
    assert walk[..|walk|] == walk;
  }

  /**
   * The loop over one complete directory's reference files: save the four
   * images of each sample under the current counter, then increment it.
   */
  method SaveGroup(dir: string, g: Group, counter0: nat, outputs0: Outputs,
                   sizeOf: SourceFile -> Size, resolution: Resolution, ghost done: seq<Sample>)
    returns (counter: nat, outputs: Outputs)
    requires Complete(g)
    requires counter0 == |done| && outputs0 == WrittenFiles(done, SaverFor(sizeOf, resolution))
    ensures counter == counter0 + |g.references|
    ensures outputs == WrittenFiles(done + SamplesOf(dir, g), SaverFor(sizeOf, resolution))
  {
    counter, outputs := counter0, outputs0;
    var maskFile, distortedFile, flawlessFile := g.mask.value, g.distorted.value, g.flawless.value;
    ghost var save := SaverFor(sizeOf, resolution);
    ghost var fan := SamplesOf(dir, g);
    ghost var written := done;
    CompleteFanOut(dir, g);
    for k := 0 to |g.references|
      invariant written == done + fan[..k]
      invariant counter == |written|
      invariant outputs == WrittenFiles(written, save)
    {
      ghost var previous := outputs;
      var referenceFile := g.references[k];
      outputs := outputs[OutputPath(Reference, counter) :=
        Normalize(SourceFile(dir, referenceFile), DEFAULT_COLOR, sizeOf, resolution)];
      outputs := outputs[OutputPath(Mask, counter) :=
        Normalize(SourceFile(dir, maskFile), "black", sizeOf, resolution)];
      outputs := outputs[OutputPath(Distorted, counter) :=
        Normalize(SourceFile(dir, distortedFile), DEFAULT_COLOR, sizeOf, resolution)];
      outputs := outputs[OutputPath(Flawless, counter) :=
        Normalize(SourceFile(dir, flawlessFile), DEFAULT_COLOR, sizeOf, resolution)];
      SaveSampleInline(previous, outputs, fan[k], counter, dir, referenceFile, maskFile,
                       distortedFile, flawlessFile, sizeOf, resolution);
      WrittenFilesSnoc(written, fan[k], save);
      PrefixGrows(done, fan, k);
      written := written + [fan[k]];
      counter := counter + 1;
    }
    assert fan[..|fan|] == fan;
  }

  /** The four saves written out in the loop body are those of `WriteSample`. */
  lemma SaveSampleInline(previous: Outputs, outputs: Outputs, s: Sample, i: nat, dir: string,
                         reference: string, mask: string, distorted: string, flawless: string,
                         sizeOf: SourceFile -> Size, resolution: Resolution)
    requires s == Sample(dir, reference, mask, distorted, flawless)
    requires outputs ==
      previous[OutputPath(Reference, i) := Normalize(SourceFile(dir, reference), DEFAULT_COLOR, sizeOf, resolution)]
              [OutputPath(Mask, i) := Normalize(SourceFile(dir, mask), "black", sizeOf, resolution)]
              [OutputPath(Distorted, i) := Normalize(SourceFile(dir, distorted), DEFAULT_COLOR, sizeOf, resolution)]
              [OutputPath(Flawless, i) := Normalize(SourceFile(dir, flawless), DEFAULT_COLOR, sizeOf, resolution)]
    ensures outputs == WriteSample(previous, s, i, SaverFor(sizeOf, resolution))
  {
  }

  lemma PrefixGrows<T>(done: seq<T>, fan: seq<T>, k: nat)
    requires k < |fan|
    ensures done + fan[..k + 1] == (done + fan[..k]) + [fan[k]]
  {
    assert fan[..k + 1] == fan[..k] + [fan[k]];
  }

  /** One manifest field, `"key": "value"`. */
  datatype Field = Field(key: string, value: string)

  /** One line of `train.jsonl`, its fields in the order they are written. */
  type Record = seq<Field>

  /** The manifest's path string `f"{keyword}/{i}.jpg"`. */
  function ManifestPath(r: Role, i: nat): string {
    Keyword(r) + "/" + NatToString(i) + ".jpg"
  }

  /** The manifest names exactly the file the image loop saved (with `/` as the path separator). */
  lemma ManifestPathIsOutputPath(r: Role, i: nat)
    ensures ManifestPath(r, i) == OutputPath(r, i)
  {
    assert Keyword(r) + "/" + NatToString(i) + ".jpg" == Keyword(r) + "/" + (NatToString(i) + ".jpg");
  }

  /** The record written for index `i`. */
  function ManifestRecord(i: nat): Record {
    [Field("prompt", PROMPT),
     Field(FLAWLESS_KEYWORD, ManifestPath(Flawless, i)),
     Field(DISTORTED_KEYWORD, ManifestPath(Distorted, i)),
     Field(MASK_KEYWORD, ManifestPath(Mask, i)),
     Field(REFERENCE_KEYWORD, ManifestPath(Reference, i))]
  }

  /** The value of the first field named `key`. */
  function Lookup(rec: Record, key: string): Option<string> {
    if rec == [] then None
    else if rec[0].key == key then Some(rec[0].value)
    else Lookup(rec[1..], key)
  }

  function Keys(rec: Record): seq<string> {
    seq(|rec|, k requires 0 <= k < |rec| => rec[k].key)
  }

  /**
   * Record i carries the prompt and, under each role's keyword, the path
   * `{role}/{i}.jpg`; its keys are prompt, flawless, distorted, mask,
   * reference, in that order.
   */
  lemma ManifestRecordFields(i: nat)
    ensures Keys(ManifestRecord(i)) == ["prompt", FLAWLESS_KEYWORD, DISTORTED_KEYWORD, MASK_KEYWORD, REFERENCE_KEYWORD]
    ensures Lookup(ManifestRecord(i), "prompt") == Some(PROMPT)
    ensures forall r :: Lookup(ManifestRecord(i), Keyword(r)) == Some(ManifestPath(r, i))
  {
    forall r
      ensures Lookup(ManifestRecord(i), Keyword(r)) == Some(ManifestPath(r, i))
    {
      ManifestRoleField(i, r);
    }
  }

  lemma ManifestRoleField(i: nat, r: Role)
    ensures Lookup(ManifestRecord(i), Keyword(r)) == Some(ManifestPath(r, i))
  {
    var rec := ManifestRecord(i);
    var tail1 := rec[1..];
    var tail2 := tail1[1..];
    var tail3 := tail2[1..];
    var tail4 := tail3[1..];
    assert tail1[0] == Field(FLAWLESS_KEYWORD, ManifestPath(Flawless, i));
    assert tail2[0] == Field(DISTORTED_KEYWORD, ManifestPath(Distorted, i));
    assert tail3[0] == Field(MASK_KEYWORD, ManifestPath(Mask, i));
    assert tail4[0] == Field(REFERENCE_KEYWORD, ManifestPath(Reference, i));
    assert Lookup(rec, Keyword(r)) == Lookup(tail1, Keyword(r));
    match r
    case Flawless =>
    case Distorted =>
      assert Lookup(tail1, DISTORTED_KEYWORD) == Lookup(tail2, DISTORTED_KEYWORD);
    case Mask =>
      assert Lookup(tail1, MASK_KEYWORD) == Lookup(tail2, MASK_KEYWORD) == Lookup(tail3, MASK_KEYWORD);
    case Reference =>
      assert REFERENCE_KEYWORD != DISTORTED_KEYWORD by {
        assert REFERENCE_KEYWORD[0] != DISTORTED_KEYWORD[0];
      }
      assert Lookup(tail1, REFERENCE_KEYWORD) == Lookup(tail2, REFERENCE_KEYWORD)
          == Lookup(tail3, REFERENCE_KEYWORD) == Lookup(tail4, REFERENCE_KEYWORD);
  }

  /** Different indices give different records. */
  lemma ManifestRecordsDistinct(i: nat, j: nat)
    ensures ManifestRecord(i) == ManifestRecord(j) ==> i == j
  {
    if ManifestRecord(i) == ManifestRecord(j) {
      assert ManifestRecord(i)[1] == ManifestRecord(j)[1];
      ManifestPathIsOutputPath(Flawless, i);
      ManifestPathIsOutputPath(Flawless, j);
      OutputPathInjective(Flawless, i, Flawless, j);
    }
  }

  /** The manifest loop `for i in range(counter)`: one record per index, in index order. */
  method WriteManifest(counter: nat) returns (lines: seq<Record>)
    ensures |lines| == counter
    ensures forall i :: 0 <= i < counter ==> lines[i] == ManifestRecord(i)
  {
    lines := [];
    for i := 0 to counter
      invariant |lines| == i
      invariant forall j :: 0 <= j < i ==> lines[j] == ManifestRecord(j)
    {
      lines := lines + [ManifestRecord(i)];
    }
  }

  /** Every manifest line names the four indexed paths of its own sample. */
  lemma ManifestLookups(manifest: seq<Record>, n: nat)
    requires |manifest| == n
    requires forall i :: 0 <= i < n ==> manifest[i] == ManifestRecord(i)
    ensures forall r: Role, i: nat :: i < n ==> Lookup(manifest[i], Keyword(r)) == Some(OutputPath(r, i))
  {
    forall r: Role, i: nat | i < n
      ensures Lookup(manifest[i], Keyword(r)) == Some(OutputPath(r, i))
    {
      ManifestRecordFields(i);
      ManifestPathIsOutputPath(r, i);
    }
  }

  /** Each indexed path holds the normalised image of that sample's file for that role. */
  lemma SavedImages(samples: seq<Sample>, sizeOf: SourceFile -> Size, resolution: Resolution)
    ensures forall r: Role, i: nat :: i < |samples| ==>
      OutputPath(r, i) in WrittenFiles(samples, SaverFor(sizeOf, resolution)) &&
      WrittenFiles(samples, SaverFor(sizeOf, resolution))[OutputPath(r, i)] == SaveAs(samples[i], r, sizeOf, resolution)
  {
    forall r: Role, i: nat | i < |samples|
      ensures OutputPath(r, i) in WrittenFiles(samples, SaverFor(sizeOf, resolution))
      ensures WrittenFiles(samples, SaverFor(sizeOf, resolution))[OutputPath(r, i)] == SaveAs(samples[i], r, sizeOf, resolution)
    {
      WrittenFilesAt(samples, r, i, SaverFor(sizeOf, resolution));
    }
  }

  /**
   * The whole run: the counter ends at the number of reference files over
   * complete directories; the output paths are exactly `{role}/{i}.jpg` for
   * i below the counter; manifest line i names, for each role, the path
   * holding that role's image of sample i.
   */
  method PrepareDataset(walk: seq<Listing>, sizeOf: SourceFile -> Size, resolution: Resolution)
    returns (counter: nat, outputs: Outputs, manifest: seq<Record>)
    ensures counter == CompleteReferenceCount(walk) == |Samples(walk)|
    ensures |manifest| == counter
    ensures forall p :: p in outputs <==> exists r: Role, i: nat :: i < counter && p == OutputPath(r, i)
    ensures forall r: Role, i: nat :: i < counter ==> Lookup(manifest[i], Keyword(r)) == Some(OutputPath(r, i))
    ensures forall r: Role, i: nat :: i < counter ==>
      OutputPath(r, i) in outputs && outputs[OutputPath(r, i)] == SaveAs(Samples(walk)[i], r, sizeOf, resolution)
  {
    counter, outputs := BuildDataset(walk, sizeOf, resolution);
    manifest := WriteManifest(counter);
    SampleCount(walk);
    forall p
      ensures p in outputs <==> IndexedPathBelow(p, counter)
    {
      WrittenFilesKey(Samples(walk), p, SaverFor(sizeOf, resolution));
    }
    SavedImages(Samples(walk), sizeOf, resolution);
    ManifestLookups(manifest, counter);
  }
}
