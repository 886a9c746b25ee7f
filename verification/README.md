# Dataset preparation: a Dafny model

`Data/Dataset/hf_dataset_preparation.py` turns a tree of sample directories
into an index-numbered image dataset. Each directory holds images whose file
names begin with one of four role keywords: `flawless`, `distorted`, `mask`
and `reference`. The script walks the tree and classifies each directory's
files by keyword prefix. It skips every directory that lacks a mask, a
distorted image, a flawless image or at least one reference. For each
reference file of a complete directory it saves one sample: the four images
are padded to a square (white canvas, black for the mask), resized to
`resolution`×`resolution`, and saved as `{role}/{counter}.jpg`, after which
the shared counter goes up by one. Last, it appends one JSON record per
counter value to `train.jsonl`. Each record holds the prompt and the four
paths.

The model has these modules:

- `Wrappers`: the `Option` type.
- `Decimal`: `str(i)` for naturals, with a parser proving it invertible and
  hence injective.
- `Roles`: the keywords and the first-match prefix classification
  `RoleOf`. It also holds the output path `{role}/{i}.jpg` and the proof that
  distinct (role, index) pairs never share a path.
- `Classify`: the per-directory classification loop. `ClassifyDirectory` is
  a method with a loop, proved equal to the specification `GroupOf`.
  References are collected in order; each other role keeps the last match.
- `Padding`: `resize_with_padding`. It covers the canvas side and the paste
  offsets (floor halves of the spare room), which canvas pixels show the
  image, the fill colour and the final size.
- `Discovery`: the completeness gate and the fan-out of one sample per
  reference file, over a whole walk given as a sequence of directory
  listings.
- `Driver`: the main loop `BuildDataset`/`SaveGroup`, which keeps the
  counter and the map of saved files. It also holds the manifest loop
  `WriteManifest` and the composition `PrepareDataset`. `PrepareDataset`
  proves that the saved paths are exactly `{role}/{i}.jpg` for
  `i < counter` and that path `{role}/{i}.jpg` holds sample `i`'s file for
  that role. It also proves that the manifest's record `i` names those same
  paths.

## Model

| member | source | states |
|---|---|---|
| Roles.RoleOf | Data/Dataset/hf_dataset_preparation.py:68-76 | a name gets a role iff some keyword prefixes it; the role's keyword prefixes it and no keyword tested earlier (reference, mask, distorted, flawless) does |
| Roles.AtMostOneRole | Data/Dataset/hf_dataset_preparation.py:21-24 | no name starts with two different keywords, so the order of the tests never changes the outcome |
| Roles.RoleOfExact | Data/Dataset/hf_dataset_preparation.py:68-76 | a name is classified as role r iff it starts with r's keyword |
| Roles.ReferenceMaskName | Data/Dataset/hf_dataset_preparation.py:69-72 | `reference_mask.jpg`, which contains `mask` but starts only with the reference keyword, is classified as a reference |
| Roles.OutputPath | Data/Dataset/hf_dataset_preparation.py:84-96 | the path `os.path.join(keyword, f'{counter}.jpg')` that role r of sample i is saved to; its properties are stated by OutputPathParts and OutputPathInjective |
| Roles.OutputPathParts | Data/Dataset/hf_dataset_preparation.py:84-96 | an output path is the role's keyword, `/`, a run of decimal digits that reads back as the index, and `.jpg` |
| Roles.OutputPathInjective | Data/Dataset/hf_dataset_preparation.py:84-96 | two saves land on the same path only for the same role and the same counter value, so no save overwrites another |
| Decimal.NatToString | Data/Dataset/hf_dataset_preparation.py:84 | the text `f'{counter}'`: non-empty, all decimal digits, no leading zero |
| Decimal.ParseNatToString | Data/Dataset/hf_dataset_preparation.py:84 | the decimal text of the counter reads back as the counter |
| Decimal.NatToStringInjective | Data/Dataset/hf_dataset_preparation.py:84 | different counter values give different file names |
| Classify.ClassifyDirectory | Data/Dataset/hf_dataset_preparation.py:64-76 | the classification loop yields the group the role-by-role definition describes |
| Classify.GroupOf | Data/Dataset/hf_dataset_preparation.py:64-76 | the group left by the loop, role by role: the reference names in order and, for each other role, its last listed name; its properties are stated by the lemmas below |
| Classify.ReferenceFilesAppend | Data/Dataset/hf_dataset_preparation.py:69-70 | the references of a concatenated listing are the references of each part, in order |
| Classify.ReferenceFilesMembers | Data/Dataset/hf_dataset_preparation.py:69-70 | a name is among the collected references iff it is listed and classified as a reference |
| Classify.LastWithRoleNone | Data/Dataset/hf_dataset_preparation.py:65-76 | a mask/distorted/flawless slot stays None iff no listed file has that role |
| Classify.LastWithRoleSome | Data/Dataset/hf_dataset_preparation.py:71-76 | a filled slot holds a listed file of that role with no later file of that role: the last match wins |
| Classify.LastWithRoleAppend | Data/Dataset/hf_dataset_preparation.py:71-76 | after a concatenated listing, a slot holds the second part's last match if it has one, else the first part's |
| Classify.UnmatchedNameIgnored | Data/Dataset/hf_dataset_preparation.py:68-76 | inserting a name that matches no keyword anywhere leaves the group unchanged |
| Padding.FillColour | Data/Dataset/hf_dataset_preparation.py:50 | the canvas is white iff the colour argument is exactly `white`, black otherwise |
| Padding.PadLayout | Data/Dataset/hf_dataset_preparation.py:45-54 | the canvas side is the larger dimension; the image fits inside; one offset is zero; each opposite margin equals its offset or exceeds it by one |
| Padding.CanvasPixel | Data/Dataset/hf_dataset_preparation.py:47-56 | what each canvas pixel shows after `Image.new` and `paste`: the image pixel at the position minus the `PadLayout` offsets inside the pasted box, the fill colour elsewhere; stated by the three lemmas below |
| Padding.PasteKeepsImage | Data/Dataset/hf_dataset_preparation.py:47-56 | every source pixel appears on the canvas, shifted by the offsets |
| Padding.CanvasShowsImagePixel | Data/Dataset/hf_dataset_preparation.py:47-56 | a canvas pixel showing the image shows an in-bounds source pixel at the position minus the offsets |
| Padding.NonSquareCornerIsFill | Data/Dataset/hf_dataset_preparation.py:47-56 | a non-square image leaves the bottom-right canvas corner as fill colour |
| Padding.ResizeWithPadding | Data/Dataset/hf_dataset_preparation.py:44-58 | the result is resolution×resolution; it was resized from the canvas of `PadLayout` (side the larger dimension, image pasted at the floor-half offsets); the fill is white iff the colour is `white`, black otherwise |
| Padding.WideExample | Data/Dataset/hf_dataset_preparation.py:45-54 | a 100×50 image goes on a 100 canvas at offset (0, 25) |
| Padding.OddSpareRoomExample | Data/Dataset/hf_dataset_preparation.py:53-54 | an odd spare room of 3 puts 1 above and 2 below (floor division) |
| Discovery.FanOut | Data/Dataset/hf_dataset_preparation.py:81-96 | one sample per reference file, in order, each sharing the directory's mask, distorted and flawless files |
| Discovery.Complete | Data/Dataset/hf_dataset_preparation.py:78 | the completeness test: at least one reference and a mask, a distorted and a flawless name; read on the listing by CompleteIffEveryRoleListed |
| Discovery.CompleteIffEveryRoleListed | Data/Dataset/hf_dataset_preparation.py:64-79 | a directory passes the completeness test iff each of the four roles has at least one listed name |
| Discovery.SamplesOf | Data/Dataset/hf_dataset_preparation.py:78-96 | the samples one directory yields: none when it is incomplete, otherwise its fan-out; stated by the two lemmas below |
| Discovery.NoSamplesIffIncomplete | Data/Dataset/hf_dataset_preparation.py:78-79 | a directory yields no sample iff it lacks a reference, a mask, a distorted or a flawless file |
| Discovery.CompleteFanOut | Data/Dataset/hf_dataset_preparation.py:81-96 | a complete directory yields exactly one sample per reference, carrying that reference |
| Discovery.Samples | Data/Dataset/hf_dataset_preparation.py:63-98 | the samples of a whole walk in walk order, then reference order; sample j is saved under counter j; stated by SampleCount, SamplesAppend, SamplesFromListing and SampleRoles |
| Discovery.SampleCount | Data/Dataset/hf_dataset_preparation.py:62-98 | the final counter equals the number of reference files summed over complete directories |
| Discovery.SamplesAppend | Data/Dataset/hf_dataset_preparation.py:63-98 | one more directory appends exactly its own samples after the earlier ones |
| Discovery.CountUnchangedIffIncomplete | Data/Dataset/hf_dataset_preparation.py:78-98 | a directory leaves the counter unchanged iff it is incomplete |
| Discovery.SamplesFromListing | Data/Dataset/hf_dataset_preparation.py:63-96 | every sample comes from one directory of the walk: its reference file is listed there, and its mask, distorted and flawless files are that directory's last files of those roles |
| Discovery.SampleRoles | Data/Dataset/hf_dataset_preparation.py:68-96 | every sample's four files carry the roles they are saved under |
| Discovery.TwoReferenceExample | Data/Dataset/hf_dataset_preparation.py:63-98 | a directory with two references and one file of each other role yields two samples sharing mask, distorted and flawless |
| Driver.ColorArgument | Data/Dataset/hf_dataset_preparation.py:83-95 | the mask is padded black and every other role white |
| Driver.SaveAs | Data/Dataset/hf_dataset_preparation.py:82-96 | the image saved for a role comes from that role's file of the sample; it is resolution square, resized from that file's `PadLayout` canvas (side the larger dimension, image at the centring offsets); the padding is black iff the role is mask and white iff it is not |
| Driver.Normalize | Data/Dataset/hf_dataset_preparation.py:82-95 | `resize_with_padding(Image.open(path), color)` of one source file; its contract is stated through SaveAs |
| Driver.WriteSample | Data/Dataset/hf_dataset_preparation.py:84-96 | the four saves of one sample under one counter value, in the script's order; stated by WriteSampleKeeps and WriteSampleAt |
| Driver.WrittenFiles | Data/Dataset/hf_dataset_preparation.py:81-98 | the saved files after the samples in order, sample j under index j; stated by WrittenFilesSnoc, WrittenFilesKey and WrittenFilesAt |
| Driver.WrittenFilesSnoc | Data/Dataset/hf_dataset_preparation.py:81-98 | saving one more sample adds its four saves under the next index |
| Driver.WrittenFilesKey | Data/Dataset/hf_dataset_preparation.py:81-98 | after N samples a path is saved iff it is `{role}/{i}.jpg` for some i < N: no gaps, no other files |
| Driver.WrittenFilesAt | Data/Dataset/hf_dataset_preparation.py:81-98 | path `{role}/{i}.jpg` holds sample i's save for that role; no later save overwrites it |
| Driver.WriteSampleKeeps | Data/Dataset/hf_dataset_preparation.py:84-96 | the saves under a new index leave every earlier index's file unchanged |
| Driver.WriteSampleAt | Data/Dataset/hf_dataset_preparation.py:84-96 | the four saves under one index go to four distinct paths |
| Driver.BuildDataset | Data/Dataset/hf_dataset_preparation.py:62-98 | the loop over the walk ends with counter = number of samples and the saved files = the saves of the samples in walk order |
| Driver.SaveGroup | Data/Dataset/hf_dataset_preparation.py:81-98 | a complete directory advances the counter by its reference count and appends its samples' saves |
| Driver.SaveSampleInline | Data/Dataset/hf_dataset_preparation.py:82-96 | the four open/pad/save steps of the loop body are one sample's saves under the current counter |
| Driver.ManifestPath | Data/Dataset/hf_dataset_preparation.py:118-121 | the manifest's path string `f"{keyword}/{i}.jpg"`; equal to the saved path by ManifestPathIsOutputPath |
| Driver.ManifestRecord | Data/Dataset/hf_dataset_preparation.py:116-122 | the record written for index i; stated by ManifestRecordFields and ManifestRecordsDistinct |
| Driver.ManifestPathIsOutputPath | Data/Dataset/hf_dataset_preparation.py:118-121 | the manifest's path for a role and index is the file the image loop saved |
| Driver.ManifestRecordFields | Data/Dataset/hf_dataset_preparation.py:116-122 | record i has keys prompt, flawless, distorted, mask, reference in that order, the fixed prompt, and `{role}/{i}.jpg` under each keyword |
| Driver.ManifestRecordsDistinct | Data/Dataset/hf_dataset_preparation.py:115-123 | different indices give different records |
| Driver.WriteManifest | Data/Dataset/hf_dataset_preparation.py:115-123 | one record per index below the counter, in index order |
| Driver.ManifestLookups | Data/Dataset/hf_dataset_preparation.py:115-123 | every manifest record names its own index's four paths |
| Driver.SavedImages | Data/Dataset/hf_dataset_preparation.py:81-98 | each indexed path holds the normalised file of that sample and role |
| Driver.PrepareDataset | Data/Dataset/hf_dataset_preparation.py:62-123 | counter = references summed over complete directories; the saved paths are exactly the indexed paths below the counter, each holding its sample's file for that role; manifest record i names those four paths |

## Left out

- The command line (`argparse`) and the creation of the four output directories: plain I/O.
- `os.walk`: the walk is a given sequence of directory listings. Its order, and the order of files within a directory, are whatever the file system returns, and the model takes them as given.
- Source paths: a file is named by its directory and file name rather than the `os.path.join` string. Output paths are joined with `/`, as on POSIX. On Windows `os.path.join` would use `\` while the manifest always uses `/`.
- `Image.open`: modelled as a total function `sizeOf` from a source file to its dimensions. Decode failures, which abort the script, are not modelled.
- Pixel data: the model keeps the canvas geometry and fill colour of a saved image. It leaves out the pixel values pasted, the resampling done by `resize` and JPEG encoding.
- Padding.ResizeWithPadding: takes a positive resolution (type `Resolution`), because PIL rejects a non-positive size. A missing `--resolution` (None) is not modelled.
- A zero width or height is not rejected: the script has no such guard, and the model follows the script.
- Duplicate mask, distorted or flawless files: the script keeps the last one listed without warning, and the model does the same. A complete directory is one with at least one reference and at least one of each other role, not exactly one.
- Files already present in the output directories, and records already in `train.jsonl` from an earlier run (the file is opened in append mode): the model starts from an empty output map and an empty manifest.
- The zip archives (`shutil.make_archive`), the progress bar and the console messages: side effects with no bearing on the dataset's content.
- JSON byte serialisation of a record (quoting, escaping, separators): a record is modelled as its ordered sequence of key/value fields.
