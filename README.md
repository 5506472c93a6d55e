# qcML plugins of MultiQC, modelled in Dafny

MultiQC gathers quality-control reports of sequencing tools into one HTML
report. Three of its plugins read qcML files written by the ngs-bits tools:

- **ReadQC**: metrics of unprocessed reads.
- **MappingQC**: metrics of mapped reads.
- **SomaticQC**: metrics of tumor-normal pairs.

A qcML file holds `qualityParameter` entries. Each entry has a name, a
value, a description and an accession. Every plugin runs the same steps:

1. `parse_qcml` reads each file into one sample, mapping parameter names to
   values.
   - A value starting with `n/a` is skipped.
   - A name ending in ` percentage` gets the suffix ` %` instead.
   - A value `float()` accepts becomes a number; any other value stays text.
   - The description and accession of each name are recorded in a shared
     description table, and the last parameter with a given name wins.
2. Ignored samples are dropped. When no sample is left, the plugin stops.
3. ReadQC and MappingQC replace the megabase count `X (MB)` by `X`,
   counted in bases, in the table and in every sample.
4. One display header is built per table entry.
5. Fixed lists of headers are updated:
   - outside a `try` block, a missing one raises `KeyError`;
   - inside a `try` block, a missing one ends the block, and the updates
     already made stay.
6. The plugin picks the general-statistics columns with
   `dict_ordered_subset`, adds its report sections, and describes some of
   them with `make_description`.

SomaticQC also differs from the others:

- It names a sample after the tumor half of a `Tumor-Normal` file name.
- It rewrites its `somatic variant rate`. The replacement `'\2'` is a
  non-raw string literal, so it is the character U+0002, not a back-reference
  to the number. The rewritten text therefore never parses, and the rate is
  dropped from every sample. The model keeps this behaviour and proves it:
  `RateNeverReported` and `LoadedRateNeverReported`.
- It renames `variant count` to `variant count somaticqc`, in the headers
  and in every sample.

MappingQC gives `bases usable` the description `Bases sequenced in total.`,
the same text ReadQC uses. The model keeps that text.

### Layout

- `qcml.dfy` (module `Qcml`) holds the shared part:
  - the data model;
  - class `QcmlModule`, whose fields `qcml` (the description table) and
    `qcdata` (the samples) the methods update in place;
  - the pure functions that specify those methods: `ParsedParams`,
    `UpdatedTable`, `LoadSamples`, `Migrate`, `StyleUntil`,
    `OrderedSubset` and `MakeDescription`;
  - the lemmas about those functions.
- `readqc.dfy`, `somaticqc.dfy` and `mappingqc.dfy` hold one plugin each:
  - `Init` is the plugin constructor. It runs on a `QcmlModule` object and
    is proved equal to a function `Reshape` of the loaded table and samples.
  - The lemmas about `Reshape` state what the constructor promises.

### Representation

- A header is reduced to its namespace, title, description and a `styled`
  flag. The flag records whether the constructor updated the header.
- `dict_ordered_subset` returns a sequence of key/value pairs, so its order
  is kept.
- Section columns are handed to the renderer as maps.
- Each error the source raises is a `Result` error: `KeyError(key)`,
  `TypeError`, or `NoSamples` for the zero-sample `UserWarning`.

## Model

In each plugin module, `Accepted` names the inputs the constructor accepts, and
`ReshapeSucceeds` proves the constructor fails on exactly the other inputs. The
lemmas about the constructor's result take an accepted input and also prove
that the constructor succeeds on it.

| member | source | states |
|---|---|---|
| Qcml.NormalizeName | multiqc/modules/readqc/readqc.py:30 | defined by its body, the ` percentage$` substitution; characterised by NormalizeReplacesSuffix and NormalizeKeepsOtherNames |
| Qcml.NormalizeReplacesSuffix | multiqc/modules/readqc/readqc.py:30 | a name ending in " percentage", or in " percentage" followed by one final newline, gets " %" in place of that suffix, with the newline kept |
| Qcml.NormalizeKeepsOtherNames | multiqc/modules/readqc/readqc.py:30 | a name with neither ending is returned unchanged |
| Qcml.ConvertValue | multiqc/modules/readqc/readqc.py:32-35 | defined by its body, float() or else the text; characterised by ParsedTextIsUnparsed |
| Qcml.ParsedParams | multiqc/modules/readqc/readqc.py:20-39 | the parameter map parse_qcml returns, defined by its body; characterised by ParsedParamsLastWriter, NaParameterIsSkipped and NaParameterIsSkippedAnywhere |
| Qcml.UpdatedTable | multiqc/modules/readqc/readqc.py:37-38 | the description table after parse_qcml, defined by its body; characterised by TableLastWriter and UpdatedTableAppend |
| Qcml.QcmlModule.ParseQcml | multiqc/modules/readqc/readqc.py:20-39 | the loop returns the parameter map of the document and leaves the table updated with every non-"n/a" parameter's description and accession |
| Qcml.ParsedParamsLastWriter | multiqc/modules/readqc/readqc.py:20-39 | a key is returned iff some non-"n/a" parameter normalises to it, and its value is the float() conversion of the last such parameter (text when float() rejects it) |
| Qcml.TableLastWriter | multiqc/modules/readqc/readqc.py:37-38 | a table key exists iff it was there before or a non-"n/a" parameter wrote it; a written key holds the description and accession of its last writer, any other key is untouched |
| Qcml.ParseQcmlLastWriterWins | multiqc/modules/readqc/readqc.py:20-39 | every returned key is in the table, and its value and its table entry come from the same, last, parameter with that name |
| Qcml.NaParameterIsSkipped | multiqc/modules/readqc/readqc.py:25-27 | a parameter whose value starts with "n/a" changes neither the returned map nor the table |
| Qcml.NaParameterIsSkippedAnywhere | multiqc/modules/readqc/readqc.py:25-27 | the same holds for an "n/a" parameter anywhere in the document: dropping it changes neither the returned map nor the table |
| Qcml.ParsedTextIsUnparsed | multiqc/modules/readqc/readqc.py:32-35 | a value kept as text is one that float() rejected |
| Qcml.QcmlModule.constructor | multiqc/modules/readqc/readqc.py:73-76 | a module starts with an empty description table and no samples |
| Qcml.LoadSamples | multiqc/modules/readqc/readqc.py:78-81 | the samples the file loop builds, defined by its body; characterised by LaterFileWins and LoadedTextIsUnparsed |
| Qcml.QcmlModule.LoadFiles | multiqc/modules/readqc/readqc.py:78-81 | the file loop leaves the table updated with every file's parameters, in file order, and each sample name mapped to its file's parameters |
| Qcml.LaterFileWins | multiqc/modules/readqc/readqc.py:78-81 | a sample exists iff some file yields its name, and it holds the parameters of the last such file |
| Qcml.LoadedTextIsUnparsed | multiqc/modules/readqc/readqc.py:78-81 | after loading, every text value of every sample is one that float() rejected |
| Qcml.Kept | multiqc/modules/readqc/readqc.py:84 | ignore_samples keeps exactly the samples not ignored, with their data unchanged |
| Qcml.QcmlModule.IgnoreSamples | multiqc/modules/readqc/readqc.py:84 | the samples become the kept ones and the table is unchanged |
| Qcml.MigrateSample | multiqc/modules/readqc/readqc.py:95-96 | the sample loses the old key and gains the new one, worth 10^6 times the old value; no other key changes |
| Qcml.MigratedTable | multiqc/modules/readqc/readqc.py:91-93 | the table loses the old key and gains the new one with the fixed description and no accession; no other entry changes |
| Qcml.MigratedSamples | multiqc/modules/readqc/readqc.py:94-96 | the same samples, each migrated |
| Qcml.Migrate | multiqc/modules/readqc/readqc.py:90-96 | the megabase migration, defined by its body; characterised by MigrateSpec |
| Qcml.MigrateSpec | multiqc/modules/readqc/readqc.py:90-96 | the migration fails exactly when the table or some sample lacks the old key, or some sample holds it as text; otherwise it migrates the table and every sample |
| Qcml.QcmlModule.MigrateMegabases | multiqc/modules/readqc/readqc.py:90-96 | on success the table and the samples are the migrated ones; otherwise the error of the migration is returned |
| Qcml.QcmlModule.MigrateSamples | multiqc/modules/readqc/readqc.py:94-96 | the sample loop leaves every sample migrated and the table unchanged |
| Qcml.QcmlModule.MigrateOne | multiqc/modules/readqc/readqc.py:95-96 | one sample is migrated and nothing else changes |
| Qcml.RenameKey | multiqc/modules/somaticqc/somaticqc.py:78-80 | `d[new] = d.pop(old)` fails exactly when the old key is missing; otherwise the value moves to the new key and no other key changes |
| Qcml.MakeHeaders | multiqc/modules/readqc/readqc.py:99-103 | one header per table key, in the plugin's namespace, titled by its key, carrying the key's description, not yet updated |
| Qcml.StyleUntil | multiqc/modules/mappingqc/mappingqc.py:64-92 | a try block of header updates, defined by its body; characterised by StyleUntilSpec |
| Qcml.StyleUntilSpec | multiqc/modules/mappingqc/mappingqc.py:64-92 | a try block updates its keys in order up to the first missing one; those updates persist, and no header is added, removed or otherwise changed |
| Qcml.StyleAll | multiqc/modules/readqc/readqc.py:104-113 | header updates outside a try block, defined by its body; characterised by StyleAllSpec |
| Qcml.StyleAllSpec | multiqc/modules/readqc/readqc.py:104-113 | updates outside a try block succeed iff every listed header exists, and then they update exactly the listed headers |
| Qcml.StyleUntilMissing | multiqc/modules/mappingqc/mappingqc.py:86-92 | the statement-by-statement header updates compute the try-block semantics: headers updated up to the first missing key, and how many were updated |
| Qcml.Pick | multiqc/modules/mappingqc/mappingqc.py:173 | `[{s: headers[s]} for s in keys]` fails iff some key has no header; otherwise it holds exactly those keys with their headers |
| Qcml.OrderedSubset | multiqc/modules/readqc/readqc.py:53-62 | dict_ordered_subset, defined by its body; characterised by OrderedSubsetSpec |
| Qcml.OrderedSubsetSpec | multiqc/modules/readqc/readqc.py:53-62 | dict_ordered_subset holds exactly the listed keys that the dict has, each once, with the dict's value, in the order of their first listing |
| Qcml.DictOrderedSubset | multiqc/modules/readqc/readqc.py:53-62 | the OrderedDict loop computes that ordered subset |
| Qcml.AsMap | multiqc/modules/mappingqc/mappingqc.py:110-121 | the OrderedDict handed to a section table, as a map, defined by its body; characterised by AsMapOfSubset |
| Qcml.AsMapOfSubset | multiqc/modules/mappingqc/mappingqc.py:110-121 | a section built from dict_ordered_subset gets exactly the listed keys the dict has, each with the dict's value |
| Qcml.DescriptionText | multiqc/modules/readqc/readqc.py:44-46 | one key's description text, defined by its body; characterised by MakeDescriptionSpec |
| Qcml.ListItems | multiqc/modules/readqc/readqc.py:47-50 | the `<li>` items of several keys, defined by its body; characterised by ListItemsAppend |
| Qcml.MakeDescription | multiqc/modules/readqc/readqc.py:41-51 | make_description, defined by its body; characterised by MakeDescriptionSpec, ListItemsAppend and AccessionNeverAppears |
| Qcml.MakeDescriptionSpec | multiqc/modules/readqc/readqc.py:41-51 | make_description succeeds iff every key has a table entry with an accession; one key gives its bare description, any other count gives an HTML list |
| Qcml.ListItemsAppend | multiqc/modules/readqc/readqc.py:47-50 | one more described key appends its `<li>` item, holding its description, after the items of the earlier keys |
| Qcml.AccessionNeverAppears | multiqc/modules/readqc/readqc.py:44-50 | the accession is looked up but never appears in the text: tables differing only in accessions give the same result |
| ReadQC.Init | multiqc/modules/readqc/readqc.py:67-130 | with no sample left the constructor stops with NoSamples; otherwise its report, table and samples are those of ReadQC.Reshape, and so is its error |
| ReadQC.Reshape | multiqc/modules/readqc/readqc.py:90-130 | the constructor after the zero-sample check, defined by its body; characterised by ReshapeSucceeds and the lemmas below |
| ReadQC.ReshapeSucceeds | multiqc/modules/readqc/readqc.py:90-113 | the constructor fails exactly when the table or a sample lacks "bases sequenced (MB)", a sample holds it as text, or an updated header was never described |
| ReadQC.BasesSequencedDescribed | multiqc/modules/readqc/readqc.py:91-93 | the table swaps "bases sequenced (MB)" for "bases sequenced", described as "Bases sequenced in total.", and keeps every other entry |
| ReadQC.BasesSequencedMigrated | multiqc/modules/readqc/readqc.py:94-96 | every sample holds "bases sequenced" worth 10^6 times its former "bases sequenced (MB)", which is gone, and no other key changes |
| ReadQC.HeadersFromTable | multiqc/modules/readqc/readqc.py:99-113 | one header per migrated table key, in namespace ReadQC, titled by the key, updated iff the key is one of the seven the constructor lists |
| ReadQC.GeneralStatsColumns | multiqc/modules/readqc/readqc.py:116-117 | the general-statistics columns are read count, bases sequenced and gc content %, in that order, each where present |
| SomaticQC.SplitSampleName | multiqc/modules/somaticqc/somaticqc.py:31-34 | the tumor-half sample name, defined by its body; characterised by SplitTumorNormal and SplitKeepsOtherNames |
| SomaticQC.SplitTumorNormal | multiqc/modules/somaticqc/somaticqc.py:31-34 | a name made of non-hyphens, a hyphen, a non-hyphen and anything after it becomes the text before its first hyphen |
| SomaticQC.SplitKeepsOtherNames | multiqc/modules/somaticqc/somaticqc.py:31-34 | a name kept as it is: no hyphen, a leading hyphen, or a first hyphen that is last or followed by another hyphen |
| SomaticQC.RewriteRate | multiqc/modules/somaticqc/somaticqc.py:48 | the rate substitution, defined by its body; characterised by RewriteMarksOrKeeps and RateTextBecomesChr2 |
| SomaticQC.RewriteMarksOrKeeps | multiqc/modules/somaticqc/somaticqc.py:48 | the rewrite either leaves the text unchanged or puts a U+0002 into it |
| SomaticQC.RateTextBecomesChr2 | multiqc/modules/somaticqc/somaticqc.py:48 | "low (3.5 var/Mb)" is rewritten to the single character U+0002 |
| SomaticQC.RateStep | multiqc/modules/somaticqc/somaticqc.py:46-50 | one sample fails iff its rate is missing (KeyError) or already a number (TypeError); otherwise only the rate changes |
| SomaticQC.RateAlwaysDropped | multiqc/modules/somaticqc/somaticqc.py:46-50 | a rate held as text that float() rejected is popped, whatever it says |
| SomaticQC.RateAll | multiqc/modules/somaticqc/somaticqc.py:45-50 | the rate loop over all samples, defined by its body; characterised by RateAllSpec |
| SomaticQC.RateAllSpec | multiqc/modules/somaticqc/somaticqc.py:45-50 | the rate loop fails iff some sample lacks the rate or holds it as a number; otherwise it keeps the samples and steps each |
| SomaticQC.ParseVariantRates | multiqc/modules/somaticqc/somaticqc.py:45-50 | the in-place loop leaves the samples the rate loop computes, or returns its error; the table is unchanged |
| SomaticQC.ParseVariantRate | multiqc/modules/somaticqc/somaticqc.py:46-50 | one sample steps and nothing else changes |
| SomaticQC.RateKeepsVariantCount | multiqc/modules/somaticqc/somaticqc.py:45-50 | the rate loop neither adds nor removes "variant count" |
| SomaticQC.StyleIfPresentSpec | multiqc/modules/somaticqc/somaticqc.py:67-75 | an optional update marks its header when present and changes nothing else |
| SomaticQC.StyleThenOptional | multiqc/modules/somaticqc/somaticqc.py:59-75 | the required updates followed by the two optional ones mark exactly the listed headers that exist |
| SomaticQC.SomaticHeaders | multiqc/modules/somaticqc/somaticqc.py:53-78 | the constructor's headers, defined by its body; characterised by SomaticHeadersSucceeds and SomaticHeadersSpec |
| SomaticQC.SomaticHeadersSucceeds | multiqc/modules/somaticqc/somaticqc.py:59-78 | the headers fail iff a header updated outside a try block was never described |
| SomaticQC.SomaticHeadersSpec | multiqc/modules/somaticqc/somaticqc.py:53-78 | otherwise there is one header per table key except "variant count", which is stored under "variant count somaticqc" and keeps its title; each is in namespace SomaticQC, carries its description and is updated iff listed |
| SomaticQC.RenameAll | multiqc/modules/somaticqc/somaticqc.py:79-80 | the rename over all samples, defined by its body; characterised by VariantCountRenamed and RenameVariantCounts |
| SomaticQC.RenameVariantCounts | multiqc/modules/somaticqc/somaticqc.py:79-80 | the in-place rename loop fails with KeyError iff some sample lacks "variant count"; otherwise every sample is renamed |
| SomaticQC.RenameVariantCount | multiqc/modules/somaticqc/somaticqc.py:80 | one sample is renamed and nothing else changes |
| SomaticQC.Init | multiqc/modules/somaticqc/somaticqc.py:17-129 | the constructor, with names split into their tumor half, stops with NoSamples when no sample is left; otherwise its report, table and samples are those of SomaticQC.Reshape, and so is its error |
| SomaticQC.Reshape | multiqc/modules/somaticqc/somaticqc.py:44-129 | the constructor after the zero-sample check, defined by its body; characterised by ReshapeSucceeds and the lemmas below |
| SomaticQC.ReshapeSucceeds | multiqc/modules/somaticqc/somaticqc.py:44-113 | the constructor fails exactly when a sample lacks the rate or holds it as a number, a required header was never described, a sample lacks "variant count", or "somatic variant count" has no accession |
| SomaticQC.VariantCountRenamed | multiqc/modules/somaticqc/somaticqc.py:79-80 | every sample holds its former "variant count" under "variant count somaticqc" and no longer has "variant count"; only the rate and those two keys change |
| SomaticQC.RateNeverReported | multiqc/modules/somaticqc/somaticqc.py:45-50 | for any float() that rejects U+0002, no sample keeps "somatic variant rate" |
| SomaticQC.RatesDropped | multiqc/modules/somaticqc/somaticqc.py:45-50 | after the rate loop no sample has a rate, for any float() that rejects U+0002 |
| SomaticQC.RenameKeepsRateOut | multiqc/modules/somaticqc/somaticqc.py:79-80 | the rename succeeds on samples that all have "variant count", and brings no rate back |
| SomaticQC.LoadedRateNeverReported | multiqc/modules/somaticqc/somaticqc.py:28-50 | end to end from the qcML files: no sample reports a somatic variant rate |
| SomaticQC.SectionColumns | multiqc/modules/somaticqc/somaticqc.py:83-129 | the general statistics are an ordered subset of the headers; there are two sections: Overview shows exactly the listed Overview keys that have headers, Somatic Variant Count shows exactly "somatic variant count" when it has a header, described by its table entry |
| MappingQC.CoverageKeysFormatted | multiqc/modules/mappingqc/mappingqc.py:85-90 | `'target region {:d}x %'.format(x)` over the coverage values gives the seven keys the Coverage section lists |
| MappingQC.StyleBlockSpec | multiqc/modules/mappingqc/mappingqc.py:64-92 | a try block marks exactly the headers it reaches: a key of the block is marked when it and all keys before it are present |
| MappingQC.StyleThenBlocks | multiqc/modules/mappingqc/mappingqc.py:55-92 | the required updates then four try blocks mark the listed headers and those each block reaches, and nothing else |
| MappingQC.MappingHeaders | multiqc/modules/mappingqc/mappingqc.py:49-92 | the constructor's headers, defined by its body; characterised by MappingHeadersSucceeds and MappingHeadersSpec |
| MappingQC.MappingHeadersSucceeds | multiqc/modules/mappingqc/mappingqc.py:55-62 | the headers fail iff a header updated outside a try block is missing, and keep the table's keys |
| MappingQC.MappingHeadersSpec | multiqc/modules/mappingqc/mappingqc.py:49-92 | one header per table key, in namespace MappingQC, titled by its key, updated iff required or reached by its try block |
| MappingQC.BuildHeaders | multiqc/modules/mappingqc/mappingqc.py:49-92 | the statement-by-statement header updates compute those headers |
| MappingQC.MappingReport | multiqc/modules/mappingqc/mappingqc.py:94-189 | the general statistics and sections, defined by its body; characterised by MappingReportSucceeds, MappingReportSections, MappingReportColumns and CoverageColumns |
| MappingQC.MappingReportSucceeds | multiqc/modules/mappingqc/mappingqc.py:125-189 | the report fails exactly when "target region 10x %" is present while the read depth is undescribed or another coverage header is missing |
| MappingQC.MappingReportSections | multiqc/modules/mappingqc/mappingqc.py:105-189 | Overview alone, or Overview, Coverage, Sequencing Depth and Target Coverage when the 10x header exists; Sequencing Depth carries the read depth's description; Target Coverage holds exactly the seven coverage headers |
| MappingQC.MappingReportColumns | multiqc/modules/mappingqc/mappingqc.py:94-121 | the general statistics are an ordered subset of the headers, and Overview shows exactly the listed Overview keys that have headers, each with its header |
| MappingQC.CoverageColumns | multiqc/modules/mappingqc/mappingqc.py:125-164 | with the 10x header there are four sections; Coverage shows exactly the listed read-depth and target-region keys that have headers, and Sequencing Depth exactly the read depth when it has a header |
| MappingQC.BuildReport | multiqc/modules/mappingqc/mappingqc.py:94-189 | the general statistics and the sections, added one by one, are that report |
| MappingQC.Init | multiqc/modules/mappingqc/mappingqc.py:17-189 | with no sample left the constructor stops with NoSamples; otherwise its report, table and samples are those of MappingQC.Reshape, and so is its error |
| MappingQC.MigratedKeeps | multiqc/modules/mappingqc/mappingqc.py:40-46 | the migration keeps every table entry other than the two it swaps |
| MappingQC.RequiredKept | multiqc/modules/mappingqc/mappingqc.py:41-62 | after the migration the required headers exist iff they existed before, apart from the new "bases usable" |
| MappingQC.TargetRegionKept | multiqc/modules/mappingqc/mappingqc.py:84-149 | the migration changes neither the presence of the coverage parameters nor whether the read depth is described |
| MappingQC.Reshape | multiqc/modules/mappingqc/mappingqc.py:40-189 | the constructor after the zero-sample check, defined by its body; characterised by ReshapeSucceeds and the lemmas below |
| MappingQC.ReshapeSucceeds | multiqc/modules/mappingqc/mappingqc.py:40-189 | the constructor fails exactly when the migration fails, a required header is missing, or the 10x coverage is present while the read depth is undescribed or another coverage parameter is missing |
| MappingQC.SectionsFollowTargetRegion | multiqc/modules/mappingqc/mappingqc.py:125-189 | the Coverage, Sequencing Depth and Target Coverage sections follow Overview iff "target region 10x %" was read |
| MappingQC.BasesUsableMigrated | multiqc/modules/mappingqc/mappingqc.py:40-46 | the table swaps "bases usable (MB)" for "bases usable" with the fixed description; every sample holds 10^6 times its former value under the new key, and nothing else changes |
| MappingQC.HeadersFromTable | multiqc/modules/mappingqc/mappingqc.py:49-92 | the constructor's headers are one per migrated table key, updated iff required or reached by its try block |
| MappingQC.PairedEndKeepsEarlierUpdate | multiqc/modules/mappingqc/mappingqc.py:70-75 | single-end data without "insert size" still has "properly-paired read %" updated |
| MappingQC.CoverageNeedsDepth | multiqc/modules/mappingqc/mappingqc.py:84-92 | without a read depth the target-region block stops at once, so no coverage header is updated |
| MappingQC.SectionColumns | multiqc/modules/mappingqc/mappingqc.py:94-149 | the report is the one of the final headers; the general statistics are an ordered subset; with the 10x header there are four sections, and Sequencing Depth carries the read depth's description |

## Left out

- **XML decoding.** `fromstring` and `findall` of a qcML document are not
  modelled. A document is given as its `qualityParameter` entries in
  document order, each with all four attributes. A missing attribute, which
  raises `KeyError` in the source, cannot be expressed.
- **`float()`.** It is a parameter of type `string -> Option<real>`.
  - Which strings parse is left open. A few lemmas assume only that text
    holding U+0002 is rejected.
  - Python's `float()` also accepts `nan`, `inf` and out-of-range text such
    as `1e999`. The results are not real numbers, so the parameter cannot
    return them; such a value is modelled as rejected or as some real.
  - Values are real numbers, so the megabase scaling is exact. Binary
    floating-point rounding is not modelled.
- **Regular expressions.** The three patterns are hand-written string
  functions: ` percentage$`, `([^-]+)-[^-]+` and the rate pattern. No
  general regex engine is modelled.
- **Host calls.** These are I/O, rendering or code outside the plugins:
  - `find_log_files` becomes the list of files given to `Init`;
  - `clean_s_name` is taken as already applied to the file's sample name;
  - `ignore_samples` is a parameter deciding which names are ignored;
  - `add_data_source`, `write_data_file`, `general_stats_addcols`,
    `add_section`, `table.plot`, `bargraph.plot` and the `config` prefixes
    and multipliers are not modelled. The report records the columns and
    sections handed to them.
- **Display metadata.** Suffixes, formats, scales, bounds and `modify`
  lambdas collapse to the header's `styled` flag. The plot configurations
  are not modelled.
- **Section column order.** The section tables receive an `OrderedDict`.
  The model hands them a map (`AsMap`). Which columns each section shows is
  proved (`AsMapOfSubset`), but their order is proved only for the ordered
  subset, not for the section itself.
- **Target Coverage shape.** The source passes one single-entry dict per
  coverage key. The model merges them into one map (`Pick`).
- **Which error wins.** Across samples it depends on dict iteration order.
  When one sample would raise `KeyError` and another `TypeError`, the model
  reports `KeyError`. It does not say which sample's error comes first.
- **Partial state on error.** After an exception the source has already
  changed its fields; for example, the migration drops the old table entry
  before it inspects the samples. `MigrateMegabases`, `ParseVariantRates`,
  `RenameVariantCounts` and the `Init` methods state the error they return,
  but not the fields they leave behind on that path.
- **Zero samples.** A sample with zero extracted parameters does not abort
  the plugin. The code aborts only when no sample is left after ignoring
  samples, and the model follows the code.
- **VariantQC.** `multiqc/modules/variantqc/variantqc.py` is not part of
  this model. It only builds headers and calls the renderer with the shared
  helpers modelled here.
