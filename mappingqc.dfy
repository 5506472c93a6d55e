/*
 * The MappingQC plugin: QC metrics of mapped reads. It replaces
 * "bases usable (MB)" by "bases usable" counted in bases, updates the headers
 * of the parameters that are always present and, where present, those of
 * duplicates, paired-end reads, human samples and target regions, and adds the
 * coverage sections only when a target region was given.
 */
module MappingQC {
  import opened Qcml

  const Namespace := "MappingQC"
  const OldKey := "bases usable (MB)"
  const NewKey := "bases usable"
  /** The description the source gives "bases usable", copied from ReadQC's "bases sequenced". */
  const NewDescription := "Bases sequenced in total."

  /** Headers updated outside any try block: each must exist. */
  const StyledKeys: seq<string> := ["trimmed base %", "clipped base %", "mapped read %", "bases usable", "on-target read %"]

  /** The try blocks, in order; each stops at its first missing header. */
  const DuplicateBlock: seq<string> := ["duplicate read %"]
  const PairedBlock: seq<string> := ["properly-paired read %", "insert size"]
  const HumanBlock: seq<string> := ["SNV allele frequency deviation"]

  const Depth := "target region read depth"
  const TenX := "target region 10x %"
  const CoverageValues: seq<nat> := [10, 20, 30, 50, 100, 200, 500]

  const GeneralStatsKeys: seq<string> := ["bases usable", "mapped read %", "on-target read %", "target region read depth"]

  const OverviewKeys: seq<string> :=
    ["bases usable", "on-target read %", "mapped read %", "properly-paired read %", "trimmed base %",
     "clipped base %", "duplicate read %", "insert size", "SNV allele frequency deviation"]

  // ---------------------------------------------------------------------------
  // 'target region {:d}x %'.format(x)
  // ---------------------------------------------------------------------------

  function DigitChar(d: nat): char
    requires d < 10
  {
    "0123456789"[d]
  }

  /** "{:d}".format(n): the decimal digits of n, without leading zeros. */
  function NatToString(n: nat): (s: string)
    ensures |s| >= 1
    decreases n
  {
    if n < 10 then [DigitChar(n)] else NatToString(n / 10) + [DigitChar(n % 10)]
  }

  function CoverageKey(x: nat): string {
    "target region " + NatToString(x) + "x %"
  }

  /** [CoverageKey(x) for x in xs] */
  function CoverageKeysOf(xs: seq<nat>): (ks: seq<string>)
    ensures |ks| == |xs| && forall i :: 0 <= i < |xs| ==> ks[i] == CoverageKey(xs[i])
  {
    if xs == [] then [] else [CoverageKey(xs[0])] + CoverageKeysOf(xs[1..])
  }

  /** The coverage headers, as the coverage table lists them. */
  const CoverageKeys: seq<string> :=
    ["target region 10x %", "target region 20x %", "target region 30x %", "target region 50x %",
     "target region 100x %", "target region 200x %", "target region 500x %"]

  /** The keys of the target-region try block: the depth, then one per coverage value. */
  const TargetBlock: seq<string> := [Depth] + CoverageKeys

  /** Formatting the coverage values gives the keys the coverage table names literally. */
  lemma CoverageKeysFormatted()
    ensures CoverageKeysOf(CoverageValues) == CoverageKeys
  {
    TwoDigitKeysFormatted();
    ThreeDigitKeysFormatted();
    var ks := CoverageKeysOf(CoverageValues);
    assert forall i :: 0 <= i < |ks| ==> ks[i] == CoverageKeys[i];
  }

  lemma TwoDigitKeysFormatted()
    ensures CoverageKey(10) == CoverageKeys[0] && CoverageKey(20) == CoverageKeys[1]
    ensures CoverageKey(30) == CoverageKeys[2] && CoverageKey(50) == CoverageKeys[3]
  {
    assert NatToString(10) == "10";
    assert NatToString(20) == "20";
    assert NatToString(30) == "30";
    assert NatToString(50) == "50";
  }

  lemma ThreeDigitKeysFormatted()
    ensures CoverageKey(100) == CoverageKeys[4] && CoverageKey(200) == CoverageKeys[5]
    ensures CoverageKey(500) == CoverageKeys[6]
  {
    HundredsWritten();
    assert CoverageKey(100) == "target region " + "100" + "x %";
    assert CoverageKey(200) == "target region " + "200" + "x %";
    assert CoverageKey(500) == "target region " + "500" + "x %";
  }

  lemma HundredsWritten()
    ensures NatToString(100) == "100" && NatToString(200) == "200" && NatToString(500) == "500"
  {
    assert NatToString(10) == "10";
    assert NatToString(20) == "20";
    assert NatToString(50) == "50";
  }

  // ---------------------------------------------------------------------------
  // Headers
  // ---------------------------------------------------------------------------

  /**
   * A try block reaches k: k is in the block and every key of the block up to and
   * including k is present, so no KeyError ended the block before k was updated.
   */
  ghost predicate Reached(keys: set<string>, block: seq<string>, k: string) {
    exists i :: 0 <= i < |block| && block[i] == k && forall j :: 0 <= j <= i ==> block[j] in keys
  }

  /** One try block: the headers it reaches are updated, the rest are untouched. */
  lemma StyleBlockSpec(h: Headers, block: seq<string>)
    ensures var h' := StyleUntil(h, block).0;
      h'.Keys == h.Keys && forall k :: k in h ==> h'[k] == h[k].(styled := h[k].styled || Reached(h.Keys, block, k))
  {
    StyleUntilSpec(h, block);
    var (h', n) := StyleUntil(h, block);
    forall k | k in h
      ensures k in block[..n] <==> Reached(h.Keys, block, k)
    {
      if k in block[..n] {
        var i :| 0 <= i < n && block[..n][i] == k;
        assert block[i] == k && forall j :: 0 <= j <= i ==> block[j] in h.Keys;
      }
      if Reached(h.Keys, block, k) {
        var i :| 0 <= i < |block| && block[i] == k && forall j :: 0 <= j <= i ==> block[j] in h.Keys;
        assert i < n;
        assert block[..n][i] == k;
      }
    }
  }

  lemma NotInBlock(keys: set<string>, block: seq<string>, k: string)
    requires k !in block
    ensures !Reached(keys, block, k)
  {
  }

  /** A block whose first key is missing reaches nothing. */
  lemma FirstMissingStopsBlock(keys: set<string>, block: seq<string>, k: string)
    requires block != [] && block[0] !in keys
    ensures !Reached(keys, block, k)
  {
  }

  /** Is the header of k updated, given the parameters in the table? */
  ghost predicate MappingStyled(keys: set<string>, k: string) {
    || k in StyledKeys
    || Reached(keys, DuplicateBlock, k)
    || Reached(keys, PairedBlock, k)
    || Reached(keys, HumanBlock, k)
    || Reached(keys, TargetBlock, k)
  }

  /** The required updates, then four try blocks, for any keys. */
  lemma StyleThenBlocks(h: Headers, keys: seq<string>, b1: seq<string>, b2: seq<string>, b3: seq<string>, b4: seq<string>)
    requires StyleAll(h, keys).Ok?
    ensures var h' := StyleUntil(StyleUntil(StyleUntil(StyleUntil(StyleAll(h, keys).value, b1).0, b2).0, b3).0, b4).0;
      && h'.Keys == h.Keys
      && forall k :: k in h ==> h'[k] == h[k].(styled := h[k].styled || k in keys
           || Reached(h.Keys, b1, k) || Reached(h.Keys, b2, k) || Reached(h.Keys, b3, k) || Reached(h.Keys, b4, k))
  {
    StyleAllSpec(h, keys);
    var h1 := StyleAll(h, keys).value;
    StyleBlockSpec(h1, b1);
    var h2 := StyleUntil(h1, b1).0;
    StyleBlockSpec(h2, b2);
    var h3 := StyleUntil(h2, b2).0;
    StyleBlockSpec(h3, b3);
    var h4 := StyleUntil(h3, b3).0;
    StyleBlockSpec(h4, b4);
  }

  /** The headers: built from the table, then the required updates and the four try blocks. */
  function MappingHeaders(t: Table): Result<Headers> {
    var h1 :- StyleAll(MakeHeaders(t, Namespace), StyledKeys);
    var h2 := StyleUntil(h1, DuplicateBlock).0;
    var h3 := StyleUntil(h2, PairedBlock).0;
    var h4 := StyleUntil(h3, HumanBlock).0;
    Ok(StyleUntil(h4, TargetBlock).0)
  }

  /**
   * The headers fail exactly when a parameter updated outside a try block is
   * missing; otherwise there is one header per parameter, titled by it, in the
   * MappingQC namespace, updated exactly as MappingStyled says.
   */
  lemma MappingHeadersSpec(t: Table)
    ensures MappingHeaders(t).Ok? <==> forall k :: k in StyledKeys ==> k in t
    ensures MappingHeaders(t).Ok? ==> var h := MappingHeaders(t).value;
      && h.Keys == t.Keys
      && forall k :: k in h ==> h[k] == Header(Namespace, k, t[k].description, MappingStyled(t.Keys, k))
  {
    var h0 := MakeHeaders(t, Namespace);
    StyleAllSpec(h0, StyledKeys);
    if StyleAll(h0, StyledKeys).Ok? {
      StyleThenBlocks(h0, StyledKeys, DuplicateBlock, PairedBlock, HumanBlock, TargetBlock);
    }
  }

  /** The headers fail exactly when a parameter updated outside a try block is missing, and keep the table's keys. */
  lemma MappingHeadersSucceeds(t: Table)
    ensures MappingHeaders(t).Ok? <==> forall k :: k in StyledKeys ==> k in t
    ensures MappingHeaders(t).Ok? ==> MappingHeaders(t).value.Keys == t.Keys
  {
    var h0 := MakeHeaders(t, Namespace);
    StyleAllSpec(h0, StyledKeys);
    if StyleAll(h0, StyledKeys).Ok? {
      var h1 := StyleAll(h0, StyledKeys).value;
      StyleUntilSpec(h1, DuplicateBlock);
      var h2 := StyleUntil(h1, DuplicateBlock).0;
      StyleUntilSpec(h2, PairedBlock);
      var h3 := StyleUntil(h2, PairedBlock).0;
      StyleUntilSpec(h3, HumanBlock);
      var h4 := StyleUntil(h3, HumanBlock).0;
      StyleUntilSpec(h4, TargetBlock);
    }
  }

  // ---------------------------------------------------------------------------
  // The constructor
  // ---------------------------------------------------------------------------

  /** The general statistics and the sections, given the migrated table and the headers. */
  function MappingReport(t: Table, headers: Headers): Result<Report> {
    var general := OrderedSubset(headers, GeneralStatsKeys);
    var overview := Section("Overview", "mappingqc-general", "", AsMap(OrderedSubset(headers, OverviewKeys)));
    if TenX !in headers then Ok(Report(general, [overview]))
    else
      var coverage := Section("Coverage", "mappingqc-coverage", "", AsMap(OrderedSubset(headers, TargetBlock)));
      var description :- MakeDescription(t, [Depth]);
      var depth := Section("Sequencing Depth", "mappingqc-read-depth", description, AsMap(OrderedSubset(headers, [Depth])));
      var targets :- Pick(headers, CoverageKeys);
      Ok(Report(general, [overview, coverage, depth, Section("Target Coverage", "mappingqc-target-coverage", "", targets)]))
  }

  /** The constructor after its zero-sample check, on values. */
  function Reshape(t: Table, samples: Samples): Result<Outcome> {
    var migrated :- Migrate(t, samples, OldKey, NewKey, NewDescription);
    var headers :- MappingHeaders(migrated.0);
    var report :- MappingReport(migrated.0, headers);
    Ok(Outcome(migrated.0, migrated.1, headers, report))
  }

  /** The header updates, statement by statement. */
  method BuildHeaders(t: Table) returns (r: Result<Headers>)
    ensures r == MappingHeaders(t)
  {
    var headers, n := StyleUntilMissing(MakeHeaders(t, Namespace), StyledKeys);
    if n < |StyledKeys| {
      return Err(KeyError(StyledKeys[n]));
    }
    headers, n := StyleUntilMissing(headers, DuplicateBlock);
    headers, n := StyleUntilMissing(headers, PairedBlock);
    headers, n := StyleUntilMissing(headers, HumanBlock);
    headers, n := StyleUntilMissing(headers, TargetBlock);
    r := Ok(headers);
  }

  /** The general statistics and the sections, added one by one. */
  method BuildReport(t: Table, headers: Headers) returns (r: Result<Report>)
    ensures r == MappingReport(t, headers)
  {
    var general := DictOrderedSubset(headers, GeneralStatsKeys);
    var overview := DictOrderedSubset(headers, OverviewKeys);
    var overviewSection := Section("Overview", "mappingqc-general", "", AsMap(overview));
    if TenX !in headers {
      return Ok(Report(general, [overviewSection]));
    }
    var coverage := DictOrderedSubset(headers, TargetBlock);
    var description := MakeDescription(t, [Depth]);
    if description.Err? {
      return Err(description.error);
    }
    var depth := DictOrderedSubset(headers, [Depth]);
    var targets := Pick(headers, CoverageKeys);
    if targets.Err? {
      return Err(targets.error);
    }
    r := Ok(Report(general,
                   [overviewSection,
                    Section("Coverage", "mappingqc-coverage", "", AsMap(coverage)),
                    Section("Sequencing Depth", "mappingqc-read-depth", description.value, AsMap(depth)),
                    Section("Target Coverage", "mappingqc-target-coverage", "", targets.value)]));
  }

  /** The module's constructor, run on a module object. */
  method Init(m: QcmlModule, files: seq<LogFile>, parse: FloatParser, ignored: string -> bool) returns (r: Result<Report>)
    modifies m
    ensures var t := UpdatedTable(map[], AllParams(files));
            var loaded := Kept(LoadSamples(map[], files, parse, KeepName), ignored);
      if loaded == map[] then r == Err(NoSamples) && m.qcml == t && m.qcdata == map[]
      else match Reshape(t, loaded)
        case Ok(o) => r == Ok(o.report) && m.qcml == o.qcml && m.qcdata == o.qcdata
        case Err(e) => r == Err(e)
  {
    m.qcml := map[];
    m.qcdata := map[];
    m.LoadFiles(files, parse, KeepName);
    m.IgnoreSamples(ignored);
    if |m.qcdata| == 0 {
      return Err(NoSamples);
    }
    var err := m.MigrateMegabases(OldKey, NewKey, NewDescription);
    if err.Some? {
      return Err(err.value);
    }
    var headers := BuildHeaders(m.qcml);
    if headers.Err? {
      return Err(headers.error);
    }
    r := BuildReport(m.qcml, headers.value);
  }

  // ---------------------------------------------------------------------------
  // Properties
  // ---------------------------------------------------------------------------

  /**
   * The report fails exactly when a 10x coverage is reported while the read depth
   * is undescribed or another coverage header is missing.
   */
  lemma MappingReportSucceeds(t: Table, headers: Headers)
    ensures MappingReport(t, headers).Ok? <==>
      (TenX in headers ==> Described(t, [Depth]) && forall k :: k in CoverageKeys ==> k in headers)
  {
    MakeDescriptionSpec(t, [Depth]);
  }

  /**
   * The sections: Overview alone, or Overview, Coverage, Sequencing Depth and
   * Target Coverage when the 10x header exists. Sequencing Depth is described by
   * the read depth's description; Target Coverage holds exactly the seven coverage
   * headers.
   */
  lemma MappingReportSections(t: Table, headers: Headers)
    requires MappingReport(t, headers).Ok?
    ensures var r := MappingReport(t, headers).value;
      && |r.sections| == (if TenX in headers then 4 else 1)
      && r.sections[0] == Section("Overview", "mappingqc-general", "", AsMap(OrderedSubset(headers, OverviewKeys)))
      && (TenX in headers ==>
            && r.sections[1] == Section("Coverage", "mappingqc-coverage", "", AsMap(OrderedSubset(headers, TargetBlock)))
            && r.sections[2].name == "Sequencing Depth"
            && r.sections[2].description == t[Depth].description
            && r.sections[3].name == "Target Coverage"
            && r.sections[3].columns.Keys == (set k | k in CoverageKeys)
            && forall k :: k in r.sections[3].columns ==> r.sections[3].columns[k] == headers[k])
  {
    MakeDescriptionSpec(t, [Depth]);
    if TenX in headers {
      var description := MakeDescription(t, [Depth]);
      var targets := Pick(headers, CoverageKeys);
      assert MappingReport(t, headers).value.sections[2].description == description.value;
      assert MappingReport(t, headers).value.sections[3].columns == targets.value;
    }
  }

  /** The columns of the general statistics, Overview and Coverage are ordered subsets of the headers. */
  lemma MappingReportColumns(t: Table, headers: Headers)
    requires MappingReport(t, headers).Ok?
    ensures var r := MappingReport(t, headers).value;
      && IsOrderedSubset(r.generalStats, headers, GeneralStatsKeys)
      && |r.sections| >= 1
      && r.sections[0].columns == (map k | k in OverviewKeys && k in headers :: headers[k])
  {
    OrderedSubsetSpec(headers, GeneralStatsKeys);
    MappingReportSections(t, headers);
    AsMapOfSubset(headers, OverviewKeys);
  }

  /** With "10x" present, the Coverage and Sequencing Depth sections show exactly their keys. */
  lemma CoverageColumns(t: Table, headers: Headers)
    requires MappingReport(t, headers).Ok? && TenX in headers
    ensures var r := MappingReport(t, headers).value;
      && |r.sections| == 4
      && r.sections[1].columns == (map k | k in TargetBlock && k in headers :: headers[k])
      && r.sections[2].columns == (map k | k in [Depth] && k in headers :: headers[k])
  {
    var r := MappingReport(t, headers).value;
    MappingReportSections(t, headers);
    assert r.sections[1].columns == AsMap(OrderedSubset(headers, TargetBlock));
    AsMapOfSubset(headers, TargetBlock);
    assert r.sections[2].columns == AsMap(OrderedSubset(headers, [Depth]));
    AsMapOfSubset(headers, [Depth]);
  }

  /** The constructor is the migration, then the headers, then the report. */
  lemma ReshapeParts(t: Table, samples: Samples)
    ensures var migrated := Migrate(t, samples, OldKey, NewKey, NewDescription);
      Reshape(t, samples).Ok? <==>
        && migrated.Ok?
        && MappingHeaders(migrated.value.0).Ok?
        && MappingReport(migrated.value.0, MappingHeaders(migrated.value.0).value).Ok?
    ensures Reshape(t, samples).Ok? ==>
      var migrated := Migrate(t, samples, OldKey, NewKey, NewDescription).value;
      var headers := MappingHeaders(migrated.0).value;
      Reshape(t, samples).value == Outcome(migrated.0, migrated.1, headers, MappingReport(migrated.0, headers).value)
  {
  }

  /** The migration preserves every key of the report other than the two it swaps. */
  lemma MigratedKeeps(t: Table, samples: Samples, k: string)
    requires Migrate(t, samples, OldKey, NewKey, NewDescription).Ok?
    requires k != OldKey && k != NewKey
    ensures var t' := Migrate(t, samples, OldKey, NewKey, NewDescription).value.0;
      (k in t' <==> k in t) && (k in t ==> t'[k] == t[k])
  {
    MigrateSpec(t, samples, OldKey, NewKey, NewDescription);
  }

  /** After the migration the required parameters are the same, but for the new "bases usable". */
  lemma RequiredKept(t: Table, samples: Samples)
    requires Migrate(t, samples, OldKey, NewKey, NewDescription).Ok?
    ensures var t' := Migrate(t, samples, OldKey, NewKey, NewDescription).value.0;
      (forall k :: k in StyledKeys ==> k in t') <==> (forall k :: k in StyledKeys && k != NewKey ==> k in t)
  {
    MigrateSpec(t, samples, OldKey, NewKey, NewDescription);
    forall k | k in StyledKeys && k != NewKey
      ensures k in Migrate(t, samples, OldKey, NewKey, NewDescription).value.0 <==> k in t
    {
      MigratedKeeps(t, samples, k);
    }
  }

  /** After the migration the target-region parameters and the read depth's description are the same. */
  lemma TargetRegionKept(t: Table, samples: Samples)
    requires Migrate(t, samples, OldKey, NewKey, NewDescription).Ok?
    requires MappingHeaders(Migrate(t, samples, OldKey, NewKey, NewDescription).value.0).Ok?
    ensures var t' := Migrate(t, samples, OldKey, NewKey, NewDescription).value.0;
      var h := MappingHeaders(t').value;
      && (TenX in h <==> TenX in t)
      && (Described(t', [Depth]) <==> Described(t, [Depth]))
      && ((forall k :: k in CoverageKeys ==> k in h) <==> (forall k :: k in CoverageKeys ==> k in t))
  {
    var t' := Migrate(t, samples, OldKey, NewKey, NewDescription).value.0;
    MappingHeadersSucceeds(t');
    MigratedKeeps(t, samples, TenX);
    MigratedKeeps(t, samples, Depth);
    forall k | k in CoverageKeys
      ensures k in t' <==> k in t
    {
      CoverageKeysApart(k);
      MigratedKeeps(t, samples, k);
    }
  }

  /**
   * The inputs the constructor accepts: the table and every sample have
   * "bases usable (MB)", held as a number; every parameter whose header is updated
   * outside a try block, but for the new "bases usable", was described; and when a
   * 10x coverage was read, the read depth has an accession and every other
   * coverage was read too.
   */
  ghost predicate Accepted(t: Table, samples: Samples) {
    && OldKey in t && Migratable(samples, OldKey)
    && (forall k :: k in StyledKeys && k != NewKey ==> k in t)
    && (TenX in t ==> Described(t, [Depth]) && forall k :: k in CoverageKeys ==> k in t)
  }

  /** The constructor fails exactly on the inputs it does not accept. */
  lemma ReshapeSucceeds(t: Table, samples: Samples)
    ensures Reshape(t, samples).Ok? <==> Accepted(t, samples)
  {
    ReshapeParts(t, samples);
    MigrateSpec(t, samples, OldKey, NewKey, NewDescription);
    var migrated := Migrate(t, samples, OldKey, NewKey, NewDescription);
    if migrated.Ok? {
      var t' := migrated.value.0;
      MappingHeadersSucceeds(t');
      RequiredKept(t, samples);
      if MappingHeaders(t').Ok? {
        MappingReportSucceeds(t', MappingHeaders(t').value);
        TargetRegionKept(t, samples);
      }
    }
  }

  /**
   * The sections: Overview alone, or Overview, Coverage, Sequencing Depth and
   * Target Coverage exactly when a "target region 10x %" parameter was read.
   */
  lemma SectionsFollowTargetRegion(t: Table, samples: Samples)
    requires Accepted(t, samples)
    ensures Reshape(t, samples).Ok?
    ensures var sections := Reshape(t, samples).value.report.sections;
      && |sections| == (if TenX in t then 4 else 1)
      && sections[0].name == "Overview"
      && (TenX in t ==>
            && sections[1].name == "Coverage"
            && sections[2].name == "Sequencing Depth" && sections[3].name == "Target Coverage")
  {
    ReshapeSucceeds(t, samples);
    ReshapeParts(t, samples);
    var migrated := Migrate(t, samples, OldKey, NewKey, NewDescription).value;
    MappingHeadersSucceeds(migrated.0);
    MigratedKeeps(t, samples, TenX);
    MappingReportSections(migrated.0, MappingHeaders(migrated.0).value);
  }

  /**
   * After the migration no sample has "bases usable (MB)", each has "bases usable"
   * worth 10^6 times the old value, and the table entry is swapped for one with
   * the fixed description.
   */
  lemma BasesUsableMigrated(t: Table, samples: Samples)
    requires Accepted(t, samples)
    ensures Reshape(t, samples).Ok?
    ensures var o := Reshape(t, samples).value;
      && OldKey !in o.qcml && NewKey in o.qcml && o.qcml[NewKey] == Desc(NewDescription, None)
      && (forall k :: k != OldKey && k != NewKey ==> (k in o.qcml <==> k in t) && (k in t ==> o.qcml[k] == t[k]))
      && o.qcdata.Keys == samples.Keys
      && forall s :: s in o.qcdata ==> Rescaled(samples[s], o.qcdata[s], OldKey, NewKey)
  {
    ReshapeSucceeds(t, samples);
    ReshapeParts(t, samples);
    MigrateSpec(t, samples, OldKey, NewKey, NewDescription);
  }

  /** One header per parameter after the migration, updated exactly as MappingStyled says. */
  lemma HeadersFromTable(t: Table, samples: Samples)
    requires Accepted(t, samples)
    ensures Reshape(t, samples).Ok?
    ensures var o := Reshape(t, samples).value;
      && o.headers.Keys == o.qcml.Keys
      && forall k :: k in o.headers ==>
           o.headers[k] == Header(Namespace, k, o.qcml[k].description, MappingStyled(o.qcml.Keys, k))
  {
    ReshapeSucceeds(t, samples);
    MappingHeadersSpec(Migrate(t, samples, OldKey, NewKey, NewDescription).value.0);
  }

  /**
   * A KeyError inside a try block keeps the updates made before it: single-end
   * data without an insert size still has its properly-paired header updated.
   */
  lemma PairedEndKeepsEarlierUpdate(t: Table, samples: Samples)
    requires Accepted(t, samples)
    requires "properly-paired read %" in t && "insert size" !in t
    ensures Reshape(t, samples).Ok?
    ensures var o := Reshape(t, samples).value;
      "properly-paired read %" in o.headers && o.headers["properly-paired read %"].styled && "insert size" !in o.headers
  {
    ReshapeSucceeds(t, samples);
    ReshapeParts(t, samples);
    var t' := Migrate(t, samples, OldKey, NewKey, NewDescription).value.0;
    MigratedKeeps(t, samples, "properly-paired read %");
    MigratedKeeps(t, samples, "insert size");
    MappingHeadersSpec(t');
    assert PairedBlock[0] in t'.Keys;
    assert Reached(t'.Keys, PairedBlock, "properly-paired read %");
  }

  /** No coverage key is among the required keys or the keys of the other try blocks. */
  lemma CoverageKeysApart(k: string)
    requires k in CoverageKeys
    ensures k !in StyledKeys && k !in DuplicateBlock && k !in PairedBlock && k !in HumanBlock
    ensures k != OldKey && k != NewKey
  {
    assert k[0] == 't' && k[1] == 'a';
  }

  /** Without a read depth the target-region block stops at once: no coverage header is updated. */
  lemma CoverageNeedsDepth(t: Table, samples: Samples)
    requires Accepted(t, samples)
    requires Depth !in t
    ensures Reshape(t, samples).Ok?
    ensures var o := Reshape(t, samples).value;
      forall k :: k in CoverageKeys && k in o.headers ==> !o.headers[k].styled
  {
    ReshapeSucceeds(t, samples);
    ReshapeParts(t, samples);
    var t' := Migrate(t, samples, OldKey, NewKey, NewDescription).value.0;
    MigratedKeeps(t, samples, Depth);
    MappingHeadersSpec(t');
    forall k | k in CoverageKeys && k in t'
      ensures !MappingStyled(t'.Keys, k)
    {
      CoverageKeysApart(k);
      NotInBlock(t'.Keys, DuplicateBlock, k);
      NotInBlock(t'.Keys, PairedBlock, k);
      NotInBlock(t'.Keys, HumanBlock, k);
      FirstMissingStopsBlock(t'.Keys, TargetBlock, k);
    }
  }

  /** The report of the constructor is the one MappingReportSpec describes, over the final headers. */
  lemma SectionColumns(t: Table, samples: Samples)
    requires Accepted(t, samples)
    ensures Reshape(t, samples).Ok?
    ensures var o := Reshape(t, samples).value;
      && o.report == MappingReport(o.qcml, o.headers).value
      && IsOrderedSubset(o.report.generalStats, o.headers, GeneralStatsKeys)
      && (TenX in t ==> |o.report.sections| == 4 && o.report.sections[2].description == t[Depth].description)
  {
    ReshapeSucceeds(t, samples);
    var o := Reshape(t, samples).value;
    MappingReportSections(o.qcml, o.headers);
    MappingReportColumns(o.qcml, o.headers);
    MappingHeadersSpec(o.qcml);
    MigratedKeeps(t, samples, TenX);
    MigratedKeeps(t, samples, Depth);
  }
}
