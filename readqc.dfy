/*
 * The ReadQC plugin: QC metrics of unprocessed reads. After reading its qcML
 * files it replaces "bases sequenced (MB)" by "bases sequenced" counted in
 * bases, builds one header per described parameter and picks the
 * general-statistics columns.
 */
module ReadQC {
  import opened Qcml

  const Namespace := "ReadQC"
  const OldKey := "bases sequenced (MB)"
  const NewKey := "bases sequenced"
  const NewDescription := "Bases sequenced in total."

  /** Headers updated outside any try block: each must exist. */
  const StyledKeys: seq<string> :=
    ["Q20 read %", "Q30 base %", "gc content %", "no base call %", "bases sequenced", "read count", "read length"]

  const GeneralStatsKeys: seq<string> := ["read count", "bases sequenced", "gc content %"]

  /** The constructor after its zero-sample check, on values. */
  function Reshape(t: Table, samples: Samples): Result<Outcome> {
    var migrated :- Migrate(t, samples, OldKey, NewKey, NewDescription);
    var headers :- StyleAll(MakeHeaders(migrated.0, Namespace), StyledKeys);
    Ok(Outcome(migrated.0, migrated.1, headers,
               Report(OrderedSubset(headers, GeneralStatsKeys), [Section("Overview", "readqc-all", "", headers)])))
  }

  /** The module's constructor, run on a module object. */
  method Init(m: QcmlModule, files: seq<LogFile>, parse: FloatParser, ignored: string -> bool) returns (r: Result<Report>)
    modifies m
    ensures var t := UpdatedTable(map[], AllParams(files));
            var loaded := Kept(LoadSamples(map[], files, parse, KeepName), ignored);
      if loaded == map[] then r == Err(NoSamples) && m.qcml == t && m.qcdata == map[]
      else match Reshape(t, loaded)
        case Ok(o) => r == Ok(o.report) && m.qcml == o.qcml && m.qcdata == o.qcdata
        case Err(e) => r == Err(e)
  {
    m.qcml := map[];
    m.qcdata := map[];
    m.LoadFiles(files, parse, KeepName);
    m.IgnoreSamples(ignored);
    if |m.qcdata| == 0 {
      return Err(NoSamples);
    }
    ReshapeParts(m.qcml, m.qcdata);
    var err := m.MigrateMegabases(OldKey, NewKey, NewDescription);
    if err.Some? {
      return Err(err.value);
    }
    var headers, n := StyleUntilMissing(MakeHeaders(m.qcml, Namespace), StyledKeys);
    if n < |StyledKeys| {
      return Err(KeyError(StyledKeys[n]));
    }
    var general := DictOrderedSubset(headers, GeneralStatsKeys);
    r := Ok(Report(general, [Section("Overview", "readqc-all", "", headers)]));
  }

  /** The constructor is the migration, then the headers, then the report. */
  lemma ReshapeParts(t: Table, samples: Samples)
    ensures var migrated := Migrate(t, samples, OldKey, NewKey, NewDescription);
      Reshape(t, samples).Ok? <==>
        migrated.Ok? && StyleAll(MakeHeaders(migrated.value.0, Namespace), StyledKeys).Ok?
    ensures Reshape(t, samples).Ok? ==>
      var migrated := Migrate(t, samples, OldKey, NewKey, NewDescription).value;
      var headers := StyleAll(MakeHeaders(migrated.0, Namespace), StyledKeys).value;
      Reshape(t, samples).value ==
        Outcome(migrated.0, migrated.1, headers,
                Report(OrderedSubset(headers, GeneralStatsKeys), [Section("Overview", "readqc-all", "", headers)]))
  {
  }

  /**
   * The inputs the constructor accepts: the table and every sample have
   * "bases sequenced (MB)", held as a number, and every parameter whose header is
   * updated, but for the new "bases sequenced", was described.
   */
  ghost predicate Accepted(t: Table, samples: Samples) {
    && OldKey in t && Migratable(samples, OldKey)
    && forall k :: k in StyledKeys && k != NewKey ==> k in t
  }

  /** The constructor fails exactly on the inputs it does not accept. */
  lemma ReshapeSucceeds(t: Table, samples: Samples)
    ensures Reshape(t, samples).Ok? <==> Accepted(t, samples)
  {
    ReshapeParts(t, samples);
    MigrateSpec(t, samples, OldKey, NewKey, NewDescription);
    if OldKey in t && Migratable(samples, OldKey) {
      var t' := MigratedTable(t, OldKey, NewKey, NewDescription);
      StyleAllSpec(MakeHeaders(t', Namespace), StyledKeys);
    }
  }

  /**
   * After the migration the table has swapped "bases sequenced (MB)" for
   * "bases sequenced" with the fixed description, and nothing else changed.
   */
  lemma BasesSequencedDescribed(t: Table, samples: Samples)
    requires Accepted(t, samples)
    ensures Reshape(t, samples).Ok?
    ensures var o := Reshape(t, samples).value;
      && OldKey !in o.qcml && o.qcml[NewKey] == Desc(NewDescription, None)
      && forall k :: k != OldKey && k != NewKey ==> (k in o.qcml <==> k in t) && (k in t ==> o.qcml[k] == t[k])
  {
    ReshapeSucceeds(t, samples);
    ReshapeParts(t, samples);
    MigrateSpec(t, samples, OldKey, NewKey, NewDescription);
  }

  /**
   * After the migration every sample holds "bases sequenced" worth 10^6 times its
   * former "bases sequenced (MB)", which is gone, and no other key changes.
   */
  lemma BasesSequencedMigrated(t: Table, samples: Samples)
    requires Accepted(t, samples)
    ensures Reshape(t, samples).Ok?
    ensures var o := Reshape(t, samples).value;
      && o.qcdata.Keys == samples.Keys
      && forall s :: s in o.qcdata ==> Rescaled(samples[s], o.qcdata[s], OldKey, NewKey)
  {
    ReshapeSucceeds(t, samples);
    ReshapeParts(t, samples);
    MigrateSpec(t, samples, OldKey, NewKey, NewDescription);
  }

  /**
   * One header per table key after the migration, titled by its key, in the
   * ReadQC namespace, with the table's description; exactly the listed ones are
   * updated.
   */
  lemma HeadersFromTable(t: Table, samples: Samples)
    requires Accepted(t, samples)
    ensures Reshape(t, samples).Ok?
    ensures var o := Reshape(t, samples).value;
      && o.headers.Keys == o.qcml.Keys
      && forall k :: k in o.headers ==>
           o.headers[k] == Header(Namespace, k, o.qcml[k].description, k in StyledKeys)
  {
    ReshapeSucceeds(t, samples);
    ReshapeParts(t, samples);
    MigrateSpec(t, samples, OldKey, NewKey, NewDescription);
    StyleAllSpec(MakeHeaders(MigratedTable(t, OldKey, NewKey, NewDescription), Namespace), StyledKeys);
  }

  /** The general-statistics columns: read count, bases sequenced and gc content %, in that order, when present. */
  lemma GeneralStatsColumns(t: Table, samples: Samples)
    requires Accepted(t, samples)
    ensures Reshape(t, samples).Ok?
    ensures var o := Reshape(t, samples).value;
      IsOrderedSubset(o.report.generalStats, o.headers, GeneralStatsKeys)
  {
    ReshapeSucceeds(t, samples);
    ReshapeParts(t, samples);
    var o := Reshape(t, samples).value;
    OrderedSubsetSpec(o.headers, GeneralStatsKeys);
  }
}
