/*
 * The qcML handling shared by the ngs-bits plugins (the QcmlMultiqcModule base
 * class): extracting quality parameters from a qcML document, the description
 * table they feed, the key migrations and header bookkeeping the plugins run on
 * the result, and the ordered projection used to pick table columns.
 */
module Qcml {

  datatype Option<+T> = None | Some(value: T)

  /** The exceptions the modules raise or let escape. */
  datatype Error =
    | KeyError(key: string)   // a dictionary lookup of a missing key
    | TypeError               // arithmetic or a regular expression applied to a value of the wrong kind
    | NoSamples               // UserWarning: no sample left to report

  datatype Result<+T> = Ok(value: T) | Err(error: Error) {
    predicate IsFailure() { Err? }
    function PropagateFailure<U>(): Result<U>
      requires Err?
    {
      Err(error)
    }
    function Extract(): T
      requires Ok?
    {
      value
    }
  }

  /** A parameter value: a number when float() accepts the text, the text itself otherwise. */
  datatype Value = Num(x: real) | Text(s: string)

  /** One sample's metrics, keyed by normalised parameter name. */
  type Sample = map<string, Value>
  type Samples = map<string, Sample>

  /** An entry of the description table; entries added by a migration have no accession. */
  datatype Desc = Desc(description: string, accession: Option<string>)
  type Table = map<string, Desc>

  /** The four attributes of a qualityParameter element, in document order. */
  datatype QP = QP(name: string, value: string, description: string, accession: string)

  /** A qcML file handed over by the host: the cleaned sample name and its decoded parameters. */
  datatype LogFile = LogFile(sName: string, params: seq<QP>)

  /** Python's float() on a string: Some(x) when it parses, None when it raises ValueError. */
  type FloatParser = string -> Option<real>

  /** A table header; the display metadata is reduced to whether an update was applied. */
  datatype Header = Header(namespace: string, title: string, description: string, styled: bool)
  type Headers = map<string, Header>

  /** An OrderedDict: keys in insertion order, each at most once. */
  type Ordered<V> = seq<(string, V)>

  datatype Section = Section(name: string, anchor: string, description: string, columns: Headers)
  datatype Report = Report(generalStats: Ordered<Header>, sections: seq<Section>)

  /** What a plugin leaves behind when its constructor completes. */
  datatype Outcome = Outcome(qcml: Table, qcdata: Samples, headers: Headers, report: Report)

  // ---------------------------------------------------------------------------
  // Strings
  // ---------------------------------------------------------------------------

  predicate StartsWith(s: string, prefix: string) {
    |prefix| <= |s| && s[..|prefix|] == prefix
  }

  predicate EndsWith(s: string, suffix: string) {
    |suffix| <= |s| && s[|s| - |suffix|..] == suffix
  }

  /** The sentinel for a parameter that has no value. */
  predicate IsNa(value: string) {
    StartsWith(value, "n/a")
  }

  /**
   * re.sub(r' percentage$', ' %', name). Python's `$` matches at the end and also
   * just before a final newline, so both spellings of the suffix are rewritten.
   */
  function NormalizeName(name: string): string {
    if EndsWith(name, " percentage") then name[..|name| - 11] + " %"
    else if EndsWith(name, " percentage\n") then name[..|name| - 12] + " %\n"
    else name
  }

  lemma NormalizeReplacesSuffix(stem: string)
    ensures NormalizeName(stem + " percentage") == stem + " %"
    ensures NormalizeName(stem + " percentage\n") == stem + " %\n"
  {
    var a, b := stem + " percentage", stem + " percentage\n";
    assert a[..|a| - 11] == stem;
    assert b[..|b| - 12] == stem;
    assert b[|b| - 11..] != " percentage" by {
      assert b[|b| - 1] == '\n';
    }
  }

  lemma NormalizeKeepsOtherNames(name: string)
    requires !EndsWith(name, " percentage") && !EndsWith(name, " percentage\n")
    ensures NormalizeName(name) == name
  {
  }

  /** The try/float/except of parse_qcml. */
  function ConvertValue(value: string, parse: FloatParser): Value {
    match parse(value)
    case Some(x) => Num(x)
    case None => Text(value)
  }

  /** The key a parameter writes: None for an "n/a" value, its normalised name otherwise. */
  function ParamKey(qp: QP): Option<string> {
    if IsNa(qp.value) then None else Some(NormalizeName(qp.name))
  }

  function ParamKeys(qps: seq<QP>): seq<Option<string>> {
    seq(|qps|, i requires 0 <= i < |qps| => ParamKey(qps[i]))
  }

  function DescOf(qp: QP): Desc {
    Desc(qp.description, Some(qp.accession))
  }

  // ---------------------------------------------------------------------------
  // Positions in sequences
  // ---------------------------------------------------------------------------

  /** The last position holding k, if any. */
  function LastIndexOf<K(==)>(ks: seq<K>, k: K): (r: Option<nat>)
    ensures r.Some? ==> r.value < |ks| && ks[r.value] == k && forall j :: r.value < j < |ks| ==> ks[j] != k
    ensures r.None? <==> k !in ks
    decreases |ks|
  {
    if ks == [] then None
    else if ks[|ks| - 1] == k then Some(|ks| - 1)
    else
      assert ks == ks[..|ks| - 1] + [ks[|ks| - 1]];
      LastIndexOf(ks[..|ks| - 1], k)
  }

  /** The first position holding k, or |ks| when there is none. */
  function FirstPos<K(==)>(ks: seq<K>, k: K): (i: nat)
    ensures i <= |ks| && (i < |ks| <==> k in ks)
    ensures i < |ks| ==> ks[i] == k
    ensures k !in ks[..i]
    decreases |ks|
  {
    if ks == [] then 0
    else if ks[0] == k then 0
    else
      var j := FirstPos(ks[1..], k);
      assert ks[..j + 1] == [ks[0]] + ks[1..][..j];
      1 + j
  }

  lemma {:induction false} FirstPosExtend<K>(ks: seq<K>, k: K, x: K)
    requires x in ks
    ensures FirstPos(ks + [k], x) == FirstPos(ks, x)
    decreases |ks|
  {
    if ks[0] != x {
      assert (ks + [k])[1..] == ks[1..] + [k];
      FirstPosExtend(ks[1..], k, x);
    }
  }

  lemma {:induction false} FirstPosOfNewLast<K>(ks: seq<K>, k: K)
    requires k !in ks
    ensures FirstPos(ks + [k], k) == |ks|
    decreases |ks|
  {
    if ks != [] {
      assert (ks + [k])[1..] == ks[1..] + [k];
      FirstPosOfNewLast(ks[1..], k);
    }
  }

  // ---------------------------------------------------------------------------
  // parse_qcml, as values
  // ---------------------------------------------------------------------------

  /** The map parse_qcml returns for the parameters of one document. */
  function ParsedParams(qps: seq<QP>, parse: FloatParser): Sample
    decreases |qps|
  {
    if qps == [] then map[]
    else
      var params := ParsedParams(qps[..|qps| - 1], parse);
      var qp := qps[|qps| - 1];
      if IsNa(qp.value) then params
      else params[NormalizeName(qp.name) := ConvertValue(qp.value, parse)]
  }

  /** The description table after parse_qcml has read the parameters of one or more documents. */
  function UpdatedTable(t: Table, qps: seq<QP>): Table
    decreases |qps|
  {
    if qps == [] then t
    else
      var table := UpdatedTable(t, qps[..|qps| - 1]);
      var qp := qps[|qps| - 1];
      if IsNa(qp.value) then table
      else table[NormalizeName(qp.name) := DescOf(qp)]
  }

  lemma ParamKeysPrefix(qps: seq<QP>)
    requires qps != []
    ensures ParamKeys(qps) == ParamKeys(qps[..|qps| - 1]) + [ParamKey(qps[|qps| - 1])]
  {
  }

  /**
   * The returned keys are exactly the names written by non-"n/a" parameters, and each
   * holds the converted value of the last parameter that wrote it.
   */
  lemma {:induction false} ParsedParamsLastWriter(qps: seq<QP>, parse: FloatParser, k: string)
    ensures k in ParsedParams(qps, parse) <==> Some(k) in ParamKeys(qps)
    ensures k in ParsedParams(qps, parse) ==>
      ParsedParams(qps, parse)[k] == ConvertValue(qps[LastIndexOf(ParamKeys(qps), Some(k)).value].value, parse)
    decreases |qps|
  {
    if qps != [] {
      var init := qps[..|qps| - 1];
      ParsedParamsLastWriter(init, parse, k);
      ParamKeysPrefix(qps);
      var ks := ParamKeys(qps);
      if ks[|qps| - 1] != Some(k) {
        assert ks[..|qps| - 1] == ParamKeys(init);
        assert Some(k) in ks <==> Some(k) in ParamKeys(init);
      }
    }
  }

  /** Table entries: a written name holds the description and accession of its last writer; other names are untouched. */
  lemma {:induction false} TableLastWriter(t: Table, qps: seq<QP>, k: string)
    ensures k in UpdatedTable(t, qps) <==> k in t || Some(k) in ParamKeys(qps)
    ensures k in UpdatedTable(t, qps) ==>
      UpdatedTable(t, qps)[k] == match LastIndexOf(ParamKeys(qps), Some(k))
                                 case Some(i) => DescOf(qps[i])
                                 case None => t[k]
    decreases |qps|
  {
    if qps != [] {
      var init := qps[..|qps| - 1];
      TableLastWriter(t, init, k);
      ParamKeysPrefix(qps);
      var ks := ParamKeys(qps);
      if ks[|qps| - 1] != Some(k) {
        assert ks[..|qps| - 1] == ParamKeys(init);
        assert Some(k) in ks <==> Some(k) in ParamKeys(init);
      }
    }
  }

  /**
   * Joint view of one parse_qcml call: every returned key is described in the table,
   * and value and description come from the same, last, parameter with that name.
   */
  lemma ParseQcmlLastWriterWins(t: Table, qps: seq<QP>, parse: FloatParser, k: string)
    requires k in ParsedParams(qps, parse)
    ensures LastIndexOf(ParamKeys(qps), Some(k)).Some?
    ensures var i := LastIndexOf(ParamKeys(qps), Some(k)).value;
      && !IsNa(qps[i].value) && NormalizeName(qps[i].name) == k
      && ParsedParams(qps, parse)[k] == ConvertValue(qps[i].value, parse)
      && k in UpdatedTable(t, qps) && UpdatedTable(t, qps)[k] == DescOf(qps[i])
  {
    ParsedParamsLastWriter(qps, parse, k);
    TableLastWriter(t, qps, k);
  }

  /** A parameter whose value starts with "n/a" changes neither the returned map nor the table. */
  lemma NaParameterIsSkipped(t: Table, qps: seq<QP>, qp: QP, parse: FloatParser)
    requires IsNa(qp.value)
    ensures ParsedParams(qps + [qp], parse) == ParsedParams(qps, parse)
    ensures UpdatedTable(t, qps + [qp]) == UpdatedTable(t, qps)
  {
    assert (qps + [qp])[..|qps|] == qps;
  }

  /** The same holds wherever the "n/a" parameter stands in the document. */
  lemma {:induction false} NaParameterIsSkippedAnywhere(t: Table, a: seq<QP>, qp: QP, b: seq<QP>, parse: FloatParser)
    requires IsNa(qp.value)
    ensures ParsedParams(a + [qp] + b, parse) == ParsedParams(a + b, parse)
    ensures UpdatedTable(t, a + [qp] + b) == UpdatedTable(t, a + b)
    decreases |b|
  {
    if b == [] {
      assert a + [qp] + b == a + [qp] && a + b == a;
      NaParameterIsSkipped(t, a, qp, parse);
    } else {
      var init := b[..|b| - 1];
      NaParameterIsSkippedAnywhere(t, a, qp, init, parse);
      var x, y := a + [qp] + b, a + b;
      assert x[..|x| - 1] == a + [qp] + init && x[|x| - 1] == b[|b| - 1];
      assert y[..|y| - 1] == a + init && y[|y| - 1] == b[|b| - 1];
    }
  }

  /** A value kept as text is one that float() rejected. */
  ghost predicate TextIsUnparsed(kv: Sample, parse: FloatParser) {
    forall k :: k in kv && kv[k].Text? ==> parse(kv[k].s) == None
  }

  ghost predicate AllTextUnparsed(samples: Samples, parse: FloatParser) {
    forall s :: s in samples ==> TextIsUnparsed(samples[s], parse)
  }

  lemma {:induction false} ParsedTextIsUnparsed(qps: seq<QP>, parse: FloatParser)
    ensures TextIsUnparsed(ParsedParams(qps, parse), parse)
    decreases |qps|
  {
    if qps != [] {
      ParsedTextIsUnparsed(qps[..|qps| - 1], parse);
    }
  }

  lemma {:induction false} UpdatedTableAppend(t: Table, a: seq<QP>, b: seq<QP>)
    ensures UpdatedTable(t, a + b) == UpdatedTable(UpdatedTable(t, a), b)
    decreases |b|
  {
    if b == [] {
      assert a + b == a;
    } else {
      assert (a + b)[..|a + b| - 1] == a + b[..|b| - 1];
      UpdatedTableAppend(t, a, b[..|b| - 1]);
    }
  }

  // ---------------------------------------------------------------------------
  // Reading all files of a module
  // ---------------------------------------------------------------------------

  /** The sample-name rewriting of ReadQC and MappingQC: none. */
  function KeepName(name: string): string {
    name
  }

  function SampleNames(files: seq<LogFile>, rename: string -> string): seq<string> {
    seq(|files|, i requires 0 <= i < |files| => rename(files[i].sName))
  }

  /** All parameters of all files, in file order. */
  function AllParams(files: seq<LogFile>): seq<QP>
    decreases |files|
  {
    if files == [] then [] else AllParams(files[..|files| - 1]) + files[|files| - 1].params
  }

  /** qcdata after the file loop: each file's map stored under its (renamed) sample name. */
  function LoadSamples(data: Samples, files: seq<LogFile>, parse: FloatParser, rename: string -> string): Samples
    decreases |files|
  {
    if files == [] then data
    else
      var f := files[|files| - 1];
      LoadSamples(data, files[..|files| - 1], parse, rename)[rename(f.sName) := ParsedParams(f.params, parse)]
  }

  /** When two files yield the same sample name, the later file's map is the one kept. */
  lemma {:induction false} LaterFileWins(data: Samples, files: seq<LogFile>, parse: FloatParser,
                                         rename: string -> string, s: string)
    ensures s in LoadSamples(data, files, parse, rename) <==> s in data || s in SampleNames(files, rename)
    ensures s in LoadSamples(data, files, parse, rename) ==>
      LoadSamples(data, files, parse, rename)[s] == match LastIndexOf(SampleNames(files, rename), s)
                                                  case Some(i) => ParsedParams(files[i].params, parse)
                                                  case None => data[s]
    decreases |files|
  {
    if files != [] {
      var init := files[..|files| - 1];
      LaterFileWins(data, init, parse, rename, s);
      var names := SampleNames(files, rename);
      assert names[..|files| - 1] == SampleNames(init, rename);
      if names[|files| - 1] != s {
        assert s in names <==> s in SampleNames(init, rename);
      }
    }
  }

  /** Every sample read from qcML keeps as text only what float() rejected. */
  lemma {:induction false} LoadedTextIsUnparsed(data: Samples, files: seq<LogFile>, parse: FloatParser,
                                                rename: string -> string)
    requires AllTextUnparsed(data, parse)
    ensures AllTextUnparsed(LoadSamples(data, files, parse, rename), parse)
    decreases |files|
  {
    if files != [] {
      var f := files[|files| - 1];
      LoadedTextIsUnparsed(data, files[..|files| - 1], parse, rename);
      ParsedTextIsUnparsed(f.params, parse);
      var before := LoadSamples(data, files[..|files| - 1], parse, rename);
      var loaded := LoadSamples(data, files, parse, rename);
      assert loaded == before[rename(f.sName) := ParsedParams(f.params, parse)];
      forall s | s in loaded
        ensures TextIsUnparsed(loaded[s], parse)
      {
        if s != rename(f.sName) {
          assert loaded[s] == before[s];
        } else {
          assert loaded[s] == ParsedParams(f.params, parse);
        }
      }
    }
  }

  /** ignore_samples, with the host's decision taken as a parameter. */
  function Kept(samples: Samples, ignored: string -> bool): (r: Samples)
    ensures forall s :: s in r <==> s in samples && !ignored(s)
    ensures forall s :: s in r ==> r[s] == samples[s]
  {
    map s | s in samples && !ignored(s) :: samples[s]
  }

  // ---------------------------------------------------------------------------
  // The "X (MB)" -> "X" migration of ReadQC and MappingQC
  // ---------------------------------------------------------------------------

  const Mega: real := 1000000.0

  /**
   * kv' is kv with the megabase value under oldKey replaced by the same amount in
   * bases under newKey, and every other key untouched.
   */
  ghost predicate Rescaled(kv: Sample, kv': Sample, oldKey: string, newKey: string) {
    && oldKey in kv && kv[oldKey].Num?
    && oldKey !in kv' && newKey in kv' && kv'[newKey] == Num(kv[oldKey].x * Mega)
    && forall k :: k != oldKey && k != newKey ==> (k in kv' <==> k in kv) && (k in kv ==> kv'[k] == kv[k])
  }

  /** kv[newKey] = kv[oldKey] * 1e6; kv.pop(oldKey) */
  function MigrateSample(kv: Sample, oldKey: string, newKey: string): (r: Sample)
    requires oldKey in kv && kv[oldKey].Num?
    requires oldKey != newKey
    ensures Rescaled(kv, r, oldKey, newKey)
  {
    kv[newKey := Num(kv[oldKey].x * Mega)] - {oldKey}
  }

  /** Every sample holds the old key as a number, so that the multiplication succeeds. */
  ghost predicate Migratable(samples: Samples, oldKey: string) {
    forall s :: s in samples ==> oldKey in samples[s] && samples[s][oldKey].Num?
  }

  /** qcml.pop(oldKey); qcml[newKey] = {'description': description} */
  function MigratedTable(t: Table, oldKey: string, newKey: string, description: string): (t': Table)
    requires oldKey != newKey
    ensures oldKey !in t' && newKey in t' && t'[newKey] == Desc(description, None)
    ensures forall k :: k != oldKey && k != newKey ==> (k in t' <==> k in t) && (k in t' ==> t'[k] == t[k])
  {
    (t - {oldKey})[newKey := Desc(description, None)]
  }

  /** The sample loop of the migration. */
  function MigratedSamples(samples: Samples, oldKey: string, newKey: string): (samples': Samples)
    requires Migratable(samples, oldKey) && oldKey != newKey
    ensures samples'.Keys == samples.Keys
    ensures forall s :: s in samples' ==> samples'[s] == MigrateSample(samples[s], oldKey, newKey)
  {
    map s | s in samples :: MigrateSample(samples[s], oldKey, newKey)
  }

  /** The migration as a whole, on the description table and on every sample. */
  function Migrate(t: Table, samples: Samples, oldKey: string, newKey: string, description: string)
    : Result<(Table, Samples)>
    requires oldKey != newKey
  {
    if oldKey !in t then Err(KeyError(oldKey))
    else if exists s :: s in samples && oldKey !in samples[s] then Err(KeyError(oldKey))
    else if exists s :: s in samples && samples[s][oldKey].Text? then Err(TypeError)
    else Ok((MigratedTable(t, oldKey, newKey, description), MigratedSamples(samples, oldKey, newKey)))
  }

  /**
   * The migration fails exactly when the table or a sample lacks the old key
   * (KeyError) or a sample holds it as text (TypeError); otherwise it migrates the
   * table and every sample.
   */
  lemma MigrateSpec(t: Table, samples: Samples, oldKey: string, newKey: string, description: string)
    requires oldKey != newKey
    ensures Migrate(t, samples, oldKey, newKey, description).Ok? <==> oldKey in t && Migratable(samples, oldKey)
    ensures Migrate(t, samples, oldKey, newKey, description).Ok? ==>
      Migrate(t, samples, oldKey, newKey, description).value
        == (MigratedTable(t, oldKey, newKey, description), MigratedSamples(samples, oldKey, newKey))
  {
  }

  // ---------------------------------------------------------------------------
  // Renaming a key (somaticqc: d[new] = d.pop(old))
  // ---------------------------------------------------------------------------

  function RenameKey<V>(m: map<string, V>, from: string, to: string): (r: Result<map<string, V>>)
    ensures r.Err? <==> from !in m
    ensures r.Ok? ==> to in r.value && r.value[to] == m[from] && (from != to ==> from !in r.value)
    ensures r.Ok? ==> forall k :: k != from && k != to ==> (k in r.value <==> k in m) && (k in m ==> r.value[k] == m[k])
  {
    if from !in m then Err(KeyError(from)) else Ok((m - {from})[to := m[from]])
  }

  // ---------------------------------------------------------------------------
  // Table headers
  // ---------------------------------------------------------------------------

  /** The header dictionary built from the description table. */
  function MakeHeaders(t: Table, namespace: string): (h: Headers)
    ensures h.Keys == t.Keys
    ensures forall k :: k in h ==> h[k] == Header(namespace, k, t[k].description, false)
  {
    map k | k in t :: Header(namespace, k, t[k].description, false)
  }

  /** headers[k].update({...}) */
  function Style(h: Headers, k: string): Headers
    requires k in h
  {
    h[k := h[k].(styled := true)]
  }

  /**
   * Updates keys in order until the first one that is missing (inside a try block
   * the KeyError ends the block); returns the headers and how many were updated.
   */
  function StyleUntil(h: Headers, keys: seq<string>): (Headers, nat)
    decreases |keys|
  {
    if keys == [] || keys[0] !in h then (h, 0)
    else
      var (h', n) := StyleUntil(Style(h, keys[0]), keys[1..]);
      (h', n + 1)
  }

  /**
   * The keys before the first missing one are updated, the updates persist, and
   * nothing else changes: no key is added or removed, no other header is touched.
   */
  lemma {:induction false} StyleUntilSpec(h: Headers, keys: seq<string>)
    ensures var (h', n) := StyleUntil(h, keys);
      && n <= |keys|
      && (forall i :: 0 <= i < n ==> keys[i] in h)
      && (n < |keys| ==> keys[n] !in h)
      && h'.Keys == h.Keys
      && forall k :: k in h ==> h'[k] == if k in keys[..n] then h[k].(styled := true) else h[k]
    decreases |keys|
  {
    if keys != [] && keys[0] in h {
      var h1 := Style(h, keys[0]);
      StyleUntilSpec(h1, keys[1..]);
      var (h', n) := StyleUntil(h1, keys[1..]);
      assert keys[..n + 1] == [keys[0]] + keys[1..][..n];
      forall i | 0 <= i < n + 1
        ensures keys[i] in h
      {
        if i > 0 {
          assert keys[1..][i - 1] == keys[i];
        }
      }
    }
  }

  /** Updates outside a try block: the first missing key raises KeyError. */
  function StyleAll(h: Headers, keys: seq<string>): (r: Result<Headers>)
  {
    var (h', n) := StyleUntil(h, keys);
    if n < |keys| then Err(KeyError(keys[n])) else Ok(h')
  }

  lemma StyleAllSpec(h: Headers, keys: seq<string>)
    ensures StyleAll(h, keys).Ok? <==> forall k :: k in keys ==> k in h
    ensures StyleAll(h, keys).Ok? ==> var h' := StyleAll(h, keys).value;
      h'.Keys == h.Keys && forall k :: k in h ==> h'[k] == if k in keys then h[k].(styled := true) else h[k]
  {
    StyleUntilSpec(h, keys);
    var (h', n) := StyleUntil(h, keys);
    if n == |keys| {
      assert keys[..n] == keys;
      forall k | k in keys
        ensures k in h
      {
        var i :| 0 <= i < |keys| && keys[i] == k;
      }
    }
  }

  /** The header loop of a try block, as the source runs it. */
  method StyleUntilMissing(h: Headers, keys: seq<string>) returns (h': Headers, n: nat)
    ensures (h', n) == StyleUntil(h, keys)
  {
    h', n := h, 0;
    while n < |keys| && keys[n] in h'
      invariant n <= |keys|
      invariant StyleUntil(h, keys) == (var (hf, nf) := StyleUntil(h', keys[n..]); (hf, nf + n))
    {
      assert keys[n..][1..] == keys[n + 1..];
      h' := Style(h', keys[n]);
      n := n + 1;
    }
  }

  /** [{s: headers[s]} for s in keys]: every key must be present. */
  function Pick(h: Headers, keys: seq<string>): (r: Result<Headers>)
    ensures r.Ok? <==> forall k :: k in keys ==> k in h
    ensures r.Ok? ==> r.value.Keys == (set k | k in keys) && forall k :: k in r.value ==> r.value[k] == h[k]
    decreases |keys|
  {
    if keys == [] then Ok(map[])
    else if keys[0] !in h then Err(KeyError(keys[0]))
    else
      var rest :- Pick(h, keys[1..]);
      Ok(rest[keys[0] := h[keys[0]]])
  }

  // ---------------------------------------------------------------------------
  // dict_ordered_subset
  // ---------------------------------------------------------------------------

  function KeysOf<V>(od: Ordered<V>): seq<string> {
    seq(|od|, i requires 0 <= i < |od| => od[i].0)
  }

  /** od[k] = v on an OrderedDict: in place when k is present, appended otherwise. */
  function Put<V>(od: Ordered<V>, k: string, v: V): Ordered<V> {
    var i := FirstPos(KeysOf(od), k);
    if i < |od| then od[i := (k, v)] else od + [(k, v)]
  }

  /** The OrderedDict dict_ordered_subset(d, ks) returns. */
  function OrderedSubset<V>(d: map<string, V>, ks: seq<string>): Ordered<V>
    decreases |ks|
  {
    if ks == [] then []
    else
      var od := OrderedSubset(d, ks[..|ks| - 1]);
      var k := ks[|ks| - 1];
      if k in d then Put(od, k, d[k]) else od
  }

  ghost predicate IsOrderedSubset<V>(od: Ordered<V>, d: map<string, V>, ks: seq<string>) {
    && (forall i, j :: 0 <= i < j < |od| ==> od[i].0 != od[j].0)
    && (forall i :: 0 <= i < |od| ==> od[i].0 in d && od[i].1 == d[od[i].0])
    && (forall k :: k in KeysOf(od) <==> k in ks && k in d)
    && (forall i, j :: 0 <= i < j < |od| ==> FirstPos(ks, od[i].0) < FirstPos(ks, od[j].0))
  }

  /**
   * dict_ordered_subset(d, ks) holds exactly the keys of ks that d has, once each,
   * mapped as in d, in the order of their first occurrence in ks.
   */
  lemma {:induction false} OrderedSubsetSpec<V>(d: map<string, V>, ks: seq<string>)
    ensures IsOrderedSubset(OrderedSubset(d, ks), d, ks)
    decreases |ks|
  {
    if ks != [] {
      var init := ks[..|ks| - 1];
      var k := ks[|ks| - 1];
      assert ks == init + [k];
      OrderedSubsetSpec(d, init);
      OrderedSubsetStep(OrderedSubset(d, init), d, init, k);
    }
  }

  /** One more key of ks: the next OrderedDict assignment keeps the projection. */
  lemma OrderedSubsetStep<V>(od: Ordered<V>, d: map<string, V>, init: seq<string>, k: string)
    requires IsOrderedSubset(od, d, init)
    ensures IsOrderedSubset(if k in d then Put(od, k, d[k]) else od, d, init + [k])
  {
    PositionsKept(od, d, init, k);
    if k !in d || k in init {
      KeyAlreadyPlaced(od, d, init, k);
    } else {
      PutNewKey(od, d, init, k);
    }
  }

  lemma PositionsKept<V>(od: Ordered<V>, d: map<string, V>, init: seq<string>, k: string)
    requires IsOrderedSubset(od, d, init)
    ensures forall x :: x in KeysOf(od) ==> FirstPos(init + [k], x) == FirstPos(init, x)
  {
    forall x | x in KeysOf(od)
      ensures FirstPos(init + [k], x) == FirstPos(init, x)
    {
      FirstPosExtend(init, k, x);
    }
  }

  /** A key d lacks, or one already placed, leaves the OrderedDict as it is. */
  lemma KeyAlreadyPlaced<V>(od: Ordered<V>, d: map<string, V>, init: seq<string>, k: string)
    requires IsOrderedSubset(od, d, init)
    requires k !in d || k in init
    requires forall x :: x in KeysOf(od) ==> FirstPos(init + [k], x) == FirstPos(init, x)
    ensures k in d ==> Put(od, k, d[k]) == od
    ensures IsOrderedSubset(od, d, init + [k])
  {
    if k in d {
      assert k in KeysOf(od);
      var i := FirstPos(KeysOf(od), k);
      assert KeysOf(od)[i] == k;
      assert od[i] == (k, d[k]);
    }
    assert forall x :: x in init + [k] <==> x in init || x == k;
    forall i, j | 0 <= i < j < |od|
      ensures FirstPos(init + [k], od[i].0) < FirstPos(init + [k], od[j].0)
    {
      assert od[i].0 == KeysOf(od)[i] && od[j].0 == KeysOf(od)[j];
    }
  }

  lemma PutNewKey<V>(od: Ordered<V>, d: map<string, V>, init: seq<string>, k: string)
    requires IsOrderedSubset(od, d, init)
    requires k in d && k !in init
    requires forall x :: x in KeysOf(od) ==> FirstPos(init + [k], x) == FirstPos(init, x)
    ensures IsOrderedSubset(od + [(k, d[k])], d, init + [k])
  {
    var ks := init + [k];
    var od' := od + [(k, d[k])];
    assert KeysOf(od') == KeysOf(od) + [k];
    FirstPosOfNewLast(init, k);
    forall i | 0 <= i < |od|
      ensures od[i].0 in init && FirstPos(ks, od[i].0) == FirstPos(init, od[i].0) < |init|
    {
      assert od[i].0 == KeysOf(od)[i];
    }
    forall i, j | 0 <= i < j < |od'|
      ensures od'[i].0 != od'[j].0 && FirstPos(ks, od'[i].0) < FirstPos(ks, od'[j].0)
    {
      if j < |od| {
        assert od'[i] == od[i] && od'[j] == od[j];
      }
    }
    assert forall x :: x in KeysOf(od') <==> x in KeysOf(od) || x == k;
  }

  /** dict_ordered_subset: the loop over ks inserting into an OrderedDict. */
  method DictOrderedSubset<V>(d: map<string, V>, ks: seq<string>) returns (od: Ordered<V>)
    ensures od == OrderedSubset(d, ks)
  {
    od := [];
    for i := 0 to |ks|
      invariant od == OrderedSubset(d, ks[..i])
    {
      assert ks[..i + 1][..i] == ks[..i];
      var k := ks[i];
      if k in d {
        od := Put(od, k, d[k]);
      }
    }
    assert ks[..|ks|] == ks;
  }

  /** The OrderedDict as the plain dict the renderer receives. */
  function AsMap<V>(od: Ordered<V>): (m: map<string, V>)
    decreases |od|
  {
    if od == [] then map[] else AsMap(od[..|od| - 1])[od[|od| - 1].0 := od[|od| - 1].1]
  }

  /** An OrderedDict with distinct keys, as a dict: the same keys, each with its value. */
  lemma {:induction false} AsMapOf<V>(od: Ordered<V>)
    requires forall i, j :: 0 <= i < j < |od| ==> od[i].0 != od[j].0
    ensures forall k :: k in AsMap(od) <==> k in KeysOf(od)
    ensures forall i :: 0 <= i < |od| ==> od[i].0 in AsMap(od) && AsMap(od)[od[i].0] == od[i].1
    decreases |od|
  {
    if od != [] {
      var init := od[..|od| - 1];
      AsMapOf(init);
      assert KeysOf(od) == KeysOf(init) + [od[|od| - 1].0];
    }
  }

  /** The columns a section receives: exactly the listed keys the dict has, each with its value. */
  lemma AsMapOfSubset<V>(d: map<string, V>, ks: seq<string>)
    ensures AsMap(OrderedSubset(d, ks)) == map k | k in ks && k in d :: d[k]
  {
    OrderedSubsetSpec(d, ks);
    var od := OrderedSubset(d, ks);
    AsMapOf(od);
    forall k | k in AsMap(od)
      ensures AsMap(od)[k] == d[k]
    {
      var i :| 0 <= i < |od| && KeysOf(od)[i] == k;
    }
  }

  // ---------------------------------------------------------------------------
  // make_description
  // ---------------------------------------------------------------------------

  /** self.qcml[k]['description'], which is formatted alongside self.qcml[k]['accession']. */
  function DescriptionText(t: Table, k: string): Result<string> {
    if k !in t then Err(KeyError(k))
    else if t[k].accession.None? then Err(KeyError("accession"))
    else Ok(t[k].description)
  }

  function ListItems(t: Table, keys: seq<string>): Result<string>
    decreases |keys|
  {
    if keys == [] then Ok("")
    else
      var d :- DescriptionText(t, keys[0]);
      var rest :- ListItems(t, keys[1..]);
      Ok("<li>" + d + "</li>" + rest)
  }

  function MakeDescription(t: Table, keys: seq<string>): Result<string> {
    if |keys| == 1 then DescriptionText(t, keys[0])
    else
      var items :- ListItems(t, keys);
      Ok("<ul>" + items + "</ul>")
  }

  ghost predicate Described(t: Table, keys: seq<string>) {
    forall k :: k in keys ==> k in t && t[k].accession.Some?
  }

  lemma {:induction false} ListItemsOk(t: Table, keys: seq<string>)
    ensures ListItems(t, keys).Ok? <==> Described(t, keys)
    decreases |keys|
  {
    if keys != [] {
      ListItemsOk(t, keys[1..]);
      assert forall k :: k in keys <==> k == keys[0] || k in keys[1..];
    }
  }

  /**
   * make_description succeeds exactly when every key has a table entry carrying an
   * accession; a single key yields its description alone, other counts an HTML list.
   */
  lemma MakeDescriptionSpec(t: Table, keys: seq<string>)
    ensures MakeDescription(t, keys).Ok? <==> Described(t, keys)
    ensures |keys| == 1 && Described(t, keys) ==> MakeDescription(t, keys) == Ok(t[keys[0]].description)
    ensures |keys| != 1 && Described(t, keys) ==>
      MakeDescription(t, keys) == Ok("<ul>" + ListItems(t, keys).value + "</ul>")
  {
    ListItemsOk(t, keys);
    if |keys| == 1 {
      assert keys[0] in keys;
    }
  }

  /** One more key adds its list item after those of the earlier keys. */
  lemma {:induction false} ListItemsAppend(t: Table, keys: seq<string>, k: string)
    requires Described(t, keys + [k])
    ensures ListItems(t, keys + [k]).Ok? && ListItems(t, keys).Ok?
    ensures ListItems(t, keys + [k]).value == ListItems(t, keys).value + "<li>" + t[k].description + "</li>"
    decreases |keys|
  {
    if keys == [] {
      assert [k][1..] == [];
    } else {
      assert (keys + [k])[0] == keys[0] && (keys + [k])[1..] == keys[1..] + [k];
      ListItemsAppend(t, keys[1..], k);
      ListItemsOk(t, keys);
    }
  }

  /** The accession is looked up but never shows in the text: tables that differ only in accessions give the same result. */
  lemma {:induction false} AccessionNeverAppears(t: Table, t': Table, keys: seq<string>)
    requires t.Keys == t'.Keys
    requires forall k :: k in t ==> t[k].description == t'[k].description && t[k].accession.Some? == t'[k].accession.Some?
    ensures MakeDescription(t, keys) == MakeDescription(t', keys)
  {
    ListItemsSameText(t, t', keys);
  }

  lemma {:induction false} ListItemsSameText(t: Table, t': Table, keys: seq<string>)
    requires t.Keys == t'.Keys
    requires forall k :: k in t ==> t[k].description == t'[k].description && t[k].accession.Some? == t'[k].accession.Some?
    ensures ListItems(t, keys) == ListItems(t', keys)
    decreases |keys|
  {
    if keys != [] {
      ListItemsSameText(t, t', keys[1..]);
    }
  }

  // ---------------------------------------------------------------------------
  // The module object
  // ---------------------------------------------------------------------------

  /** A plugin object: its description table and its per-sample metrics. */
  class QcmlModule {
    var qcml: Table
    var qcdata: Samples

    constructor ()
      ensures qcml == map[] && qcdata == map[]
    {
      qcml := map[];
      qcdata := map[];
    }

    /** parse_qcml: returns the document's parameters and records their descriptions. */
    method ParseQcml(qps: seq<QP>, parse: FloatParser) returns (params: Sample)
      modifies this
      ensures params == ParsedParams(qps, parse)
      ensures qcml == UpdatedTable(old(qcml), qps)
      ensures qcdata == old(qcdata)
    {
      params := map[];
      var i := 0;
      while i < |qps|
        invariant i <= |qps|
        invariant params == ParsedParams(qps[..i], parse)
        invariant qcml == UpdatedTable(old(qcml), qps[..i])
        invariant qcdata == old(qcdata)
      {
        var qp := qps[i];
        assert qps[..i + 1][..i] == qps[..i];
        if !IsNa(qp.value) {
          var name := NormalizeName(qp.name);
          match parse(qp.value) {
            case Some(x) => params := params[name := Num(x)];
            case None => params := params[name := Text(qp.value)];
          }
          qcml := qcml[name := Desc(qp.description, Some(qp.accession))];
        }
        i := i + 1;
      }
      assert qps[..|qps|] == qps;
    }

    /** The file loop of a plugin constructor: qcdata[s_name] = parse_qcml(f). */
    method LoadFiles(files: seq<LogFile>, parse: FloatParser, rename: string -> string)
      modifies this
      ensures qcml == UpdatedTable(old(qcml), AllParams(files))
      ensures qcdata == LoadSamples(old(qcdata), files, parse, rename)
    {
      var i := 0;
      while i < |files|
        invariant i <= |files|
        invariant qcml == UpdatedTable(old(qcml), AllParams(files[..i]))
        invariant qcdata == LoadSamples(old(qcdata), files[..i], parse, rename)
      {
        var f := files[i];
        var sName := rename(f.sName);
        assert files[..i + 1][..i] == files[..i];
        UpdatedTableAppend(old(qcml), AllParams(files[..i]), f.params);
        var params := ParseQcml(f.params, parse);
        qcdata := qcdata[sName := params];
        i := i + 1;
      }
      assert files[..|files|] == files;
    }

    /** self.qcdata = self.ignore_samples(self.qcdata) */
    method IgnoreSamples(ignored: string -> bool)
      modifies this
      ensures qcdata == Kept(old(qcdata), ignored)
      ensures qcml == old(qcml)
    {
      qcdata := Kept(qcdata, ignored);
    }

    /**
     * The "X (MB)" -> "X" migration: drops the old table entry, adds the new one with
     * a fixed description, and rewrites every sample.
     */
    method MigrateMegabases(oldKey: string, newKey: string, description: string) returns (err: Option<Error>)
      requires oldKey != newKey
      modifies this
      ensures var r := Migrate(old(qcml), old(qcdata), oldKey, newKey, description);
        && (r.Ok? ==> err == None && qcml == r.value.0 && qcdata == r.value.1)
        && (r.Err? ==> err == Some(r.error))
    {
      ghost var spec := Migrate(qcml, qcdata, oldKey, newKey, description);
      if oldKey !in qcml {
        assert spec == Err(KeyError(oldKey));
        return Some(KeyError(oldKey));
      }
      qcml := qcml - {oldKey};
      qcml := qcml[newKey := Desc(description, None)];
      if exists s :: s in qcdata && oldKey !in qcdata[s] {
        assert spec == Err(KeyError(oldKey));
        return Some(KeyError(oldKey));
      }
      if exists s :: s in qcdata && qcdata[s][oldKey].Text? {
        assert spec == Err(TypeError);
        return Some(TypeError);
      }
      assert spec.Ok? && spec.value.0 == qcml;
      MigrateSamples(oldKey, newKey);
      err := None;
    }

    /** The sample loop of the migration: kv[newKey] = kv[oldKey] * 1e6; kv.pop(oldKey). */
    method MigrateSamples(oldKey: string, newKey: string)
      requires oldKey != newKey && Migratable(qcdata, oldKey)
      modifies this
      ensures qcml == old(qcml)
      ensures qcdata == MigratedSamples(old(qcdata), oldKey, newKey)
    {
      ghost var before := qcdata;
      var todo := qcdata.Keys;
      while todo != {}
        invariant todo <= before.Keys
        invariant qcml == old(qcml)
        invariant qcdata.Keys == before.Keys
        invariant forall s :: s in todo ==> qcdata[s] == before[s]
        invariant forall s :: s in before && s !in todo ==> qcdata[s] == MigrateSample(before[s], oldKey, newKey)
        decreases todo
      {
        var s :| s in todo;
        MigrateOne(s, oldKey, newKey);
        todo := todo - {s};
      }
    }

    /** One sample of the migration loop. */
    method MigrateOne(s: string, oldKey: string, newKey: string)
      requires s in qcdata && oldKey in qcdata[s] && qcdata[s][oldKey].Num? && oldKey != newKey
      modifies this
      ensures qcml == old(qcml)
      ensures qcdata == old(qcdata)[s := MigrateSample(old(qcdata)[s], oldKey, newKey)]
    {
      var kv := qcdata[s];
      kv := kv[newKey := Num(kv[oldKey].x * Mega)];
      kv := kv - {oldKey};
      qcdata := qcdata[s := kv];
    }
  }
}
