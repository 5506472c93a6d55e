/*
 * The SomaticQC plugin: QC metrics of tumor-normal pairs. It names a sample
 * after the tumor half of a "Tumor-Normal" file name, rewrites or drops the
 * somatic variant rate, and renames "variant count" to
 * "variant count somaticqc" in the headers and in every sample.
 */
module SomaticQC {
  import opened Qcml

  const Namespace := "SomaticQC"
  const RateKey := "somatic variant rate"
  const VariantCount := "variant count"
  const RenamedVariantCount := "variant count somaticqc"

  /** Headers updated outside any try block: each must exist. */
  const StyledKeys: seq<string> :=
    ["sample correlation", "variant count", "somatic variant count", "known somatic variants %",
     "somatic indel %", "somatic variant rate"]

  const OptionalTiTv := "somatic transition/transversion ratio"
  const OptionalTumorContent := "tumor content estimate"

  const GeneralStatsKeys: seq<string> := ["sample correlation", "somatic variant count", "known somatic variants %"]

  const OverviewKeys: seq<string> :=
    ["sample correlation", "variant count somaticqc", "somatic variant count", "known somatic variants %",
     "somatic indel %", "somatic transition/transversion ratio", "somatic variant rate", "tumor content estimate"]

  /** The character the replacement '\2' stands for: chr(2), not a group reference. */
  const Chr2: char := '\U{2}'

  // ---------------------------------------------------------------------------
  // Sample names: re.match(r'([^-]+)-[^-]+', s_name)
  // ---------------------------------------------------------------------------

  /** The length of the leading run of non-hyphen characters. */
  function LeadingNonHyphen(s: string): (n: nat)
    ensures n <= |s| && '-' !in s[..n] && (n < |s| ==> s[n] == '-')
    decreases |s|
  {
    if s == [] || s[0] == '-' then 0
    else
      var n := LeadingNonHyphen(s[1..]);
      assert s[..n + 1] == [s[0]] + s[1..][..n];
      n + 1
  }

  /** The tumor half of a Tumor-Normal name, or the name itself when the pattern does not match. */
  function SplitSampleName(s: string): string {
    var p := LeadingNonHyphen(s);
    if 1 <= p && p + 1 < |s| && s[p + 1] != '-' then s[..p] else s
  }

  /** A name of one or more non-hyphens, a hyphen and a non-hyphen becomes the text before its first hyphen. */
  lemma {:induction false} SplitTumorNormal(tumor: string, c: char, rest: string)
    requires tumor != [] && '-' !in tumor && c != '-'
    ensures SplitSampleName(tumor + ['-', c] + rest) == tumor
  {
    var s := tumor + ['-', c] + rest;
    LeadingNonHyphenOf(tumor, ['-', c] + rest);
    assert s == tumor + (['-', c] + rest);
    assert s[..|tumor|] == tumor;
  }

  lemma {:induction false} LeadingNonHyphenOf(a: string, b: string)
    requires '-' !in a && b != [] && b[0] == '-'
    ensures LeadingNonHyphen(a + b) == |a|
    decreases |a|
  {
    if a != [] {
      assert (a + b)[1..] == a[1..] + b;
      LeadingNonHyphenOf(a[1..], b);
    }
  }

  /**
   * Every other name is kept: one with no hyphen, one starting with a hyphen, or one
   * whose first hyphen is last or followed by another hyphen.
   */
  lemma SplitKeepsOtherNames(s: string)
    requires forall i :: 0 <= i < |s| && s[i] == '-' && '-' !in s[..i] ==> i == 0 || i + 1 == |s| || s[i + 1] == '-'
    ensures SplitSampleName(s) == s
  {
    var p := LeadingNonHyphen(s);
    if p < |s| {
      assert s[p] == '-' && '-' !in s[..p];
    }
  }

  // ---------------------------------------------------------------------------
  // The rate rewrite: re.sub(r'(low|moderate|high) \(([0-9.]+) var/Mb\)', '\2', v)
  // ---------------------------------------------------------------------------

  function RateWordLen(s: string): (n: nat)
    ensures n <= |s|
  {
    if StartsWith(s, "low") then 3
    else if StartsWith(s, "moderate") then 8
    else if StartsWith(s, "high") then 4
    else 0
  }

  /** The length of the leading run of [0-9.]. */
  function RateNumberLen(s: string): (n: nat)
    ensures n <= |s|
    decreases |s|
  {
    if s != [] && ('0' <= s[0] <= '9' || s[0] == '.') then 1 + RateNumberLen(s[1..]) else 0
  }

  /** The length of the pattern's match at the start of s, 0 when it does not match there. */
  function RateMatchLen(s: string): (n: nat)
    ensures n <= |s|
  {
    var w := RateWordLen(s);
    if w == 0 || !StartsWith(s[w..], " (") then 0
    else
      var d := RateNumberLen(s[w + 2..]);
      if d == 0 || !StartsWith(s[w + 2 + d..], " var/Mb)") then 0
      else w + 2 + d + 8
  }

  /** Every non-overlapping match, scanning left to right, is replaced by chr(2). */
  function RewriteRate(s: string): string
    decreases |s|
  {
    if s == [] then []
    else
      var n := RateMatchLen(s);
      if n > 0 then [Chr2] + RewriteRate(s[n..]) else [s[0]] + RewriteRate(s[1..])
  }

  /** The rewrite either changes nothing or leaves a chr(2) in the text. */
  lemma {:induction false} RewriteMarksOrKeeps(s: string)
    ensures RewriteRate(s) == s || Chr2 in RewriteRate(s)
    decreases |s|
  {
    if s != [] && RateMatchLen(s) == 0 {
      RewriteMarksOrKeeps(s[1..]);
      assert s == [s[0]] + s[1..];
      if Chr2 in RewriteRate(s[1..]) {
        assert RewriteRate(s) == [s[0]] + RewriteRate(s[1..]);
      }
    }
  }

  /** The rate text ngs-bits writes becomes chr(2) alone, which float() rejects. */
  lemma RateTextBecomesChr2()
    ensures RewriteRate("low (3.5 var/Mb)") == [Chr2]
  {
    var s := "low (3.5 var/Mb)";
    assert StartsWith(s, "low");
    assert s[3..] == " (3.5 var/Mb)";
    assert s[5..] == "3.5 var/Mb)";
    assert RateNumberLen(" var/Mb)") == 0;
    assert RateNumberLen("5 var/Mb)") == 1 by { assert "5 var/Mb)"[1..] == " var/Mb)"; }
    assert RateNumberLen(".5 var/Mb)") == 2 by { assert ".5 var/Mb)"[1..] == "5 var/Mb)"; }
    assert RateNumberLen(s[5..]) == 3 by {
      assert s[5..][1..] == ".5 var/Mb)";
      assert s[5..][1..][1..] == "5 var/Mb)";
      assert s[5..][1..][1..][1..] == " var/Mb)";
    }
    assert s[8..] == " var/Mb)";
    assert RateMatchLen(s) == 16;
    assert s[16..] == [];
  }

  /** float() on text holding chr(2) raises ValueError. */
  ghost predicate RejectsChr2(parse: FloatParser) {
    forall v :: Chr2 in v ==> parse(v) == None
  }

  /**
   * One sample of the rate loop: KeyError when the rate is missing, TypeError when
   * parse_qcml already made it a number; otherwise the rewritten text is stored as
   * a number when it parses and the key is dropped when it does not.
   */
  function RateStep(kv: Sample, parse: FloatParser): (r: Result<Sample>)
    ensures r.Err? <==> RateKey !in kv || kv[RateKey].Num?
    ensures r.Ok? ==> forall k :: k != RateKey ==> (k in r.value <==> k in kv) && (k in kv ==> r.value[k] == kv[k])
  {
    if RateKey !in kv then Err(KeyError(RateKey))
    else match kv[RateKey]
      case Num(_) => Err(TypeError)
      case Text(v) =>
        match parse(RewriteRate(v))
        case Some(x) => Ok(kv[RateKey := Num(x)])
        case None => Ok(kv - {RateKey})
  }

  /**
   * A rate held as text that float() rejected is always dropped: the rewrite either
   * keeps the text or plants a chr(2) in it.
   */
  lemma RateAlwaysDropped(kv: Sample, parse: FloatParser)
    requires RejectsChr2(parse) && TextIsUnparsed(kv, parse)
    requires RateKey in kv && kv[RateKey].Text?
    ensures RateStep(kv, parse) == Ok(kv - {RateKey})
  {
    RewriteMarksOrKeeps(kv[RateKey].s);
  }

  ghost predicate RatesParseable(samples: Samples) {
    forall s :: s in samples ==> RateKey in samples[s] && samples[s][RateKey].Text?
  }

  /** The rate loop over all samples. */
  function RateAll(samples: Samples, parse: FloatParser): Result<Samples> {
    if exists s :: s in samples && RateKey !in samples[s] then Err(KeyError(RateKey))
    else if exists s :: s in samples && samples[s][RateKey].Num? then Err(TypeError)
    else Ok(map s | s in samples :: RateStep(samples[s], parse).value)
  }

  /** The rate loop fails exactly when some sample lacks the rate or holds it as a number; otherwise only rates change. */
  lemma RateAllSpec(samples: Samples, parse: FloatParser)
    ensures RateAll(samples, parse).Ok? <==> RatesParseable(samples)
    ensures RateAll(samples, parse).Ok? ==> var rated := RateAll(samples, parse).value;
      && rated.Keys == samples.Keys
      && forall s :: s in rated ==> rated[s] == RateStep(samples[s], parse).value
  {
  }

  ghost predicate HasVariantCount(samples: Samples) {
    forall s :: s in samples ==> VariantCount in samples[s]
  }

  /** kv['variant count somaticqc'] = kv.pop('variant count') for every sample. */
  function RenameAll(samples: Samples): Result<Samples> {
    if exists s :: s in samples && VariantCount !in samples[s] then Err(KeyError(VariantCount))
    else Ok(map s | s in samples :: RenameKey(samples[s], VariantCount, RenamedVariantCount).value)
  }

  /** headers[k].update(...) inside a try block that passes over a KeyError. */
  function StyleIfPresent(h: Headers, k: string): (h': Headers) {
    StyleUntil(h, [k]).0
  }

  lemma StyleIfPresentSpec(h: Headers, k: string)
    ensures var h' := StyleIfPresent(h, k);
      h'.Keys == h.Keys && forall j :: j in h ==> h'[j] == if j == k then h[j].(styled := true) else h[j]
  {
    StyleUntilSpec(h, [k]);
    var n := StyleUntil(h, [k]).1;
    if n == 0 {
      assert [k][..n] == [];
    } else {
      assert [k][..n] == [k];
    }
  }

  /** The required updates, then two optional ones, for any keys. */
  lemma StyleThenOptional(h: Headers, keys: seq<string>, k1: string, k2: string)
    requires StyleAll(h, keys).Ok?
    ensures var h' := StyleIfPresent(StyleIfPresent(StyleAll(h, keys).value, k1), k2);
      && h'.Keys == h.Keys
      && forall k :: k in h ==> h'[k] == h[k].(styled := h[k].styled || k in keys || k == k1 || k == k2)
  {
    StyleAllSpec(h, keys);
    var h1 := StyleAll(h, keys).value;
    StyleIfPresentSpec(h1, k1);
    StyleIfPresentSpec(StyleIfPresent(h1, k1), k2);
  }

  /** The headers: built from the table, updated, and "variant count" renamed. */
  function SomaticHeaders(t: Table): Result<Headers> {
    var h1 :- StyleAll(MakeHeaders(t, Namespace), StyledKeys);
    var h2 := StyleIfPresent(h1, OptionalTiTv);
    var h3 := StyleIfPresent(h2, OptionalTumorContent);
    RenameKey(h3, VariantCount, RenamedVariantCount)
  }

  /** Was the header of this parameter updated? */
  predicate Styled(k: string) {
    k in StyledKeys || k == OptionalTiTv || k == OptionalTumorContent
  }

  /**
   * The headers fail exactly when a parameter updated outside a try block is not in
   * the table. Otherwise there is one header per parameter, titled by it, in the
   * SomaticQC namespace, updated exactly for the listed parameters, except that
   * "variant count" is stored under "variant count somaticqc" and keeps its title.
   */
  lemma SomaticHeadersSpec(t: Table)
    ensures SomaticHeaders(t).Ok? <==> forall k :: k in StyledKeys ==> k in t
    ensures SomaticHeaders(t).Ok? ==> var h := SomaticHeaders(t).value;
      && h.Keys == t.Keys - {VariantCount} + {RenamedVariantCount}
      && h[RenamedVariantCount] == Header(Namespace, VariantCount, t[VariantCount].description, true)
      && forall k :: k in h && k != RenamedVariantCount ==> h[k] == Header(Namespace, k, t[k].description, Styled(k))
  {
    SomaticHeadersSucceeds(t);
    if SomaticHeaders(t).Ok? {
      var h0 := MakeHeaders(t, Namespace);
      StyleThenOptional(h0, StyledKeys, OptionalTiTv, OptionalTumorContent);
    }
  }

  /** The headers fail exactly when a parameter updated outside a try block is missing. */
  lemma SomaticHeadersSucceeds(t: Table)
    ensures SomaticHeaders(t).Ok? <==> forall k :: k in StyledKeys ==> k in t
  {
    var h0 := MakeHeaders(t, Namespace);
    StyleAllSpec(h0, StyledKeys);
    if StyleAll(h0, StyledKeys).Ok? {
      var h1 := StyleAll(h0, StyledKeys).value;
      StyleIfPresentSpec(h1, OptionalTiTv);
      StyleIfPresentSpec(StyleIfPresent(h1, OptionalTiTv), OptionalTumorContent);
      assert VariantCount in StyledKeys;
    }
  }

  /** The constructor after its zero-sample check, on values. */
  function Reshape(t: Table, samples: Samples, parse: FloatParser): Result<Outcome> {
    var rated :- RateAll(samples, parse);
    var headers :- SomaticHeaders(t);
    var renamed :- RenameAll(rated);
    var description :- MakeDescription(t, ["somatic variant count"]);
    Ok(Outcome(t, renamed, headers,
               Report(OrderedSubset(headers, GeneralStatsKeys),
                      [Section("Overview", "somaticqc-general", "", AsMap(OrderedSubset(headers, OverviewKeys))),
                       Section("Somatic Variant Count", "somaticqc-somatic-variant-count", description,
                               AsMap(OrderedSubset(headers, ["somatic variant count"])))])))
  }

  /** The constructor is the rate loop, the headers, the rename and the report. */
  lemma ReshapeParts(t: Table, samples: Samples, parse: FloatParser)
    ensures Reshape(t, samples, parse).Ok? <==>
      && RateAll(samples, parse).Ok?
      && SomaticHeaders(t).Ok?
      && RenameAll(RateAll(samples, parse).value).Ok?
      && MakeDescription(t, ["somatic variant count"]).Ok?
    ensures Reshape(t, samples, parse).Ok? ==>
      var headers := SomaticHeaders(t).value;
      Reshape(t, samples, parse).value ==
        Outcome(t, RenameAll(RateAll(samples, parse).value).value, headers,
                Report(OrderedSubset(headers, GeneralStatsKeys),
                       [Section("Overview", "somaticqc-general", "", AsMap(OrderedSubset(headers, OverviewKeys))),
                        Section("Somatic Variant Count", "somaticqc-somatic-variant-count",
                                MakeDescription(t, ["somatic variant count"]).value,
                                AsMap(OrderedSubset(headers, ["somatic variant count"])))]))
  {
  }

  // ---------------------------------------------------------------------------
  // The constructor
  // ---------------------------------------------------------------------------

  /** The rate loop, updating each sample in place. */
  method ParseVariantRates(m: QcmlModule, parse: FloatParser) returns (err: Option<Error>)
    modifies m
    ensures m.qcml == old(m.qcml)
    ensures var r := RateAll(old(m.qcdata), parse);
      && (r.Ok? ==> err == None && m.qcdata == r.value)
      && (r.Err? ==> err == Some(r.error))
  {
    if exists s :: s in m.qcdata && RateKey !in m.qcdata[s] {
      return Some(KeyError(RateKey));
    }
    if exists s :: s in m.qcdata && m.qcdata[s][RateKey].Num? {
      return Some(TypeError);
    }
    ghost var before := m.qcdata;
    var todo := m.qcdata.Keys;
    while todo != {}
      invariant todo <= before.Keys
      invariant m.qcml == old(m.qcml)
      invariant m.qcdata.Keys == before.Keys
      invariant forall s :: s in todo ==> m.qcdata[s] == before[s]
      invariant forall s :: s in before && s !in todo ==> m.qcdata[s] == RateStep(before[s], parse).value
      decreases todo
    {
      var s :| s in todo;
      ParseVariantRate(m, s, parse);
      todo := todo - {s};
    }
    err := None;
  }

  /**
   * One sample of the rate loop: float(re.sub(...)) is stored, or the rate is
   * popped when float() raises ValueError.
   */
  method ParseVariantRate(m: QcmlModule, s: string, parse: FloatParser)
    requires s in m.qcdata && RateKey in m.qcdata[s] && m.qcdata[s][RateKey].Text?
    modifies m
    ensures m.qcml == old(m.qcml)
    ensures m.qcdata == old(m.qcdata)[s := RateStep(old(m.qcdata)[s], parse).value]
  {
    var kv := m.qcdata[s];
    match parse(RewriteRate(kv[RateKey].s)) {
      case Some(x) => kv := kv[RateKey := Num(x)];
      case None => kv := kv - {RateKey};
    }
    m.qcdata := m.qcdata[s := kv];
  }

  /** The rename loop over the samples. */
  method RenameVariantCounts(m: QcmlModule) returns (err: Option<Error>)
    modifies m
    ensures m.qcml == old(m.qcml)
    ensures var r := RenameAll(old(m.qcdata));
      && (r.Ok? ==> err == None && m.qcdata == r.value)
      && (r.Err? ==> err == Some(r.error))
  {
    if exists s :: s in m.qcdata && VariantCount !in m.qcdata[s] {
      return Some(KeyError(VariantCount));
    }
    ghost var before := m.qcdata;
    var todo := m.qcdata.Keys;
    while todo != {}
      invariant todo <= before.Keys
      invariant m.qcml == old(m.qcml)
      invariant m.qcdata.Keys == before.Keys
      invariant forall s :: s in todo ==> m.qcdata[s] == before[s]
      invariant forall s :: s in before && s !in todo ==>
        m.qcdata[s] == RenameKey(before[s], VariantCount, RenamedVariantCount).value
      decreases todo
    {
      var s :| s in todo;
      RenameVariantCount(m, s);
      todo := todo - {s};
    }
    err := None;
  }

  /** One sample of the rename loop: kv['variant count somaticqc'] = kv.pop('variant count'). */
  method RenameVariantCount(m: QcmlModule, s: string)
    requires s in m.qcdata && VariantCount in m.qcdata[s]
    modifies m
    ensures m.qcml == old(m.qcml)
    ensures m.qcdata == old(m.qcdata)[s := RenameKey(old(m.qcdata)[s], VariantCount, RenamedVariantCount).value]
  {
    var kv := m.qcdata[s];
    var count := kv[VariantCount];
    kv := kv - {VariantCount};
    kv := kv[RenamedVariantCount := count];
    m.qcdata := m.qcdata[s := kv];
  }

  /** The module's constructor, run on a module object. */
  method Init(m: QcmlModule, files: seq<LogFile>, parse: FloatParser, ignored: string -> bool) returns (r: Result<Report>)
    modifies m
    ensures var t := UpdatedTable(map[], AllParams(files));
            var loaded := Kept(LoadSamples(map[], files, parse, SplitSampleName), ignored);
      if loaded == map[] then r == Err(NoSamples) && m.qcml == t && m.qcdata == map[]
      else match Reshape(t, loaded, parse)
        case Ok(o) => r == Ok(o.report) && m.qcml == o.qcml && m.qcdata == o.qcdata
        case Err(e) => r == Err(e)
  {
    m.qcml := map[];
    m.qcdata := map[];
    m.LoadFiles(files, parse, SplitSampleName);
    m.IgnoreSamples(ignored);
    if |m.qcdata| == 0 {
      return Err(NoSamples);
    }
    ReshapeParts(m.qcml, m.qcdata, parse);
    var err := ParseVariantRates(m, parse);
    if err.Some? {
      return Err(err.value);
    }
    var headers, n := StyleUntilMissing(MakeHeaders(m.qcml, Namespace), StyledKeys);
    if n < |StyledKeys| {
      return Err(KeyError(StyledKeys[n]));
    }
    headers, n := StyleUntilMissing(headers, [OptionalTiTv]);
    headers, n := StyleUntilMissing(headers, [OptionalTumorContent]);
    if VariantCount !in headers {
      return Err(KeyError(VariantCount));
    }
    var header := headers[VariantCount];
    headers := headers - {VariantCount};
    headers := headers[RenamedVariantCount := header];
    err := RenameVariantCounts(m);
    if err.Some? {
      return Err(err.value);
    }
    var general := DictOrderedSubset(headers, GeneralStatsKeys);
    var overview := DictOrderedSubset(headers, OverviewKeys);
    var description := MakeDescription(m.qcml, ["somatic variant count"]);
    if description.Err? {
      return Err(description.error);
    }
    var counts := DictOrderedSubset(headers, ["somatic variant count"]);
    r := Ok(Report(general,
                   [Section("Overview", "somaticqc-general", "", AsMap(overview)),
                    Section("Somatic Variant Count", "somaticqc-somatic-variant-count", description.value,
                            AsMap(counts))]));
  }

  // ---------------------------------------------------------------------------
  // Properties
  // ---------------------------------------------------------------------------

  lemma RateKeepsVariantCount(samples: Samples, parse: FloatParser)
    requires RateAll(samples, parse).Ok?
    ensures HasVariantCount(RateAll(samples, parse).value) <==> HasVariantCount(samples)
  {
    RateAllSpec(samples, parse);
  }

  /**
   * The inputs the constructor accepts: every sample has the rate as text and a
   * "variant count", every parameter whose header is updated outside a try block
   * was described, and "somatic variant count" has an accession.
   */
  ghost predicate Accepted(t: Table, samples: Samples) {
    && RatesParseable(samples)
    && (forall k :: k in StyledKeys ==> k in t)
    && HasVariantCount(samples)
    && Described(t, ["somatic variant count"])
  }

  /** The constructor fails exactly on the inputs it does not accept. */
  lemma ReshapeSucceeds(t: Table, samples: Samples, parse: FloatParser)
    ensures Reshape(t, samples, parse).Ok? <==> Accepted(t, samples)
  {
    ReshapeParts(t, samples, parse);
    RateAllSpec(samples, parse);
    SomaticHeadersSucceeds(t);
    MakeDescriptionSpec(t, ["somatic variant count"]);
    if RatesParseable(samples) {
      RateKeepsVariantCount(samples, parse);
    }
  }

  /**
   * The rename: every sample holds its former "variant count" under
   * "variant count somaticqc" and no longer has "variant count"; no key but the
   * rate and those two changes.
   */
  lemma VariantCountRenamed(t: Table, samples: Samples, parse: FloatParser)
    requires Accepted(t, samples)
    ensures Reshape(t, samples, parse).Ok?
    ensures var o := Reshape(t, samples, parse).value;
      && o.qcdata.Keys == samples.Keys
      && (forall s :: s in o.qcdata ==>
            && VariantCount !in o.qcdata[s]
            && RenamedVariantCount in o.qcdata[s] && VariantCount in samples[s]
            && o.qcdata[s][RenamedVariantCount] == samples[s][VariantCount]
            && forall k :: k != RateKey && k != VariantCount && k != RenamedVariantCount ==>
                 (k in o.qcdata[s] <==> k in samples[s]) && (k in samples[s] ==> o.qcdata[s][k] == samples[s][k]))
  {
    ReshapeSucceeds(t, samples, parse);
    ReshapeParts(t, samples, parse);
    RateAllSpec(samples, parse);
  }

  /**
   * The literal '\2' makes the rate unusable: after the constructor no sample has
   * "somatic variant rate", for any float() that rejects chr(2).
   */
  lemma RateNeverReported(t: Table, samples: Samples, parse: FloatParser)
    requires RejectsChr2(parse) && AllTextUnparsed(samples, parse)
    requires Accepted(t, samples)
    ensures Reshape(t, samples, parse).Ok?
    ensures var o := Reshape(t, samples, parse).value;
      forall s :: s in o.qcdata ==> RateKey !in o.qcdata[s]
  {
    ReshapeSucceeds(t, samples, parse);
    ReshapeParts(t, samples, parse);
    RatesDropped(samples, parse);
    RateKeepsVariantCount(samples, parse);
    RenameKeepsRateOut(RateAll(samples, parse).value);
  }

  /** After the rate loop no sample has a rate, when float() rejects chr(2). */
  lemma RatesDropped(samples: Samples, parse: FloatParser)
    requires RejectsChr2(parse) && AllTextUnparsed(samples, parse) && RatesParseable(samples)
    ensures RateAll(samples, parse).Ok?
    ensures forall s :: s in RateAll(samples, parse).value ==> RateKey !in RateAll(samples, parse).value[s]
  {
    RateAllSpec(samples, parse);
    forall s | s in samples
      ensures RateStep(samples[s], parse) == Ok(samples[s] - {RateKey})
    {
      RateAlwaysDropped(samples[s], parse);
    }
  }

  /** The rename brings no rate back. */
  lemma RenameKeepsRateOut(rated: Samples)
    requires HasVariantCount(rated) && forall s :: s in rated ==> RateKey !in rated[s]
    ensures RenameAll(rated).Ok?
    ensures forall s :: s in RenameAll(rated).value ==> RateKey !in RenameAll(rated).value[s]
  {
    assert RateKey[0] == 's' && VariantCount[0] == 'v' && RenamedVariantCount[0] == 'v';
  }

  /** End to end: the samples read from qcML files never report a somatic variant rate. */
  lemma LoadedRateNeverReported(files: seq<LogFile>, parse: FloatParser, ignored: string -> bool)
    requires RejectsChr2(parse)
    requires Accepted(UpdatedTable(map[], AllParams(files)), Kept(LoadSamples(map[], files, parse, SplitSampleName), ignored))
    ensures var loaded := Kept(LoadSamples(map[], files, parse, SplitSampleName), ignored);
      && Reshape(UpdatedTable(map[], AllParams(files)), loaded, parse).Ok?
      && var o := Reshape(UpdatedTable(map[], AllParams(files)), loaded, parse).value;
         forall s :: s in o.qcdata ==> RateKey !in o.qcdata[s]
  {
    LoadedTextIsUnparsed(map[], files, parse, SplitSampleName);
    var loaded := Kept(LoadSamples(map[], files, parse, SplitSampleName), ignored);
    RateNeverReported(UpdatedTable(map[], AllParams(files)), loaded, parse);
  }

  /** The columns of the general statistics and of both sections are ordered subsets of the headers. */
  lemma SectionColumns(t: Table, samples: Samples, parse: FloatParser)
    requires Accepted(t, samples)
    ensures Reshape(t, samples, parse).Ok?
    ensures var o := Reshape(t, samples, parse).value;
      && IsOrderedSubset(o.report.generalStats, o.headers, GeneralStatsKeys)
      && |o.report.sections| == 2
      && o.report.sections[0].columns == (map k | k in OverviewKeys && k in o.headers :: o.headers[k])
      && o.report.sections[1].columns == (map k | k in ["somatic variant count"] && k in o.headers :: o.headers[k])
      && o.report.sections[1].description == t["somatic variant count"].description
  {
    ReshapeSucceeds(t, samples, parse);
    var o := Reshape(t, samples, parse).value;
    OrderedSubsetSpec(o.headers, GeneralStatsKeys);
    AsMapOfSubset(o.headers, OverviewKeys);
    AsMapOfSubset(o.headers, ["somatic variant count"]);
    ReshapeParts(t, samples, parse);
    MakeDescriptionSpec(t, ["somatic variant count"]);
  }
}
