/** The threshold finding engine and the keyword risk classifier of the
    manual pipeline (manual_coding/src/interpreter.py).

    The engine reads nine measurements of a record and, for each, emits at
    most one finding from a ladder of bands checked from the most severe
    down. `InterpretVitals` mirrors the code statement by statement, with
    each block's thresholds and messages written out as the code writes
    them; the rule table `Ladder` states the same rules as data, and the
    method is proved to produce exactly what the table prescribes. */
module Interpreter {
  import opened Values
  import opened Vitals
  import opened Text

  // The finding messages, verbatim.
  const SevereIcaPsv: string := "Severe ICA PSV, stenosis (>70%)"
  const ModerateIcaPsv: string := "Moderate ICA PSV, stenosis (50-69%)"
  const SevereIcaEdv: string := "Severe ICA EDV (>100 cm/s)"
  const ModerateIcaEdv: string := "Moderate ICA EDV (40-100 cm/s)"
  const ElevatedIcaImt: string := "Elevated ICA IMT (>1.0 mm)"
  const ElevatedCcaPsv: string := "Elevated CCA PSV (>125 cm/s)"
  const ElevatedCcaEdv: string := "Elevated CCA EDV (>40 cm/s)"
  const ElevatedCcaImt: string := "Elevated CCA IMT (>1.0 mm)"
  const ElevatedEcaPsv: string := "Elevated ECA PSV (>150 cm/s)"
  const ElevatedEcaEdv: string := "Elevated ECA EDV (>40 cm/s)"
  const SevereRatio: string := "Severe ICA/CCA suggests stenosis (>70%)."
  const ElevatedRatio: string := "Elevated ICA/CCA suggest stenosis (>50%)."
  const MildRatio: string := "Mildly elevated ICA/CCA ratio."

  /** How a band compares a measurement with its threshold. */
  datatype Comparison = Above | AtLeast

  datatype Band = Band(comparison: Comparison, threshold: real, message: string)

  /** Where a group reads its measurement: a metric of a vessel payload, or
      the derived ratio stored beside the vessels. */
  datatype Source = VesselMetric(vessel: string, key: string) | DerivedRatio

  /** A band group: bands ordered from the most severe down; the first that
      passes gives the group's one finding. */
  datatype Group = Group(source: Source, bands: seq<Band>)

  const IcaPsvRule: Group := Group(VesselMetric(Ica, PsvKey),
    [Band(Above, 200.0, SevereIcaPsv), Band(Above, 125.0, ModerateIcaPsv)])
  const IcaEdvRule: Group := Group(VesselMetric(Ica, EdvKey),
    [Band(Above, 100.0, SevereIcaEdv), Band(Above, 40.0, ModerateIcaEdv)])
  const IcaImtRule: Group := Group(VesselMetric(Ica, ImtKey), [Band(AtLeast, 1.1, ElevatedIcaImt)])
  const CcaPsvRule: Group := Group(VesselMetric(Cca, PsvKey), [Band(Above, 125.0, ElevatedCcaPsv)])
  const CcaEdvRule: Group := Group(VesselMetric(Cca, EdvKey), [Band(Above, 40.0, ElevatedCcaEdv)])
  const CcaImtRule: Group := Group(VesselMetric(Cca, ImtKey), [Band(AtLeast, 1.0, ElevatedCcaImt)])
  const EcaPsvRule: Group := Group(VesselMetric(Eca, PsvKey), [Band(Above, 150.0, ElevatedEcaPsv)])
  const EcaEdvRule: Group := Group(VesselMetric(Eca, EdvKey), [Band(Above, 40.0, ElevatedEcaEdv)])
  const RatioRule: Group := Group(DerivedRatio,
    [Band(Above, 4.0, SevereRatio), Band(Above, 2.0, ElevatedRatio), Band(Above, 1.5, MildRatio)])

  /** The rule table, in evaluation order. */
  const Ladder: seq<Group> :=
    [IcaPsvRule, IcaEdvRule, IcaImtRule, CcaPsvRule, CcaEdvRule, CcaImtRule, EcaPsvRule, EcaEdvRule, RatioRule]

  /** `patient.get("vitals")` as a dict. */
  function VitalsOf(patient: Dict): Dict
  {
    Fields(Get(patient, "vitals", JNull))
  }

  /** The raw value a source reads: `vitals.get(vessel).get(key)` or
      `vitals.get("ica_cca_ratio")`, `JNull` standing for Python's `None`. */
  function Raw(vitals: Dict, source: Source): Json
  {
    match source
    case VesselMetric(vessel, key) => Get(Fields(Get(vitals, vessel, JNull)), key, JNull)
    case DerivedRatio => Get(vitals, RatioKey, JNull)
  }

  /** `if value:` followed by a numeric comparison: the number a value
      is compared as, or none when the value is falsy (absent, `None`, zero,
      `False`) or not a number. */
  function Measured(j: Json): (r: Option<real>)
    ensures r.Some? ==> r.value != 0.0
    ensures j == JNull || j == JNum(0.0) ==> r.None?
    ensures j.JNum? && j.n != 0.0 ==> r == Some(j.n)
  {
    if Truthy(j) then AsNumber(j) else None
  }

  /** The measurement a group tests. */
  function Reading(vitals: Dict, source: Source): Option<real>
  {
    Measured(Raw(vitals, source))
  }

  /** A value that `if value:` lets through must be a number, or the
      comparison with a threshold raises. */
  predicate Comparable(j: Json)
  {
    !Truthy(j) || AsNumber(j).Some?
  }

  /** What the code needs of its input: a "vitals" dict holding ICA, CCA
      and ECA dicts (read without guards), and every tested value falsy or
      numeric. */
  predicate Interpretable(patient: Dict)
  {
    var vitals := Get(patient, "vitals", JNull);
    vitals.JObj?
    && Get(vitals.fields, Ica, JNull).JObj?
    && Get(vitals.fields, Cca, JNull).JObj?
    && Get(vitals.fields, Eca, JNull).JObj?
    && forall i :: 0 <= i < |Ladder| ==> Comparable(Raw(vitals.fields, Ladder[i].source))
  }

  predicate Passes(band: Band, x: real)
  {
    match band.comparison
    case Above => x > band.threshold
    case AtLeast => x >= band.threshold
  }

  /** The message of the first band that passes: an if/elif chain. */
  function FirstBand(bands: seq<Band>, x: real): (r: Option<string>)
    ensures r.None? <==> forall i :: 0 <= i < |bands| ==> !Passes(bands[i], x)
    ensures r.Some? ==> exists i :: 0 <= i < |bands| && Passes(bands[i], x) && r.value == bands[i].message
                                    && forall k :: 0 <= k < i ==> !Passes(bands[k], x)
  {
    if bands == [] then None
    else if Passes(bands[0], x) then Some(bands[0].message)
    else
      var r := FirstBand(bands[1..], x);
      assert forall i :: 1 <= i < |bands| ==> bands[i] == bands[1..][i - 1];
      r
  }

  /** The findings a band chain gives for one value: none or one. */
  function BandFindings(j: Json, bands: seq<Band>): (r: seq<string>)
    ensures |r| <= 1
    ensures r != [] ==> exists i :: 0 <= i < |bands| && r[0] == bands[i].message
  {
    match Measured(j)
    case None => []
    case Some(x) =>
      match FirstBand(bands, x)
      case None => []
      case Some(m) => [m]
  }

  /** The findings one group contributes. */
  function GroupFindings(vitals: Dict, group: Group): seq<string>
  {
    BandFindings(Raw(vitals, group.source), group.bands)
  }

  /** The findings a rule table prescribes: each group's, in table order. */
  function TableFindings(vitals: Dict, groups: seq<Group>): (r: seq<string>)
    ensures |r| <= |groups|
  {
    if groups == [] then []
    else TableFindings(vitals, groups[..|groups| - 1]) + GroupFindings(vitals, groups[|groups| - 1])
  }

  /** What `interpret_vitals` returns for an interpretable record. */
  function Interpretation(patient: Dict): seq<string>
  {
    TableFindings(VitalsOf(patient), Ladder)
  }

  /** Appending one group appends its contribution. */
  lemma TableFindingsSnoc(vitals: Dict, groups: seq<Group>, group: Group)
    ensures TableFindings(vitals, groups + [group]) == TableFindings(vitals, groups) + GroupFindings(vitals, group)
  {
    assert (groups + [group])[..|groups|] == groups;
  }

  /** Nine one-element appends build the nine-element sequence. */
  lemma NineAppends<T>(x0: T, x1: T, x2: T, x3: T, x4: T, x5: T, x6: T, x7: T, x8: T)
    ensures [] + [x0] + [x1] + [x2] + [x3] + [x4] + [x5] + [x6] + [x7] + [x8] == [x0, x1, x2, x3, x4, x5, x6, x7, x8]
  {
  }

  /** One `if value:` block: append the message of the first band the value
      passes, if any. */
  method CheckValue(findings: seq<string>, value: Json, bands: seq<Band>) returns (r: seq<string>)
    requires Comparable(value)
    ensures r == findings + BandFindings(value, bands)
  {
    r := findings;
    if Truthy(value) {
      var x := AsNumber(value).value;
      var i := 0;
      while i < |bands| && !Passes(bands[i], x)
        invariant 0 <= i <= |bands|
        invariant forall k :: 0 <= k < i ==> !Passes(bands[k], x)
      {
        i := i + 1;
      }
      if i < |bands| {
        r := findings + [bands[i].message];
      }
    }
  }

  /** The nine values `interpret_vitals` reads can all be compared. */
  lemma InterpretableReads(patient: Dict)
    requires Interpretable(patient)
    ensures var vitals := VitalsOf(patient);
      var ica, cca, eca := Fields(Get(vitals, Ica, JNull)), Fields(Get(vitals, Cca, JNull)), Fields(Get(vitals, Eca, JNull));
      Comparable(Get(ica, PsvKey, JNull)) && Comparable(Get(ica, EdvKey, JNull)) && Comparable(Get(ica, ImtKey, JNull))
      && Comparable(Get(cca, PsvKey, JNull)) && Comparable(Get(cca, EdvKey, JNull)) && Comparable(Get(cca, ImtKey, JNull))
      && Comparable(Get(eca, PsvKey, JNull)) && Comparable(Get(eca, EdvKey, JNull))
      && Comparable(Get(vitals, RatioKey, JNull))
  {
    assert Ladder[0] == IcaPsvRule && Ladder[1] == IcaEdvRule && Ladder[2] == IcaImtRule;
    assert Ladder[3] == CcaPsvRule && Ladder[4] == CcaEdvRule && Ladder[5] == CcaImtRule;
    assert Ladder[6] == EcaPsvRule && Ladder[7] == EcaEdvRule && Ladder[8] == RatioRule;
  }

  /** The band lists `interpret_vitals` writes out, block by block, are the
      rule table's. */
  lemma TableLiterals()
    ensures IcaPsvRule.bands == [Band(Above, 200.0, "Severe ICA PSV, stenosis (>70%)"), Band(Above, 125.0, "Moderate ICA PSV, stenosis (50-69%)")]
    ensures IcaEdvRule.bands == [Band(Above, 100.0, "Severe ICA EDV (>100 cm/s)"), Band(Above, 40.0, "Moderate ICA EDV (40-100 cm/s)")]
    ensures IcaImtRule.bands == [Band(AtLeast, 1.1, "Elevated ICA IMT (>1.0 mm)")]
    ensures CcaPsvRule.bands == [Band(Above, 125.0, "Elevated CCA PSV (>125 cm/s)")]
    ensures CcaEdvRule.bands == [Band(Above, 40.0, "Elevated CCA EDV (>40 cm/s)")]
    ensures CcaImtRule.bands == [Band(AtLeast, 1.0, "Elevated CCA IMT (>1.0 mm)")]
    ensures EcaPsvRule.bands == [Band(Above, 150.0, "Elevated ECA PSV (>150 cm/s)")]
    ensures EcaEdvRule.bands == [Band(Above, 40.0, "Elevated ECA EDV (>40 cm/s)")]
    ensures RatioRule.bands == [Band(Above, 4.0, "Severe ICA/CCA suggests stenosis (>70%)."),
                                Band(Above, 2.0, "Elevated ICA/CCA suggest stenosis (>50%)."),
                                Band(Above, 1.5, "Mildly elevated ICA/CCA ratio.")]
  {
  }

  /** `interpret_vitals`: the nine checks in the code's order. */
  method InterpretVitals(patient: Dict) returns (findings: seq<string>)
    requires Interpretable(patient)
    ensures findings == Interpretation(patient)
  {
    findings := [];
    var vitals := Get(patient, "vitals", JNull).fields;
    ghost var done: seq<Group> := [];
    assert findings == TableFindings(vitals, done);

    var cca := Get(vitals, Cca, JNull).fields;
    var ica := Get(vitals, Ica, JNull).fields;
    var eca := Get(vitals, Eca, JNull).fields;
    var ratio := Get(vitals, RatioKey, JNull);
    InterpretableReads(patient);
    TableLiterals();

    var icaPsv := Get(ica, PsvKey, JNull);
    findings := CheckValue(findings, icaPsv,
      [Band(Above, 200.0, "Severe ICA PSV, stenosis (>70%)"), Band(Above, 125.0, "Moderate ICA PSV, stenosis (50-69%)")]);
    TableFindingsSnoc(vitals, done, IcaPsvRule);
    done := done + [IcaPsvRule];
    assert findings == TableFindings(vitals, done);
    var icaEdv := Get(ica, EdvKey, JNull);
    findings := CheckValue(findings, icaEdv,
      [Band(Above, 100.0, "Severe ICA EDV (>100 cm/s)"), Band(Above, 40.0, "Moderate ICA EDV (40-100 cm/s)")]);
    TableFindingsSnoc(vitals, done, IcaEdvRule);
    done := done + [IcaEdvRule];
    assert findings == TableFindings(vitals, done);
    var icaImt := Get(ica, ImtKey, JNull);
    findings := CheckValue(findings, icaImt, [Band(AtLeast, 1.1, "Elevated ICA IMT (>1.0 mm)")]);
    TableFindingsSnoc(vitals, done, IcaImtRule);
    done := done + [IcaImtRule];
    assert findings == TableFindings(vitals, done);
    var ccaPsv := Get(cca, PsvKey, JNull);
    findings := CheckValue(findings, ccaPsv, [Band(Above, 125.0, "Elevated CCA PSV (>125 cm/s)")]);
    TableFindingsSnoc(vitals, done, CcaPsvRule);
    done := done + [CcaPsvRule];
    assert findings == TableFindings(vitals, done);
    var ccaEdv := Get(cca, EdvKey, JNull);
    findings := CheckValue(findings, ccaEdv, [Band(Above, 40.0, "Elevated CCA EDV (>40 cm/s)")]);
    TableFindingsSnoc(vitals, done, CcaEdvRule);
    done := done + [CcaEdvRule];
    assert findings == TableFindings(vitals, done);
    var ccaImt := Get(cca, ImtKey, JNull);
    findings := CheckValue(findings, ccaImt, [Band(AtLeast, 1.0, "Elevated CCA IMT (>1.0 mm)")]);
    TableFindingsSnoc(vitals, done, CcaImtRule);
    done := done + [CcaImtRule];
    assert findings == TableFindings(vitals, done);
    var ecaPsv := Get(eca, PsvKey, JNull);
    findings := CheckValue(findings, ecaPsv, [Band(Above, 150.0, "Elevated ECA PSV (>150 cm/s)")]);
    TableFindingsSnoc(vitals, done, EcaPsvRule);
    done := done + [EcaPsvRule];
    assert findings == TableFindings(vitals, done);
    var ecaEdv := Get(eca, EdvKey, JNull);
    findings := CheckValue(findings, ecaEdv, [Band(Above, 40.0, "Elevated ECA EDV (>40 cm/s)")]);
    TableFindingsSnoc(vitals, done, EcaEdvRule);
    done := done + [EcaEdvRule];
    assert findings == TableFindings(vitals, done);
    findings := CheckValue(findings, ratio,
      [Band(Above, 4.0, "Severe ICA/CCA suggests stenosis (>70%)."), Band(Above, 2.0, "Elevated ICA/CCA suggest stenosis (>50%)."),
       Band(Above, 1.5, "Mildly elevated ICA/CCA ratio.")]);
    TableFindingsSnoc(vitals, done, RatioRule);
    done := done + [RatioRule];
    assert findings == TableFindings(vitals, done);
    NineAppends(IcaPsvRule, IcaEdvRule, IcaImtRule, CcaPsvRule, CcaEdvRule, CcaImtRule, EcaPsvRule, EcaEdvRule, RatioRule);
  }

  /** ICA PSV (lines 11-16): above 200 is severe, else above 125 is
      moderate, else nothing; the two messages exclude each other. */
  lemma IcaPsvBands(vitals: Dict)
    ensures var r := Reading(vitals, IcaPsvRule.source);
      GroupFindings(vitals, IcaPsvRule)
      == if r.None? then []
         else if r.value > 200.0 then [SevereIcaPsv]
         else if r.value > 125.0 then [ModerateIcaPsv]
         else []
  {
    var r := Reading(vitals, IcaPsvRule.source);
    if r.Some? {
      var b := IcaPsvRule.bands;
      assert b[1..] == [b[1]];
      assert FirstBand(b[1..][1..], r.value) == None;
      assert FirstBand(b[1..], r.value) == if r.value > 125.0 then Some(ModerateIcaPsv) else None;
    }
  }

  /** ICA EDV: above 100 is severe, else above 40 is moderate. */
  lemma IcaEdvBands(vitals: Dict)
    ensures var r := Reading(vitals, IcaEdvRule.source);
      GroupFindings(vitals, IcaEdvRule)
      == if r.None? then []
         else if r.value > 100.0 then [SevereIcaEdv]
         else if r.value > 40.0 then [ModerateIcaEdv]
         else []
  {
    var r := Reading(vitals, IcaEdvRule.source);
    if r.Some? {
      var b := IcaEdvRule.bands;
      assert b[1..] == [b[1]];
      assert FirstBand(b[1..][1..], r.value) == None;
      assert FirstBand(b[1..], r.value) == if r.value > 40.0 then Some(ModerateIcaEdv) else None;
    }
  }

  /** The IMT checks are inclusive: a thickness at or above the threshold
      fires. */
  lemma ImtBands(vitals: Dict)
    ensures var r := Reading(vitals, IcaImtRule.source);
      GroupFindings(vitals, IcaImtRule) == if r.Some? && r.value >= 1.1 then [ElevatedIcaImt] else []
    ensures var r := Reading(vitals, CcaImtRule.source);
      GroupFindings(vitals, CcaImtRule) == if r.Some? && r.value >= 1.0 then [ElevatedCcaImt] else []
  {
  }

  /** The one-band velocity checks are strict: only a velocity above the
      threshold fires. */
  lemma VelocityBands(vitals: Dict)
    ensures var r := Reading(vitals, CcaPsvRule.source);
      GroupFindings(vitals, CcaPsvRule) == if r.Some? && r.value > 125.0 then [ElevatedCcaPsv] else []
    ensures var r := Reading(vitals, CcaEdvRule.source);
      GroupFindings(vitals, CcaEdvRule) == if r.Some? && r.value > 40.0 then [ElevatedCcaEdv] else []
    ensures var r := Reading(vitals, EcaPsvRule.source);
      GroupFindings(vitals, EcaPsvRule) == if r.Some? && r.value > 150.0 then [ElevatedEcaPsv] else []
    ensures var r := Reading(vitals, EcaEdvRule.source);
      GroupFindings(vitals, EcaEdvRule) == if r.Some? && r.value > 40.0 then [ElevatedEcaEdv] else []
  {
  }

  /** The ratio: above 4.0 severe, else above 2.0 elevated, else above 1.5
      mildly elevated, else nothing; at most one of the three. */
  lemma RatioBands(vitals: Dict)
    ensures var r := Reading(vitals, DerivedRatio);
      GroupFindings(vitals, RatioRule)
      == if r.None? then []
         else if r.value > 4.0 then [SevereRatio]
         else if r.value > 2.0 then [ElevatedRatio]
         else if r.value > 1.5 then [MildRatio]
         else []
  {
    var r := Reading(vitals, DerivedRatio);
    if r.Some? {
      var b := RatioRule.bands;
      assert b[1..] == [b[1], b[2]] && b[1..][1..] == [b[2]];
      assert FirstBand(b[1..][1..][1..], r.value) == None;
      assert FirstBand(b[1..][1..], r.value) == if r.value > 1.5 then Some(MildRatio) else None;
      assert FirstBand(b[1..], r.value) == if r.value > 2.0 then Some(ElevatedRatio) else FirstBand(b[1..][1..], r.value);
    }
  }

  /** A value exactly at a threshold: it fires an inclusive IMT band and
      not a strict velocity band. */
  lemma ThresholdBoundaries(vitals: Dict)
    ensures Reading(vitals, IcaImtRule.source) == Some(1.1) ==> GroupFindings(vitals, IcaImtRule) == [ElevatedIcaImt]
    ensures Reading(vitals, CcaImtRule.source) == Some(1.0) ==> GroupFindings(vitals, CcaImtRule) == [ElevatedCcaImt]
    ensures Reading(vitals, IcaPsvRule.source) == Some(200.0) ==> GroupFindings(vitals, IcaPsvRule) == [ModerateIcaPsv]
    ensures Reading(vitals, IcaPsvRule.source) == Some(125.0) ==> GroupFindings(vitals, IcaPsvRule) == []
    ensures Reading(vitals, CcaPsvRule.source) == Some(125.0) ==> GroupFindings(vitals, CcaPsvRule) == []
  {
    IcaPsvBands(vitals);
    ImtBands(vitals);
    VelocityBands(vitals);
  }

  /** A table whose every tested value is absent, `None` or zero gives no
      findings, whatever its thresholds. */
  lemma {:induction false} SilentWithoutReadings(vitals: Dict, groups: seq<Group>)
    requires forall i :: 0 <= i < |groups| ==> Reading(vitals, groups[i].source).None?
    ensures TableFindings(vitals, groups) == []
  {
    if groups != [] {
      SilentWithoutReadings(vitals, groups[..|groups| - 1]);
    }
  }

  /** A record whose nine tested values are all absent or zero gives no
      findings. */
  lemma SilentRecord(patient: Dict)
    requires forall i :: 0 <= i < |Ladder| ==>
      var j := Raw(VitalsOf(patient), Ladder[i].source); j == JNull || j == JNum(0.0)
    ensures Interpretation(patient) == []
  {
    SilentWithoutReadings(VitalsOf(patient), Ladder);
  }

  /** `m` is the message of one of `group`'s bands. */
  predicate MessageOf(m: string, group: Group)
  {
    exists b :: 0 <= b < |group.bands| && group.bands[b].message == m
  }

  /** `o` gives, for each finding of the table, the index of the group
      that emitted it, and the indices rise strictly. */
  ghost predicate IsOrigins(vitals: Dict, groups: seq<Group>, o: seq<nat>)
  {
    var f := TableFindings(vitals, groups);
    |o| == |f|
    && (forall p :: 0 <= p < |o| ==> o[p] < |groups| && MessageOf(f[p], groups[o[p]]))
    && (forall p, q :: 0 <= p < q < |o| ==> o[p] < o[q])
  }

  /** The origins of a table extend to the table with one more group: the
      new group's finding, if any, comes last and from the last index. */
  lemma OriginsSnoc(vitals: Dict, groups: seq<Group>, o: seq<nat>)
    requires groups != [] && IsOrigins(vitals, groups[..|groups| - 1], o)
    ensures IsOrigins(vitals, groups, if GroupFindings(vitals, groups[|groups| - 1]) == [] then o else o + [|groups| - 1])
  {
    var init, last := groups[..|groups| - 1], groups[|groups| - 1];
    var f := TableFindings(vitals, init);
    var g := GroupFindings(vitals, last);
    var all := TableFindings(vitals, groups);
    assert all == f + g;
    forall p | 0 <= p < |o|
      ensures o[p] < |groups| && MessageOf(all[p], groups[o[p]])
    {
      assert all[p] == f[p] && groups[o[p]] == init[o[p]];
    }
    if g != [] {
      var o' := o + [|groups| - 1];
      assert MessageOf(all[|f|], last);
      forall p | 0 <= p < |o'|
        ensures o'[p] < |groups| && MessageOf(all[p], groups[o'[p]])
      {
        if p < |o| {
          assert o'[p] == o[p];
        }
      }
      forall p, q | 0 <= p < q < |o'|
        ensures o'[p] < o'[q]
      {
        if q == |o| {
          assert o'[p] == o[p] < |init|;
        }
      }
    }
  }

  /** Where each finding comes from: the index of the group that emitted
      it. The indices rise strictly, so the findings follow the table's
      order and no group speaks twice. */
  ghost function Origins(vitals: Dict, groups: seq<Group>): (o: seq<nat>)
    ensures IsOrigins(vitals, groups, o)
  {
    if groups == [] then []
    else
      var o := Origins(vitals, groups[..|groups| - 1]);
      OriginsSnoc(vitals, groups, o);
      if GroupFindings(vitals, groups[|groups| - 1]) == [] then o else o + [|groups| - 1]
  }

  /** `interpret_vitals` gives at most nine findings, each from the ladder,
      in ladder order. */
  lemma LadderOrder(patient: Dict)
    ensures |Interpretation(patient)| <= 9
    ensures var f := Interpretation(patient);
      exists o: seq<nat> :: |o| == |f|
        && (forall p :: 0 <= p < |o| ==> o[p] < 9 && MessageOf(f[p], Ladder[o[p]]))
        && (forall p, q :: 0 <= p < q < |o| ==> o[p] < o[q])
  {
    var o := Origins(VitalsOf(patient), Ladder);
  }

  /** A nine-group table's findings are its groups' contributions, in order. */
  lemma NineGroups(vitals: Dict, g0: Group, g1: Group, g2: Group, g3: Group, g4: Group, g5: Group, g6: Group, g7: Group, g8: Group)
    ensures TableFindings(vitals, [g0, g1, g2, g3, g4, g5, g6, g7, g8])
         == GroupFindings(vitals, g0) + GroupFindings(vitals, g1) + GroupFindings(vitals, g2)
          + GroupFindings(vitals, g3) + GroupFindings(vitals, g4) + GroupFindings(vitals, g5)
          + GroupFindings(vitals, g6) + GroupFindings(vitals, g7) + GroupFindings(vitals, g8)
  {
    var done: seq<Group>, acc: seq<string> := [], [];
    TableFindingsSnoc(vitals, done, g0); done, acc := done + [g0], acc + GroupFindings(vitals, g0);
    TableFindingsSnoc(vitals, done, g1); done, acc := done + [g1], acc + GroupFindings(vitals, g1);
    TableFindingsSnoc(vitals, done, g2); done, acc := done + [g2], acc + GroupFindings(vitals, g2);
    TableFindingsSnoc(vitals, done, g3); done, acc := done + [g3], acc + GroupFindings(vitals, g3);
    TableFindingsSnoc(vitals, done, g4); done, acc := done + [g4], acc + GroupFindings(vitals, g4);
    TableFindingsSnoc(vitals, done, g5); done, acc := done + [g5], acc + GroupFindings(vitals, g5);
    TableFindingsSnoc(vitals, done, g6); done, acc := done + [g6], acc + GroupFindings(vitals, g6);
    TableFindingsSnoc(vitals, done, g7); done, acc := done + [g7], acc + GroupFindings(vitals, g7);
    TableFindingsSnoc(vitals, done, g8); done, acc := done + [g8], acc + GroupFindings(vitals, g8);
    NineAppends(g0, g1, g2, g3, g4, g5, g6, g7, g8);
    assert [] + GroupFindings(vitals, g0) == GroupFindings(vitals, g0);
  }

  /** The ladder's findings are the nine checks' contributions, in order. */
  lemma LadderFindings(vitals: Dict)
    ensures TableFindings(vitals, Ladder)
         == GroupFindings(vitals, IcaPsvRule) + GroupFindings(vitals, IcaEdvRule) + GroupFindings(vitals, IcaImtRule)
          + GroupFindings(vitals, CcaPsvRule) + GroupFindings(vitals, CcaEdvRule) + GroupFindings(vitals, CcaImtRule)
          + GroupFindings(vitals, EcaPsvRule) + GroupFindings(vitals, EcaEdvRule) + GroupFindings(vitals, RatioRule)
  {
    NineGroups(vitals, IcaPsvRule, IcaEdvRule, IcaImtRule, CcaPsvRule, CcaEdvRule, CcaImtRule, EcaPsvRule, EcaEdvRule, RatioRule);
  }

  /** The vitals of the "normal" test fixture: no value reaches a band. */
  const NormalVitals: Dict := [
    (Cca, JObj([(PsvKey, JNum(100.0)), (EdvKey, JNum(30.0)), (ImtKey, JNum(0.8))])),
    (Ica, JObj([(PsvKey, JNum(120.0)), (EdvKey, JNum(35.0)), (ImtKey, JNum(0.9))])),
    (Eca, JObj([(PsvKey, JNum(130.0)), (EdvKey, JNum(25.0))])),
    (RatioKey, JNum(1.2))]

  /** The vitals of the "severe" test fixture: every value past its most
      severe band. */
  const SevereVitals: Dict := [
    (Cca, JObj([(PsvKey, JNum(130.0)), (EdvKey, JNum(45.0)), (ImtKey, JNum(1.2))])),
    (Ica, JObj([(PsvKey, JNum(210.0)), (EdvKey, JNum(110.0)), (ImtKey, JNum(1.3))])),
    (Eca, JObj([(PsvKey, JNum(160.0)), (EdvKey, JNum(50.0))])),
    (RatioKey, JNum(4.5))]

  /** What each check reads in a record laid out as the fixtures. */
  lemma LayoutReadings(v: Dict)
    requires FixtureLayout(v)
    ensures Raw(v, IcaPsvRule.source) == v[1].1.fields[0].1 && Raw(v, IcaEdvRule.source) == v[1].1.fields[1].1
    ensures Raw(v, IcaImtRule.source) == v[1].1.fields[2].1
    ensures Raw(v, CcaPsvRule.source) == v[0].1.fields[0].1 && Raw(v, CcaEdvRule.source) == v[0].1.fields[1].1
    ensures Raw(v, CcaImtRule.source) == v[0].1.fields[2].1
    ensures Raw(v, EcaPsvRule.source) == v[2].1.fields[0].1 && Raw(v, EcaEdvRule.source) == v[2].1.fields[1].1
    ensures Raw(v, RatioRule.source) == v[3].1
  {
    FixtureLookups(v);
    PayloadLookups(v[0].1.fields);
    PayloadLookups(v[1].1.fields);
    PayloadLookups(v[2].1.fields);
  }

  /** A record laid out as the fixtures, all of whose values are numbers,
      is interpretable. */
  lemma LayoutInterpretable(v: Dict)
    requires FixtureLayout(v)
    requires Raw(v, IcaPsvRule.source).JNum? && Raw(v, IcaEdvRule.source).JNum? && Raw(v, IcaImtRule.source).JNum?
    requires Raw(v, CcaPsvRule.source).JNum? && Raw(v, CcaEdvRule.source).JNum? && Raw(v, CcaImtRule.source).JNum?
    requires Raw(v, EcaPsvRule.source).JNum? && Raw(v, EcaEdvRule.source).JNum? && Raw(v, RatioRule.source).JNum?
    ensures Interpretable([("vitals", JObj(v))])
  {
    assert Ladder == [IcaPsvRule, IcaEdvRule, IcaImtRule, CcaPsvRule, CcaEdvRule, CcaImtRule, EcaPsvRule, EcaEdvRule, RatioRule];
    assert VitalsOf([("vitals", JObj(v))]) == v;
    FixtureLookups(v);
  }

  /** The normal fixture is a record `interpret_vitals` accepts. */
  lemma NormalInterpretable()
    ensures Interpretable([("vitals", JObj(NormalVitals))])
  {
    assert FixtureLayout(NormalVitals);
    LayoutReadings(NormalVitals);
    LayoutInterpretable(NormalVitals);
  }

  /** The severe fixture is a record `interpret_vitals` accepts. */
  lemma SevereInterpretable()
    ensures Interpretable([("vitals", JObj(SevereVitals))])
  {
    assert FixtureLayout(SevereVitals);
    LayoutReadings(SevereVitals);
    LayoutInterpretable(SevereVitals);
  }

  /** The normal fixture gives no findings. */
  lemma NormalFixture()
    ensures Interpretation([("vitals", JObj(NormalVitals))]) == []
  {
    var v := NormalVitals;
    assert FixtureLayout(v);
    LayoutReadings(v);
    assert VitalsOf([("vitals", JObj(v))]) == v;
    LadderFindings(v);
    IcaPsvBands(v);
    IcaEdvBands(v);
    ImtBands(v);
    VelocityBands(v);
    RatioBands(v);
    assert Reading(v, IcaPsvRule.source) == Some(120.0) && Reading(v, IcaEdvRule.source) == Some(35.0);
    assert Reading(v, IcaImtRule.source) == Some(0.9);
    assert Reading(v, CcaPsvRule.source) == Some(100.0) && Reading(v, CcaEdvRule.source) == Some(30.0);
    assert Reading(v, CcaImtRule.source) == Some(0.8);
    assert Reading(v, EcaPsvRule.source) == Some(130.0) && Reading(v, EcaEdvRule.source) == Some(25.0);
    assert Reading(v, RatioRule.source) == Some(1.2);
  }

  /** The severe fixture gives the nine most severe messages, in ladder
      order, so every finding is one the test expects. */
  lemma SevereFixture()
    ensures Interpretation([("vitals", JObj(SevereVitals))])
         == [SevereIcaPsv, SevereIcaEdv, ElevatedIcaImt, ElevatedCcaPsv, ElevatedCcaEdv, ElevatedCcaImt,
             ElevatedEcaPsv, ElevatedEcaEdv, SevereRatio]
  {
    var v := SevereVitals;
    assert FixtureLayout(v);
    LayoutReadings(v);
    assert VitalsOf([("vitals", JObj(v))]) == v;
    LadderFindings(v);
    IcaPsvBands(v);
    IcaEdvBands(v);
    ImtBands(v);
    VelocityBands(v);
    RatioBands(v);
    assert Reading(v, IcaPsvRule.source) == Some(210.0) && Reading(v, IcaEdvRule.source) == Some(110.0);
    assert Reading(v, IcaImtRule.source) == Some(1.3);
    assert Reading(v, CcaPsvRule.source) == Some(130.0) && Reading(v, CcaEdvRule.source) == Some(45.0);
    assert Reading(v, CcaImtRule.source) == Some(1.2);
    assert Reading(v, EcaPsvRule.source) == Some(160.0) && Reading(v, EcaEdvRule.source) == Some(50.0);
    assert Reading(v, RatioRule.source) == Some(4.5);
    assert GroupFindings(v, IcaPsvRule) == [SevereIcaPsv] && GroupFindings(v, IcaEdvRule) == [SevereIcaEdv];
    assert GroupFindings(v, IcaImtRule) == [ElevatedIcaImt];
    assert GroupFindings(v, CcaPsvRule) == [ElevatedCcaPsv] && GroupFindings(v, CcaEdvRule) == [ElevatedCcaEdv];
    assert GroupFindings(v, CcaImtRule) == [ElevatedCcaImt];
    assert GroupFindings(v, EcaPsvRule) == [ElevatedEcaPsv] && GroupFindings(v, EcaEdvRule) == [ElevatedEcaEdv];
    assert GroupFindings(v, RatioRule) == [SevereRatio];
    NineAppends(SevereIcaPsv, SevereIcaEdv, ElevatedIcaImt, ElevatedCcaPsv, ElevatedCcaEdv, ElevatedCcaImt,
                ElevatedEcaPsv, ElevatedEcaEdv, SevereRatio);
    assert [] + [SevereIcaPsv] == [SevereIcaPsv];
  }

  /** The three risk levels of `classify_risk`. */
  datatype RiskLevel = High | Moderate | Normal

  /** The label the code returns for a level. */
  function RiskLabel(level: RiskLevel): string
  {
    match level
    case High => "High"
    case Moderate => "Moderate"
    case Normal => "Normal"
  }

  /** A finding mentions a keyword, ignoring case. */
  predicate Mentions(finding: string, keyword: string)
  {
    Contains(Lower(finding), keyword)
  }

  /** Searching the lower-cased, space-joined text for a keyword without a
      space is searching each finding: the join cannot make a keyword out of
      the end of one finding and the start of the next. */
  lemma KeywordInJoinedText(findings: seq<string>, keyword: string)
    requires keyword != [] && forall k :: 0 <= k < |keyword| ==> keyword[k] != ' '
    ensures Contains(Lower(Join(findings, " ")), keyword)
        <==> exists i :: 0 <= i < |findings| && Mentions(findings[i], keyword)
  {
    var lowered := LowerAll(findings);
    LowerJoin(findings, ' ');
    ContainsJoin(lowered, ' ', keyword);
    if exists i :: 0 <= i < |lowered| && Contains(lowered[i], keyword) {
      var i :| 0 <= i < |lowered| && Contains(lowered[i], keyword);
      assert Mentions(findings[i], keyword);
    }
  }

  /** `classify_risk`: "severe" anywhere is High; otherwise "moderate",
      "elevated" or "mildly" anywhere is Moderate; otherwise Normal. */
  function ClassifyRisk(findings: seq<string>): (level: RiskLevel)
    ensures level == High <==> exists i :: 0 <= i < |findings| && Mentions(findings[i], "severe")
    ensures level == Moderate <==>
      (forall i :: 0 <= i < |findings| ==> !Mentions(findings[i], "severe"))
      && exists i :: 0 <= i < |findings|
           && (Mentions(findings[i], "moderate") || Mentions(findings[i], "elevated") || Mentions(findings[i], "mildly"))
    ensures findings == [] ==> level == Normal
  {
    var text := Lower(Join(findings, " "));
    KeywordInJoinedText(findings, "severe");
    KeywordInJoinedText(findings, "moderate");
    KeywordInJoinedText(findings, "elevated");
    KeywordInJoinedText(findings, "mildly");
    if Contains(text, "severe") then High
    else if Contains(text, "moderate") || Contains(text, "elevated") || Contains(text, "mildly") then Moderate
    else Normal
  }

  /** The classifier on the test's severe case, and on the findings of the
      severe fixture: both are High. */
  lemma SevereIsHigh()
    ensures RiskLabel(ClassifyRisk([SevereIcaPsv])) == "High"
    ensures RiskLabel(ClassifyRisk(Interpretation([("vitals", JObj(SevereVitals))]))) == "High"
  {
    assert Lower(SevereIcaPsv)[0..6] == "severe";
    assert OccursAt(Lower(SevereIcaPsv), "severe", 0);
    SevereFixture();
    assert Interpretation([("vitals", JObj(SevereVitals))])[0] == SevereIcaPsv;
  }

  /** The finding of the classifier's "Normal" test case. */
  const NormalText: string := "No significant findings, or Normal findings"

  /** The "Normal" test finding has no "e" in either case. */
  lemma NormalTextLacksE()
    ensures 'e' !in NormalText && 'E' !in NormalText
  {
  }

  /** The "Normal" test finding has no "y" in either case. */
  lemma NormalTextLacksY()
    ensures 'y' !in NormalText && 'Y' !in NormalText
  {
  }

  /** The classifier on the test's "Normal" case: a finding that mentions
      none of the keywords. */
  lemma NormalTextIsNormal()
    ensures RiskLabel(ClassifyRisk([NormalText])) == "Normal"
  {
    var l := Lower(NormalText);
    NormalTextLacksE();
    NormalTextLacksY();
    LowerLacks(NormalText, 'e');
    LowerLacks(NormalText, 'y');
    MissingChar(l, "severe", 1);
    MissingChar(l, "moderate", 7);
    MissingChar(l, "elevated", 0);
    MissingChar(l, "mildly", 5);
  }

  /** The second finding of the classifier's "Moderate" test case, as its
      two halves around one space. */
  const ModerateTextHead: string := "Elevated CCA PSV (>125 cm/s), Mildly"
  const ModerateTextTail: string := "elevated ICA/CCA ratio."

  /** The message of the first finding of the "Moderate" test case, split
      after its first word. */
  const ModerateIcaPsvTail: string := "ICA PSV, stenosis (50-69%)"

  lemma ModerateIcaPsvParts()
    ensures ModerateIcaPsv == "Moderate" + " " + ModerateIcaPsvTail
  {
  }

  /** The letters that keep "severe" out of the "Moderate" test case's
      findings, each missing from one part in both cases. */
  lemma ModeratePartLetters()
    ensures 's' !in "Moderate" && 'S' !in "Moderate"
  {
  }

  lemma ModerateIcaPsvTailLetters()
    ensures 'r' !in ModerateIcaPsvTail && 'R' !in ModerateIcaPsvTail
  {
  }

  lemma ModerateTextHeadLetters()
    ensures 'r' !in ModerateTextHead && 'R' !in ModerateTextHead
  {
  }

  lemma ModerateTextTailLetters()
    ensures 's' !in ModerateTextTail && 'S' !in ModerateTextTail
  {
  }

  /** The first finding of the "Moderate" test case mentions "moderate"
      but not "severe": "Moderate" has no "s", the rest no "r". */
  lemma ModerateIcaPsvMentions()
    ensures Mentions(ModerateIcaPsv, "moderate")
    ensures !Mentions(ModerateIcaPsv, "severe")
  {
    ModerateIcaPsvParts();
    ModeratePartLetters();
    ModerateIcaPsvTailLetters();
    MissingAcrossSpace("Moderate", ModerateIcaPsvTail, "severe", 0, 4);
    var l := Lower(ModerateIcaPsv);
    LowerAppend("Moderate", " " + ModerateIcaPsvTail);
    assert "Moderate" + " " + ModerateIcaPsvTail == "Moderate" + (" " + ModerateIcaPsvTail);
    assert Lower("Moderate") == "moderate";
    assert l[0..8] == "moderate";
    assert OccursAt(l, "moderate", 0);
  }

  /** The second finding of the "Moderate" test case does not mention
      "severe": its head has no "r", its tail no "s". */
  lemma ModerateTextNotSevere()
    ensures !Mentions(ModerateTextHead + " " + ModerateTextTail, "severe")
  {
    ModerateTextHeadLetters();
    ModerateTextTailLetters();
    MissingAcrossSpace(ModerateTextHead, ModerateTextTail, "severe", 4, 0);
  }

  /** The classifier on the test's "Moderate" case: two findings that
      mention "moderate", "elevated" and "mildly" but not "severe". */
  lemma ModerateTextIsModerate()
    ensures RiskLabel(ClassifyRisk([ModerateIcaPsv, ModerateTextHead + " " + ModerateTextTail])) == "Moderate"
  {
    var f0, f1 := ModerateIcaPsv, ModerateTextHead + " " + ModerateTextTail;
    ModerateIcaPsvMentions();
    ModerateTextNotSevere();
    assert Mentions([f0, f1][0], "moderate");
    assert forall i :: 0 <= i < 2 ==> !Mentions([f0, f1][i], "severe");
  }
}
