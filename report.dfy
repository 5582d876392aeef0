/** The report model of the manual pipeline
    (manual_coding/src/report_generator.py): the vessel sections with their
    formatted rows, the derived ratio row, and the model handed to the
    template. */
module ReportModel {
  import opened Values
  import opened Vitals
  import opened Text

  /** A row of a section table. */
  datatype Row = Row(metric: string, value: string, unit: string)

  /** A vessel's table. */
  datatype Section = Section(name: string, rows: seq<Row>)

  /** The dict `build_report_model` returns. */
  datatype Model = Model(
    patientId: Json,
    patientName: Json,
    examDate: Json,
    sections: seq<Section>,
    derived: seq<Row>,
    findings: seq<string>,
    riskLevel: string)

  predicate IsDigit(c: char) { '0' <= c <= '9' }

  /** The trim of `_fmt`: `s.rstrip('0').rstrip('.')`. */
  function TrimDecimal(s: string): (r: string)
    ensures r <= s
    ensures r == [] || r[|r| - 1] != '.'
  {
    RStrip(RStrip(s, '0'), '.')
  }

  /** On a two-decimal rendering `w.d1d2` whose integer part ends in a
      digit, the trim drops trailing zero decimals and then a bare point,
      and never touches the integer part. */
  lemma TrimTwoDecimals(w: string, d1: char, d2: char)
    requires w != [] && IsDigit(w[|w| - 1]) && IsDigit(d1) && IsDigit(d2)
    ensures TrimDecimal(w + "." + [d1, d2])
         == if d2 != '0' then w + "." + [d1, d2]
            else if d1 != '0' then w + "." + [d1]
            else w
  {
    var s := w + "." + [d1, d2];
    var one := w + "." + [d1];
    var point := w + ".";
    assert s[..|s| - 1] == one && one[..|one| - 1] == point && point[..|point| - 1] == w;
    if d2 != '0' {
      assert RStrip(s, '0') == s;
    } else if d1 != '0' {
      assert RStrip(s, '0') == RStrip(one, '0') == one;
    } else {
      assert RStrip(s, '0') == RStrip(one, '0') == RStrip(point, '0') == point;
      assert RStrip(point, '.') == RStrip(w, '.') == w;
    }
  }

  /** The trim on the renderings the tests show. */
  lemma TrimExamples()
    ensures TrimDecimal("100.00") == "100"
    ensures TrimDecimal("0.00") == "0"
    ensures TrimDecimal("3.10") == "3.1"
    ensures TrimDecimal("1.25") == "1.25"
  {
    TrimTwoDecimals("100", '0', '0');
    assert "100.00" == "100" + "." + ['0', '0'];
    TrimTwoDecimals("0", '0', '0');
    assert "0.00" == "0" + "." + ['0', '0'];
    TrimTwoDecimals("3", '1', '0');
    assert "3.10" == "3" + "." + ['1', '0'];
    assert "3.1" == "3" + "." + ['1'];
    TrimTwoDecimals("1", '2', '5');
    assert "1.25" == "1" + "." + ['2', '5'];
  }

  /** `_fmt(v)` for a number, `render` standing for `f"{v:.2f}"`. */
  function Fmt(v: real, render: real -> string): string
  {
    TrimDecimal(render(v))
  }

  /** `_unit_for(metric)`: velocities in cm/s, thicknesses in mm, anything
      else unitless; a name with both a velocity and "imt" is a velocity. */
  function UnitFor(metric: string): (unit: string)
    ensures unit == "cm/s" <==> Contains(metric, "psv") || Contains(metric, "edv")
    ensures unit == "mm" <==> !Contains(metric, "psv") && !Contains(metric, "edv") && Contains(metric, "imt")
    ensures unit == "" <==> !Contains(metric, "psv") && !Contains(metric, "edv") && !Contains(metric, "imt")
  {
    if Contains(metric, "psv") || Contains(metric, "edv") then "cm/s"
    else if Contains(metric, "imt") then "mm"
    else ""
  }

  /** The units of the record's metric keys. */
  lemma MetricKeyUnits()
    ensures UnitFor(PsvKey) == "cm/s" && UnitFor(EdvKey) == "cm/s" && UnitFor(ImtKey) == "mm"
  {
    assert OccursAt(PsvKey, "psv", 0);
    assert OccursAt(EdvKey, "edv", 0);
    assert OccursAt(ImtKey, "imt", 0);
    MissingChar(ImtKey, "psv", 0);
    MissingChar(ImtKey, "edv", 0);
  }

  /** The fixed section order of the report. */
  const SectionNames: seq<string> := [Ica, Cca, Eca]

  /** The label of the derived ratio row. */
  const RatioLabel: string := "ICA/CCA Ratio"

  /** Every value of a payload can be formatted: `f"{v:.2f}"` accepts
      numbers (and booleans) and raises on anything else. */
  predicate Numeric(p: Dict)
  {
    forall i :: 0 <= i < |p| ==> AsNumber(p[i].1).Some?
  }

  /** The metrics of a vessel: its payload's bindings, none when absent. */
  function Payload(vitals: Dict, name: string): Dict
  {
    Fields(Get(vitals, name, JNull))
  }

  /** `vitals.get(name).items()` and `_fmt` of each value succeed. */
  predicate VesselReportable(vitals: Dict, name: string)
  {
    Get(vitals, name, JNull).JObj? && Numeric(Payload(vitals, name))
  }

  /** What `_section_from_vitals` needs of its input: the three vessel
      payloads as objects of numbers, and a numeric `ica_cca_ratio` (a
      missing key raises, and so does a value that cannot be formatted). */
  predicate Reportable(vitals: Dict)
  {
    (forall k :: 0 <= k < |SectionNames| ==> VesselReportable(vitals, SectionNames[k]))
    && AsNumber(Get(vitals, RatioKey, JNull)).Some?
  }

  /** The row of one metric. */
  function RowOf(entry: (string, Json), render: real -> string): Row
    requires AsNumber(entry.1).Some?
  {
    Row(entry.0, Fmt(AsNumber(entry.1).value, render), UnitFor(entry.0))
  }

  /** The rows of a payload: one per metric key, in the payload's order. */
  function RowsOf(p: Dict, render: real -> string): (rows: seq<Row>)
    requires Numeric(p)
    ensures |rows| == |p|
    ensures forall i :: 0 <= i < |p| ==> rows[i].metric == p[i].0 && rows[i] == RowOf(p[i], render)
  {
    if p == [] then [] else RowsOf(p[..|p| - 1], render) + [RowOf(p[|p| - 1], render)]
  }

  /** The sections of the named vessels, one per name, in the names' order. */
  function SectionsOf(vitals: Dict, names: seq<string>, render: real -> string): (sections: seq<Section>)
    requires forall k :: 0 <= k < |names| ==> Numeric(Payload(vitals, names[k]))
    ensures |sections| == |names|
    ensures forall k :: 0 <= k < |names| ==>
      sections[k].name == names[k] && sections[k].rows == RowsOf(Payload(vitals, names[k]), render)
  {
    if names == [] then []
    else
      var init, last := names[..|names| - 1], names[|names| - 1];
      assert forall k :: 0 <= k < |init| ==> init[k] == names[k];
      SectionsOf(vitals, init, render) + [Section(last, RowsOf(Payload(vitals, last), render))]
  }

  /** The report's sections: exactly ICA, CCA and ECA, in that order, each
      with the rows of that vessel's metrics. */
  function Sections(vitals: Dict, render: real -> string): (sections: seq<Section>)
    requires Reportable(vitals)
    ensures |sections| == 3
    ensures sections[0].name == Ica && sections[1].name == Cca && sections[2].name == Eca
    ensures forall k :: 0 <= k < 3 ==> sections[k].rows == RowsOf(Payload(vitals, SectionNames[k]), render)
  {
    SectionsOf(vitals, SectionNames, render)
  }

  /** The derived-metrics list of the report: the ratio row alone. */
  function Derived(vitals: Dict, render: real -> string): seq<Row>
    requires Reportable(vitals)
  {
    [Row(RatioLabel, Fmt(AsNumber(Get(vitals, RatioKey, JNull)).value, render), "")]
  }

  /** The inner loop of `_section_from_vitals`: a row per metric of one
      payload, appended in the payload's order. */
  method PayloadRows(payload: Dict, render: real -> string) returns (rows: seq<Row>)
    requires Numeric(payload)
    ensures rows == RowsOf(payload, render)
  {
    rows := [];
    for j := 0 to |payload|
      invariant rows == RowsOf(payload[..j], render)
    {
      assert payload[..j + 1][..j] == payload[..j];
      rows := rows + [RowOf(payload[j], render)];
    }
    assert payload[..|payload|] == payload;
  }

  /** `_section_from_vitals(vitals)`: for each vessel in the fixed order, a
      row per metric of its payload, then the derived ratio row. */
  method SectionsFromVitals(vitals: Dict, render: real -> string) returns (sections: seq<Section>, derived: seq<Row>)
    requires Reportable(vitals)
    ensures sections == Sections(vitals, render)
    ensures derived == Derived(vitals, render)
  {
    sections := [];
    for s := 0 to |SectionNames|
      invariant sections == SectionsOf(vitals, SectionNames[..s], render)
    {
      var name := SectionNames[s];
      var rows := PayloadRows(Get(vitals, name, JNull).fields, render);
      assert SectionNames[..s + 1][..s] == SectionNames[..s];
      sections := sections + [Section(name, rows)];
    }
    assert SectionNames[..|SectionNames|] == SectionNames;
    var ratio := Get(vitals, RatioKey, JNull);
    derived := [Row(RatioLabel, Fmt(AsNumber(ratio).value, render), "")];
  }

  /** `build_report_model(patient, findings, risk_level)`: the patient's
      identity, `timestamp` as the exam date, the sections and derived rows,
      and the findings and risk level passed through unchanged. */
  method BuildReportModel(patient: Dict, findings: seq<string>, riskLevel: string, render: real -> string)
    returns (model: Model)
    requires Get(patient, "vitals", JNull).JObj? && Reportable(Get(patient, "vitals", JNull).fields)
    ensures model.patientId == Get(patient, "patient_id", JNull)
    ensures model.patientName == Get(patient, "name", JNull)
    ensures model.examDate == Get(patient, "timestamp", JNull)
    ensures model.sections == Sections(Get(patient, "vitals", JNull).fields, render)
    ensures model.derived == Derived(Get(patient, "vitals", JNull).fields, render)
    ensures model.findings == findings && model.riskLevel == riskLevel
  {
    var vitals := Get(patient, "vitals", JNull).fields;
    var sections, derived := SectionsFromVitals(vitals, render);
    model := Model(
      Get(patient, "patient_id", JNull),
      Get(patient, "name", JNull),
      Get(patient, "timestamp", JNull),
      sections, derived, findings, riskLevel);
  }

  /** The vitals of the report generator's test patient. */
  const SampleVitals: Dict := [
    (Cca, JObj([(PsvKey, JNum(149.3)), (EdvKey, JNum(20.7)), (ImtKey, JNum(0.67))])),
    (Ica, JObj([(PsvKey, JNum(195.5)), (EdvKey, JNum(31.7)), (ImtKey, JNum(0.89))])),
    (Eca, JObj([(PsvKey, JNum(58.9)), (EdvKey, JNum(23.0))])),
    (RatioKey, JNum(1.31))]

  /** On the test patient: the ICA section lists PSV, EDV and IMT with
      their units, the ECA section has two rows, and the derived row shows
      the ratio as "1.31" when it renders as "1.31". */
  lemma SampleSections(render: real -> string)
    requires render(1.31) == "1.31"
    ensures Reportable(SampleVitals)
    ensures |Sections(SampleVitals, render)[0].rows| == 3
    ensures |Sections(SampleVitals, render)[1].rows| == 3
    ensures |Sections(SampleVitals, render)[2].rows| == 2
    ensures Sections(SampleVitals, render)[0].rows[0].metric == PsvKey
    ensures Sections(SampleVitals, render)[0].rows[0].unit == "cm/s"
    ensures Sections(SampleVitals, render)[0].rows[2].metric == ImtKey
    ensures Sections(SampleVitals, render)[0].rows[2].unit == "mm"
    ensures Derived(SampleVitals, render)[0].value == "1.31"
  {
    var v := SampleVitals;
    FixtureLookups(v);
    assert Payload(v, Ica) == v[1].1.fields;
    assert Payload(v, Cca) == v[0].1.fields;
    assert Payload(v, Eca) == v[2].1.fields;
    assert Reportable(v) by {
      assert VesselReportable(v, SectionNames[0]);
      assert VesselReportable(v, SectionNames[1]);
      assert VesselReportable(v, SectionNames[2]);
    }
    MetricKeyUnits();
    TrimTwoDecimals("1", '3', '1');
    assert "1.31" == "1" + "." + ['3', '1'];
  }
}
