/** The descriptive analysis of the assisted pipeline
    (ai_assisted_coding/analysis.py): per-metric series across vessels,
    their min/max/mean, the vessel with the highest PSV, the echoed ratio and
    a few notes. */
module Analysis {
  import opened Values
  import opened Vitals

  /** `StatTriple`: the summary of a non-empty series. */
  datatype StatTriple = StatTriple(min: real, max: real, mean: real)

  /** The result dict of `analyze`; `None` entries are `Option.None`. */
  datatype Report = Report(
    psv: Option<StatTriple>,
    edv: Option<StatTriple>,
    imt: Option<StatTriple>,
    highestPsvVessel: Option<string>,
    icaCcaRatio: Option<real>,
    notes: seq<string>)

  /** The value one vitals entry contributes to the series of `key`: none
      for the ratio entry, a payload that is not a dict, a missing key or a
      value that is not a number. */
  function EntryMetric(entry: (string, Json), key: string): (r: Option<real>)
    ensures r.Some? ==> entry.0 != RatioKey && entry.1.JObj? && HasKey(entry.1.fields, key)
  {
    if entry.0 == RatioKey then None
    else if entry.1.JObj? && HasKey(entry.1.fields, key) then AsNumber(Get(entry.1.fields, key, JNull))
    else None
  }

  /** The (vessel, value) pairs `_collect_metric` returns: each entry's
      contribution, in the order of the vitals dict. */
  function Collected(vitals: Dict, key: string): (pairs: seq<(string, real)>)
    ensures |pairs| <= |vitals|
    ensures forall p :: 0 <= p < |pairs| ==> pairs[p].0 != RatioKey
  {
    if vitals == [] then []
    else
      var init := Collected(vitals[..|vitals| - 1], key);
      var last := vitals[|vitals| - 1];
      match EntryMetric(last, key)
      case None => init
      case Some(x) => init + [(last.0, x)]
  }

  /** `_collect_metric(vitals, metric_key)` */
  method CollectMetric(vitals: Dict, key: string) returns (results: seq<(string, real)>)
    ensures results == Collected(vitals, key)
  {
    results := [];
    var i := 0;
    while i < |vitals|
      invariant 0 <= i <= |vitals|
      invariant results == Collected(vitals[..i], key)
    {
      var (vessel, payload) := vitals[i];
      assert vitals[..i + 1][..i] == vitals[..i];
      if vessel != RatioKey {
        if payload.JObj? && HasKey(payload.fields, key) {
          var val := Get(payload.fields, key, JNull);
          if val.JNum? || val.JBool? {
            results := results + [(vessel, AsNumber(val).value)];
          }
        }
      }
      i := i + 1;
    }
    assert vitals[..i] == vitals;
  }

  /** `idx` lists, in strictly rising order, exactly the entries that
      contribute a pair, each pair being that entry's vessel and value. */
  ghost predicate IsSources(vitals: Dict, key: string, idx: seq<nat>)
  {
    var pairs := Collected(vitals, key);
    |idx| == |pairs|
    && (forall p :: 0 <= p < |idx| ==>
          idx[p] < |vitals| && EntryMetric(vitals[idx[p]], key) == Some(pairs[p].1) && pairs[p].0 == vitals[idx[p]].0)
    && (forall p, q :: 0 <= p < q < |idx| ==> idx[p] < idx[q])
    && (forall i :: 0 <= i < |vitals| && EntryMetric(vitals[i], key).Some? ==> i in idx)
  }

  /** The sources of a prefix extend by the last entry when it contributes. */
  lemma SourcesSnoc(vitals: Dict, key: string, idx: seq<nat>)
    requires vitals != [] && IsSources(vitals[..|vitals| - 1], key, idx)
    ensures IsSources(vitals, key, if EntryMetric(vitals[|vitals| - 1], key).None? then idx else idx + [|vitals| - 1])
  {
    var init, last := vitals[..|vitals| - 1], vitals[|vitals| - 1];
    assert forall i :: 0 <= i < |init| ==> vitals[i] == init[i];
    if EntryMetric(last, key).Some? {
      var idx' := idx + [|vitals| - 1];
      var pairs := Collected(vitals, key);
      assert pairs == Collected(init, key) + [(last.0, EntryMetric(last, key).value)];
      forall p | 0 <= p < |idx'|
        ensures idx'[p] < |vitals| && EntryMetric(vitals[idx'[p]], key) == Some(pairs[p].1) && pairs[p].0 == vitals[idx'[p]].0
      {
        if p < |idx| {
          assert idx'[p] == idx[p] && pairs[p] == Collected(init, key)[p];
        }
      }
      forall p, q | 0 <= p < q < |idx'|
        ensures idx'[p] < idx'[q]
      {
        if q == |idx| {
          assert idx'[p] == idx[p] < |init|;
        }
      }
    }
  }

  /** Which entries the pairs came from: strictly rising indices, exactly
      the entries that contribute, each pair being that entry's vessel and
      value. */
  ghost function Sources(vitals: Dict, key: string): (idx: seq<nat>)
    ensures IsSources(vitals, key, idx)
  {
    if vitals == [] then []
    else
      var idx := Sources(vitals[..|vitals| - 1], key);
      SourcesSnoc(vitals, key, idx);
      if EntryMetric(vitals[|vitals| - 1], key).None? then idx else idx + [|vitals| - 1]
  }

  /** The values of the pairs, in order. */
  function Series(pairs: seq<(string, real)>): (values: seq<real>)
    ensures |values| == |pairs|
    ensures forall i :: 0 <= i < |pairs| ==> values[i] == pairs[i].1
  {
    seq(|pairs|, i requires 0 <= i < |pairs| => pairs[i].1)
  }

  function Sum(s: seq<real>): real
  {
    if s == [] then 0.0 else Sum(s[..|s| - 1]) + s[|s| - 1]
  }

  /** `min(values)` */
  function Min(s: seq<real>): (m: real)
    requires s != []
    ensures m in s && forall i :: 0 <= i < |s| ==> m <= s[i]
  {
    if |s| == 1 then s[0]
    else
      var m := Min(s[..|s| - 1]);
      assert forall i :: 0 <= i < |s| - 1 ==> s[i] == s[..|s| - 1][i];
      if s[|s| - 1] < m then s[|s| - 1] else m
  }

  /** `max(values)` */
  function Max(s: seq<real>): (m: real)
    requires s != []
    ensures m in s && forall i :: 0 <= i < |s| ==> s[i] <= m
  {
    if |s| == 1 then s[0]
    else
      var m := Max(s[..|s| - 1]);
      assert forall i :: 0 <= i < |s| - 1 ==> s[i] == s[..|s| - 1][i];
      if s[|s| - 1] > m then s[|s| - 1] else m
  }

  /** The sum of a series lies between its length times any lower bound
      and its length times any upper bound. */
  lemma {:induction false} SumBounds(s: seq<real>, lo: real, hi: real)
    requires forall i :: 0 <= i < |s| ==> lo <= s[i] <= hi
    ensures lo * |s| as real <= Sum(s) <= hi * |s| as real
  {
    if s != [] {
      var init := s[..|s| - 1];
      assert forall i :: 0 <= i < |init| ==> init[i] == s[i];
      SumBounds(init, lo, hi);
      assert lo * |s| as real == lo * |init| as real + lo;
      assert hi * |s| as real == hi * |init| as real + hi;
    }
  }

  /** Dividing by a positive count keeps the bounds. */
  lemma DivBounds(lo: real, hi: real, sum: real, n: real)
    requires n > 0.0 && lo * n <= sum <= hi * n
    ensures lo <= sum / n <= hi
  {
    assert sum / n - lo == (sum - lo * n) / n;
    assert hi - sum / n == (hi * n - sum) / n;
  }

  /** `_stats(values)`: none for an empty series; otherwise min, max and
      mean, the mean lying between the two extremes, which are values of
      the series. */
  function Stats(values: seq<real>): (r: Option<StatTriple>)
    ensures r.None? <==> values == []
    ensures r.Some? ==> r.value.min in values && r.value.max in values
    ensures r.Some? ==> forall i :: 0 <= i < |values| ==> r.value.min <= values[i] <= r.value.max
    ensures r.Some? ==> r.value.min <= r.value.mean <= r.value.max
  {
    if values == [] then None
    else
      var n := |values| as real;
      var lo, hi := Min(values), Max(values);
      SumBounds(values, lo, hi);
      DivBounds(lo, hi, Sum(values), n);
      Some(StatTriple(lo, hi, Sum(values) / n))
  }

  /** The index `max(pairs, key=value)` picks: the first pair with the
      largest value. */
  function FirstMaxIndex(pairs: seq<(string, real)>): (k: nat)
    requires pairs != []
    ensures k < |pairs|
    ensures forall i :: 0 <= i < |pairs| ==> pairs[i].1 <= pairs[k].1
    ensures forall i :: 0 <= i < k ==> pairs[i].1 < pairs[k].1
  {
    if |pairs| == 1 then 0
    else
      var k := FirstMaxIndex(pairs[..|pairs| - 1]);
      assert forall i :: 0 <= i < |pairs| - 1 ==> pairs[i] == pairs[..|pairs| - 1][i];
      if pairs[|pairs| - 1].1 > pairs[k].1 then |pairs| - 1 else k
  }

  /** `highest_psv_vessel`: none without PSV pairs, else the vessel of the
      first pair with the largest PSV. */
  function HighestVessel(pairs: seq<(string, real)>): (r: Option<string>)
    ensures r.None? <==> pairs == []
    ensures r.Some? ==>
              exists k :: 0 <= k < |pairs| && r.value == pairs[k].0
                && (forall i :: 0 <= i < |pairs| ==> pairs[i].1 <= pairs[k].1)
                && (forall i :: 0 <= i < k ==> pairs[i].1 < pairs[k].1)
  {
    if pairs == [] then None else Some(pairs[FirstMaxIndex(pairs)].0)
  }

  /** `ratio_val`: the ratio entry as a float when it is a number. */
  function RatioEcho(vitals: Dict): (r: Option<real>)
    ensures Get(vitals, RatioKey, JNull).JNum? ==> r == Some(Get(vitals, RatioKey, JNull).n)
    ensures !(Get(vitals, RatioKey, JNull).JNum? || Get(vitals, RatioKey, JNull).JBool?) ==> r.None?
  {
    AsNumber(Get(vitals, RatioKey, JNull))
  }

  /** The IMT note; its first word is kept apart so that `NotesDistinct` can
      read its first letters. */
  const ImtNote: string := "IMT " + "values summarized descriptively (no thresholds applied)."

  function HighestNote(vessel: string): string
  {
    "Highest PSV observed in: " + vessel + "."
  }

  /** `f"ICA/CCA PSV ratio (echoed): {ratio_val:.2f}."`, the two-decimal
      rendering given by `render`. */
  function RatioNote(ratio: real, render: real -> string): string
  {
    "ICA/CCA PSV ratio (echoed): " + render(ratio) + "."
  }

  /** The notes `analyze` writes, in its order. */
  function Notes(highest: Option<string>, ratio: Option<real>, imt: Option<StatTriple>, render: real -> string): seq<string>
  {
    (if highest.Some? && highest.value != "" then [HighestNote(highest.value)] else [])
    + (if ratio.Some? then [RatioNote(ratio.value, render)] else [])
    + (if imt.Some? then [ImtNote] else [])
  }

  /** The three kinds of note never coincide. */
  lemma NotesDistinct(vessel: string, ratio: real, render: real -> string)
    ensures HighestNote(vessel) != ImtNote && RatioNote(ratio, render) != ImtNote
    ensures HighestNote(vessel) != RatioNote(ratio, render)
  {
    assert HighestNote(vessel)[0] == 'H' && RatioNote(ratio, render)[0] == 'I';
    assert RatioNote(ratio, render)[1] == 'C' && ImtNote[1] == 'M';
  }

  /** At most three notes, in the order highest vessel, ratio, IMT; each is
      there iff its condition holds. A vessel named by the empty string is
      falsy and gets no note. */
  lemma NotesShape(highest: Option<string>, ratio: Option<real>, imt: Option<StatTriple>, render: real -> string)
    ensures var notes := Notes(highest, ratio, imt, render);
      |notes| <= 3
      && ((exists v :: HighestNote(v) in notes) <==> highest.Some? && highest.value != "")
      && ((exists x :: RatioNote(x, render) in notes) <==> ratio.Some?)
      && (ImtNote in notes <==> imt.Some?)
    ensures var notes := Notes(highest, ratio, imt, render);
      highest.Some? && highest.value != "" ==> notes[0] == HighestNote(highest.value)
    ensures var notes := Notes(highest, ratio, imt, render);
      imt.Some? ==> notes[|notes| - 1] == ImtNote
  {
    var notes := Notes(highest, ratio, imt, render);
    var h := if highest.Some? && highest.value != "" then [HighestNote(highest.value)] else [];
    var r := if ratio.Some? then [RatioNote(ratio.value, render)] else [];
    var m := if imt.Some? then [ImtNote] else [];
    assert notes == h + r + m;
    forall v | HighestNote(v) in notes ensures h != [] {
      if ratio.Some? {
        NotesDistinct(v, ratio.value, render);
      }
      NotesDistinct(v, 0.0, render);
    }
    forall x | RatioNote(x, render) in notes ensures r != [] {
      if highest.Some? {
        NotesDistinct(highest.value, x, render);
      }
      NotesDistinct([], x, render);
    }
    if ImtNote in notes {
      if highest.Some? {
        NotesDistinct(highest.value, 0.0, render);
      }
      if ratio.Some? {
        NotesDistinct([], ratio.value, render);
      }
    }
  }

  /** The notes block of `analyze`: one append per condition. */
  method WriteNotes(highest: Option<string>, ratio: Option<real>, imt: Option<StatTriple>, render: real -> string)
    returns (notes: seq<string>)
    ensures notes == Notes(highest, ratio, imt, render)
  {
    notes := [];
    if highest.Some? && highest.value != "" {
      notes := notes + [HighestNote(highest.value)];
    }
    ghost var h := notes;
    if ratio.Some? {
      notes := notes + [RatioNote(ratio.value, render)];
    }
    assert notes == h + if ratio.Some? then [RatioNote(ratio.value, render)] else [];
    if imt.Some? {
      notes := notes + [ImtNote];
    }
  }

  /** What `analyze` returns for a record whose "vitals" entry, if any, is
      a dict. */
  function AnalysisOf(data: Dict, render: real -> string): Report
  {
    var vitals := Fields(Get(data, "vitals", JObj([])));
    var psvPairs := Collected(vitals, PsvKey);
    var imt := Stats(Series(Collected(vitals, ImtKey)));
    var highest := HighestVessel(psvPairs);
    var ratio := RatioEcho(vitals);
    Report(Stats(Series(psvPairs)), Stats(Series(Collected(vitals, EdvKey))), imt,
           highest, ratio, Notes(highest, ratio, imt, render))
  }

  /** `analyze(data)`; the code calls `.items()` on the "vitals" entry, so
      that entry, when present, must be a dict. */
  method Analyze(data: Dict, render: real -> string) returns (r: Report)
    requires Get(data, "vitals", JObj([])).JObj?
    ensures r == AnalysisOf(data, render)
  {
    var vitals := Get(data, "vitals", JObj([])).fields;
    var psvPairs := CollectMetric(vitals, PsvKey);
    var edvPairs := CollectMetric(vitals, EdvKey);
    var imtPairs := CollectMetric(vitals, ImtKey);

    var psvStats := Stats(Series(psvPairs));
    var edvStats := Stats(Series(edvPairs));
    var imtStats := Stats(Series(imtPairs));

    var highest: Option<string> := None;
    if psvPairs != [] {
      highest := Some(psvPairs[FirstMaxIndex(psvPairs)].0);
    }
    assert highest == HighestVessel(psvPairs);

    var ratio := Get(vitals, RatioKey, JNull);
    var ratioVal: Option<real> := if ratio.JNum? || ratio.JBool? then AsNumber(ratio) else None;
    assert ratioVal == RatioEcho(vitals);

    var notes := WriteNotes(highest, ratioVal, imtStats, render);
    r := Report(psvStats, edvStats, imtStats, highest, ratioVal, notes);
  }

  /** One entry's pairs: its vessel and value when it contributes. */
  function EntryPairs(entry: (string, Json), key: string): seq<(string, real)>
  {
    match EntryMetric(entry, key)
    case None => []
    case Some(x) => [(entry.0, x)]
  }

  /** The last entry's pairs come last. */
  lemma CollectedLast(vitals: Dict, key: string)
    requires vitals != []
    ensures Collected(vitals, key) == Collected(vitals[..|vitals| - 1], key) + EntryPairs(vitals[|vitals| - 1], key)
  {
  }

  /** The pairs of a four-entry vitals dict are its entries' pairs, in order. */
  lemma CollectedFour(v: Dict, key: string)
    requires |v| == 4
    ensures Collected(v, key) == EntryPairs(v[0], key) + EntryPairs(v[1], key) + EntryPairs(v[2], key) + EntryPairs(v[3], key)
  {
    var e0, e1, e2, e3 := EntryPairs(v[0], key), EntryPairs(v[1], key), EntryPairs(v[2], key), EntryPairs(v[3], key);
    assert v[..1][..0] == [];
    CollectedLast(v[..1], key);
    var c1 := Collected(v[..1], key);
    assert c1 == e0;
    assert v[..2][..1] == v[..1];
    CollectedLast(v[..2], key);
    var c2 := Collected(v[..2], key);
    assert c2 == c1 + e1;
    assert v[..3][..2] == v[..2];
    CollectedLast(v[..3], key);
    var c3 := Collected(v[..3], key);
    assert c3 == c2 + e2;
    CollectedLast(v, key);
    assert Collected(v, key) == c3 + e3;
  }

  /** What an entry of the test layout contributes to each series. */
  lemma LayoutEntry(v: Dict, i: nat)
    requires FixtureLayout(v) && i < 3
    ensures EntryMetric(v[i], PsvKey) == AsNumber(v[i].1.fields[0].1)
    ensures EntryMetric(v[i], EdvKey) == AsNumber(v[i].1.fields[1].1)
    ensures EntryMetric(v[i], ImtKey) == if i < 2 then AsNumber(v[i].1.fields[2].1) else None
    ensures EntryMetric(v[3], PsvKey).None? && EntryMetric(v[3], EdvKey).None? && EntryMetric(v[3], ImtKey).None?
  {
    var p := v[i].1.fields;
    assert v[i].0[0] != RatioKey[0];
    PayloadLookups(p);
    assert HasKey(p, PsvKey) && HasKey(p, EdvKey) by {
      assert p[0].0 == PsvKey && p[1].0 == EdvKey;
    }
    if i < 2 {
      assert p[2].0 == ImtKey;
    } else {
      assert !HasKey(p, ImtKey) by {
        assert ImtKey[0] != PsvKey[0] && ImtKey[0] != EdvKey[0];
      }
    }
  }

  /** The vitals of the analysis test record. */
  const SampleVitals: Dict := [
    (Cca, JObj([(PsvKey, JNum(100.0)), (EdvKey, JNum(20.0)), (ImtKey, JNum(0.5))])),
    (Ica, JObj([(PsvKey, JNum(150.0)), (EdvKey, JNum(30.0)), (ImtKey, JNum(0.7))])),
    (Eca, JObj([(PsvKey, JNum(60.0)), (EdvKey, JNum(25.0))])),
    (RatioKey, JNum(1.23))]

  /** The series of the test record. */
  lemma SampleSeries()
    ensures Collected(SampleVitals, PsvKey) == [(Cca, 100.0), (Ica, 150.0), (Eca, 60.0)]
    ensures Series(Collected(SampleVitals, EdvKey)) == [20.0, 30.0, 25.0]
    ensures Series(Collected(SampleVitals, ImtKey)) == [0.5, 0.7]
  {
    var v := SampleVitals;
    assert FixtureLayout(v);
    LayoutEntry(v, 0);
    LayoutEntry(v, 1);
    LayoutEntry(v, 2);
    CollectedFour(v, PsvKey);
    CollectedFour(v, EdvKey);
    CollectedFour(v, ImtKey);
  }

  /** The PSV summary of the test record. */
  lemma SamplePsvStats()
    ensures Stats(Series(Collected(SampleVitals, PsvKey))) == Some(StatTriple(60.0, 150.0, 310.0 / 3.0))
  {
    SampleSeries();
    SamplePsvExtremes();
    assert Series(Collected(SampleVitals, PsvKey)) == [100.0, 150.0, 60.0];
  }

  /** The extremes and the sum of the test record's PSV series. */
  lemma SamplePsvExtremes()
    ensures var s := [100.0, 150.0, 60.0];
      Min(s) == 60.0 && Max(s) == 150.0 && Sum(s) == 310.0
  {
    var s := [100.0, 150.0, 60.0];
    assert s[..2] == [100.0, 150.0] && s[..2][..1] == [100.0];
    assert [100.0][..0] == [];
    assert Sum([100.0]) == 100.0 && Sum([100.0, 150.0]) == 250.0;
  }

  /** The vessel with the highest PSV in the test record. */
  lemma SampleHighest()
    ensures HighestVessel(Collected(SampleVitals, PsvKey)) == Some(Ica)
  {
    SampleSeries();
    var psv := Collected(SampleVitals, PsvKey);
    assert psv[..2] == [(Cca, 100.0), (Ica, 150.0)] && psv[..2][..1] == [(Cca, 100.0)];
    assert FirstMaxIndex(psv) == 1;
  }

  /** The EDV and IMT extremes of the test record. */
  lemma SampleEdvImt()
    ensures var edv := Stats(Series(Collected(SampleVitals, EdvKey)));
      edv.Some? && edv.value.min == 20.0 && edv.value.max == 30.0
    ensures var imt := Stats(Series(Collected(SampleVitals, ImtKey)));
      imt.Some? && imt.value.min == 0.5 && imt.value.max == 0.7
  {
    SampleSeries();
    var edv := [20.0, 30.0, 25.0];
    assert edv[..2] == [20.0, 30.0] && edv[..2][..1] == [20.0];
    assert Min(edv) == 20.0 && Max(edv) == 30.0;
    var imt := [0.5, 0.7];
    assert imt[..1] == [0.5];
    assert Min(imt) == 0.5 && Max(imt) == 0.7;
  }

  /** The analysis test: PSV from 60 to 150 with mean 310/3, EDV from 20
      to 30, IMT from 0.5 to 0.7, the highest PSV in ICA, the ratio echoed,
      and a note naming the highest vessel. */
  lemma SampleAnalysis(render: real -> string)
    ensures var a := AnalysisOf([("vitals", JObj(SampleVitals))], render);
      a.psv == Some(StatTriple(60.0, 150.0, 310.0 / 3.0))
      && a.edv.Some? && a.edv.value.min == 20.0 && a.edv.value.max == 30.0
      && a.imt.Some? && a.imt.value.min == 0.5 && a.imt.value.max == 0.7
      && a.highestPsvVessel == Some(Ica)
      && a.icaCcaRatio == Some(1.23)
      && HighestNote(Ica) in a.notes
  {
    var v := SampleVitals;
    assert Fields(Get([("vitals", JObj(v))], "vitals", JObj([]))) == v;
    SamplePsvStats();
    SampleHighest();
    SampleEdvImt();
    FixtureLookups(v);
    assert Ica != "";
  }
}
