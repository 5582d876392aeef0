# Carotid ultrasound report core, modelled in Dafny

This project models the decision logic of a small carotid-ultrasound
reporting system. A record holds per-vessel measurements: peak systolic
velocity (PSV), end-diastolic velocity (EDV) and intima-media thickness
(IMT) for the CCA, ICA and ECA. Beside them is a derived ICA/CCA ratio. The
system has two pipelines over such a record, and both are modelled here.

- **Manual pipeline** (`manual_coding/src`):
  - `interpret_vitals` walks a fixed ladder of thresholds and returns textual
    findings.
  - `classify_risk` reduces the findings to High, Moderate or Normal by
    keyword search.
  - `report_generator` builds the report model: vessel sections with
    formatted, unit-annotated rows, one derived ratio row, and the findings
    and risk level passed through.
- **Assisted pipeline** (`ai_assisted_coding`):
  - `analysis.analyze` computes descriptive statistics per metric: minimum,
    maximum, mean, the vessel with the highest PSV, the echoed ratio, and
    up to three notes.
  - `main.py` title-cases the patient name and builds the vitals table,
    ordered CCA, ICA, ECA and then any other vessel.

The modules:

| file | module | models |
|---|---|---|
| `values.dfy` | `Values`, `Vitals` | parsed JSON values, `dict.get`, truthiness, `isinstance(v, (int, float))`; the record's key names |
| `text.dfy` | `Text` | `str.lower`, `in` on strings, `" ".join`, `str.split()`, `str.capitalize`, `str.rstrip` |
| `interpreter.dfy` | `Interpreter` | `interpret_vitals`, `classify_risk` |
| `analysis.dfy` | `Analysis` | `_collect_metric`, `_stats`, `analyze` |
| `report.dfy` | `ReportModel` | `_fmt`'s trim, `_unit_for`, `_section_from_vitals`, `build_report_model` |
| `presentation.dfy` | `Presentation` | `_title_case_name`, `_vitals_rows` |

**`interpret_vitals`.** The method `InterpretVitals` follows the code block
by block: nine `if value:` checks, each an if/elif chain. Each block writes
out its thresholds and messages as the code does, and hands them to the
method `CheckValue`, which checks one value against one chain. Next to the
method, the rule table `Ladder` states the same rules as data: nine groups
of bands, each naming the vessel and metric it reads. The lemma
`TableLiterals` equates the table's bands with the literals the method
writes. The method is proved to return exactly the findings the table
prescribes. These properties are then proved about the table:
- bands within a group exclude each other;
- the exact cut-offs, with `>=` for IMT and `>` elsewhere;
- zero and absent values are silent;
- there are at most nine findings, in ladder order;
- the two test fixtures give the expected results.

**`classify_risk`.** It is modelled on the joined, lower-cased text, as the
code computes it. It is proved equivalent to a per-finding statement: High
exactly when some finding mentions "severe", and so on.

**The loops.** The loops of `_section_from_vitals` in the manual
pipeline are methods. So are the loops of `_collect_metric` and
`_vitals_rows` in the assisted pipeline. Each is proved equal to a recursive
specification function, and their properties are proved about those
functions.

Facts about the code that shape the model:
- The code does not degrade gracefully on every input. `interpret_vitals`
  dereferences "vitals", ICA, CCA and ECA without a guard. It also compares
  any truthy value with a number, which raises for a string.
  `_section_from_vitals` indexes `ica_cca_ratio` and formats every payload
  value. These crash conditions become the preconditions `Interpretable`
  and `Reportable`.
- `classify_risk` has three levels. The ratio's "mildly" keyword counts
  towards Moderate.
- The ratio is read from the record, never computed.

Observed in the code, and modelled as written: the ICA IMT message reads
"(>1.0 mm)", but its test is `>= 1.1`. The CCA IMT message reads the same,
but its test is `>= 1.0`, so exactly 1.0 fires.

## Model

| member | source | states |
|---|---|---|
| `Values.AsNumber` | ai_assisted_coding/analysis.py:33-34 | a value is numeric exactly when it is a JSON number or a boolean; a number reads as itself, `True`/`False` as 1.0/0.0 |
| `Values.GetFirst` | manual_coding/src/interpreter.py:11 | `d.get(k)` is the value of the binding of `k` |
| `Values.GetMissing` | manual_coding/src/interpreter.py:11 | `d.get(k, default)` is `default` when `k` is not bound |
| `Text.Lower` | manual_coding/src/interpreter.py:63 | lower-casing keeps the length and maps each character to its lower-case form |
| `Text.Join` | manual_coding/src/interpreter.py:63 | joining no parts gives the empty string; one part gives that part |
| `Text.LowerJoin` | manual_coding/src/interpreter.py:63 | lower-casing the joined findings equals joining the lower-cased findings |
| `Text.ContainsJoin` | manual_coding/src/interpreter.py:63-66 | a keyword without a space occurs in the space-joined text iff it occurs in one of the parts |
| `Text.Split` | ai_assisted_coding/main.py:17 | every piece `split()` yields is non-empty and free of whitespace |
| `Text.SplitJoin` | ai_assisted_coding/main.py:17 | splitting words joined by single spaces gives the words back |
| `Text.Capitalize` | ai_assisted_coding/main.py:17 | `capitalize` keeps the length, yields a capitalized word, and changes only letter case |
| `Text.CapitalizeFixed` | ai_assisted_coding/main.py:17 | a capitalized word is left unchanged by `capitalize` |
| `Text.CapitalizeWord` | ai_assisted_coding/main.py:17 | capitalizing a word introduces no whitespace |
| `Text.RStrip` | manual_coding/src/report_generator.py:11 | `rstrip(c)` returns a prefix that does not end in `c`, and everything removed is `c` |
| `Interpreter.Measured` | manual_coding/src/interpreter.py:12 | `if value:` lets no reading through for `None` or 0, and a nonzero number through as itself |
| `Interpreter.FirstBand` | manual_coding/src/interpreter.py:12-16 | an if/elif chain yields nothing iff no band passes, else the message of the first band that passes |
| `Interpreter.BandFindings` | manual_coding/src/interpreter.py:11-16 | one checked value yields at most one finding, and it is one of its group's messages |
| `Interpreter.TableFindings` | manual_coding/src/interpreter.py:3-60 | a rule table yields at most one finding per group |
| `Interpreter.CheckValue` | manual_coding/src/interpreter.py:12-16 | one `if value:` block appends exactly the finding its band chain prescribes |
| `Interpreter.InterpretableReads` | manual_coding/src/interpreter.py:6-52 | under the precondition, each of the nine values read can be compared with a threshold |
| `Interpreter.TableLiterals` | manual_coding/src/interpreter.py:11-58 | the rule table's bands are the thresholds, comparisons and messages the code writes in its nine blocks |
| `Interpreter.InterpretVitals` | manual_coding/src/interpreter.py:1-60 | `interpret_vitals`, with its blocks' literals, returns exactly the findings the rule table prescribes, in table order |
| `Interpreter.IcaPsvBands` | manual_coding/src/interpreter.py:11-16 | ICA PSV above 200 gives only the severe message, else above 125 only the moderate one, else nothing |
| `Interpreter.IcaEdvBands` | manual_coding/src/interpreter.py:18-23 | ICA EDV above 100 gives only the severe message, else above 40 only the moderate one, else nothing |
| `Interpreter.ImtBands` | manual_coding/src/interpreter.py:24-41 | ICA IMT fires at `>= 1.1` and CCA IMT at `>= 1.0`, both inclusive |
| `Interpreter.VelocityBands` | manual_coding/src/interpreter.py:29-50 | CCA PSV > 125, CCA EDV > 40, ECA PSV > 150, ECA EDV > 40, all strict |
| `Interpreter.RatioBands` | manual_coding/src/interpreter.py:52-58 | the ratio gives at most one message: severe above 4.0, else elevated above 2.0, else mild above 1.5 |
| `Interpreter.ThresholdBoundaries` | manual_coding/src/interpreter.py:13-31 | at the cut-offs: IMT 1.1 (ICA) and 1.0 (CCA) fire; ICA PSV 200 is only moderate; PSV 125 is silent |
| `Interpreter.SilentWithoutReadings` | manual_coding/src/interpreter.py:12-52 | groups whose values are all absent or zero contribute nothing |
| `Interpreter.SilentRecord` | manual_coding/src/interpreter.py:11-52 | a record whose nine values are all `None` or 0 yields no findings |
| `Interpreter.OriginsSnoc` | manual_coding/src/interpreter.py:3-60 | appending a rule group keeps every finding traceable to a strictly later group than the findings before it |
| `Interpreter.Origins` | manual_coding/src/interpreter.py:3-60 | every finding comes from a group, and the groups' indices rise strictly along the findings |
| `Interpreter.LadderOrder` | manual_coding/src/interpreter.py:3-60 | `interpret_vitals` gives at most nine findings, each from the ladder, in ladder order, no group twice |
| `Interpreter.LadderFindings` | manual_coding/src/interpreter.py:11-58 | the findings are the nine groups' contributions concatenated in the code's order |
| `Interpreter.NormalInterpretable` | manual_coding/tests/test_interpreter.py:10-17 | the normal test record meets the precondition |
| `Interpreter.SevereInterpretable` | manual_coding/tests/test_interpreter.py:18-25 | the severe test record meets the precondition |
| `Interpreter.NormalFixture` | manual_coding/tests/test_interpreter.py:27-29 | the normal test record yields no findings |
| `Interpreter.SevereFixture` | manual_coding/tests/test_interpreter.py:31-45 | the severe test record yields exactly the nine expected findings, in order |
| `Interpreter.KeywordInJoinedText` | manual_coding/src/interpreter.py:63-66 | a keyword occurs in the lower-cased joined text iff some finding mentions it |
| `Interpreter.ClassifyRisk` | manual_coding/src/interpreter.py:62-68 | High iff some finding mentions "severe"; Moderate iff none does and some mentions "moderate", "elevated" or "mildly"; no findings give Normal |
| `Interpreter.SevereIsHigh` | manual_coding/tests/test_interpreter.py:57-60 | the severe ICA PSV message alone is labelled "High", and so are the severe record's findings |
| `Interpreter.NormalTextIsNormal` | manual_coding/tests/test_interpreter.py:47-50 | "No significant findings, or Normal findings" is labelled "Normal" |
| `Interpreter.ModerateIcaPsvMentions` | manual_coding/tests/test_interpreter.py:53 | the moderate ICA PSV message mentions "moderate" and not "severe" |
| `Interpreter.ModerateTextNotSevere` | manual_coding/tests/test_interpreter.py:53 | the test's second "Moderate" finding does not mention "severe" |
| `Interpreter.ModerateTextIsModerate` | manual_coding/tests/test_interpreter.py:52-55 | the test's two findings are labelled "Moderate" |
| `Analysis.EntryMetric` | ai_assisted_coding/analysis.py:29-34 | an entry contributes only when it is not the ratio key and its payload is a dict holding the metric |
| `Analysis.Collected` | ai_assisted_coding/analysis.py:16-35 | the collected pairs never exceed the entries and never name the ratio key |
| `Analysis.CollectMetric` | ai_assisted_coding/analysis.py:16-35 | `_collect_metric`'s loop returns exactly the collected pairs |
| `Analysis.SourcesSnoc` | ai_assisted_coding/analysis.py:28-34 | one more entry extends the pairs' sources by that entry exactly when it contributes |
| `Analysis.Sources` | ai_assisted_coding/analysis.py:27-35 | the pairs are, in order, exactly the contributing entries' vessels and values |
| `Analysis.Series` | ai_assisted_coding/analysis.py:63-65 | the value list has one value per pair, in order |
| `Analysis.Min` | ai_assisted_coding/analysis.py:42 | `min` is an element of the series and no larger than any element |
| `Analysis.Max` | ai_assisted_coding/analysis.py:42 | `max` is an element of the series and no smaller than any element |
| `Analysis.Stats` | ai_assisted_coding/analysis.py:38-42 | absent iff the series is empty; otherwise min and max are values of the series, bound every value, and min <= mean <= max |
| `Analysis.FirstMaxIndex` | ai_assisted_coding/analysis.py:73 | `max(..., key=...)` picks a largest value, and the first one among ties |
| `Analysis.HighestVessel` | ai_assisted_coding/analysis.py:71-73 | no vessel iff there are no PSV pairs; otherwise the vessel of the first largest PSV |
| `Analysis.RatioEcho` | ai_assisted_coding/analysis.py:75-76 | the echoed ratio is the stored number when numeric, and absent when the value is not a number |
| `Analysis.NotesDistinct` | ai_assisted_coding/analysis.py:82-87 | the three kinds of note are different strings |
| `Analysis.NotesShape` | ai_assisted_coding/analysis.py:81-87 | at most three notes; each kind present iff its condition holds; the highest-vessel note first, the IMT note last |
| `Analysis.WriteNotes` | ai_assisted_coding/analysis.py:81-87 | the appends produce exactly the notes the conditions prescribe |
| `Analysis.Analyze` | ai_assisted_coding/analysis.py:45-96 | `analyze` returns the statistics, highest vessel, echoed ratio and notes of its record |
| `Analysis.SampleSeries` | ai_assisted_coding/tests/test_analysis.py:11-17 | the test record's PSV pairs are CCA 100, ICA 150, ECA 60; EDV and IMT series as given |
| `Analysis.SamplePsvStats` | ai_assisted_coding/tests/test_analysis.py:20-24 | the test record's PSV statistics are min 60, max 150, mean 310/3 |
| `Analysis.SampleHighest` | ai_assisted_coding/tests/test_analysis.py:31 | the test record's highest PSV vessel is ICA |
| `Analysis.SampleEdvImt` | ai_assisted_coding/tests/test_analysis.py:26-29 | the test record's EDV spans 20 to 30 and its IMT 0.5 to 0.7 |
| `Analysis.SampleAnalysis` | ai_assisted_coding/tests/test_analysis.py:10-33 | `analyze` on the test record gives these statistics, ICA, the ratio 1.23 and a "Highest PSV" note |
| `ReportModel.TrimDecimal` | manual_coding/src/report_generator.py:11 | the trim returns a prefix of its input that does not end in a point |
| `ReportModel.TrimTwoDecimals` | manual_coding/src/report_generator.py:11 | on `w.d1d2`, the trim drops a zero `d2`, then a zero `d1` with the point, and never touches the integer part |
| `ReportModel.TrimExamples` | manual_coding/tests/test_report_generator.py:45-47 | "100.00" trims to "100", "0.00" to "0", "3.10" to "3.1"; "1.25" is unchanged |
| `ReportModel.UnitFor` | manual_coding/src/report_generator.py:13-19 | "cm/s" iff the name contains "psv" or "edv"; "mm" iff not, but it contains "imt"; "" iff it contains none of them |
| `ReportModel.MetricKeyUnits` | manual_coding/tests/test_report_generator.py:50-52 | PSV and EDV keys are in cm/s, the IMT key in mm |
| `ReportModel.RowsOf` | manual_coding/src/report_generator.py:29-30 | one row per metric key of the payload, in its order, with that key's value and unit |
| `ReportModel.SectionsOf` | manual_coding/src/report_generator.py:26-31 | one section per vessel name, in order, holding that vessel's rows |
| `ReportModel.Sections` | manual_coding/src/report_generator.py:24-31 | exactly three sections, ICA, CCA and ECA in that order, each with its vessel's rows |
| `ReportModel.PayloadRows` | manual_coding/src/report_generator.py:28-30 | the inner loop appends exactly the payload's rows |
| `ReportModel.SectionsFromVitals` | manual_coding/src/report_generator.py:21-35 | `_section_from_vitals` returns the three sections and the single unitless "ICA/CCA Ratio" row |
| `ReportModel.BuildReportModel` | manual_coding/src/report_generator.py:37-49 | patient id and name copied, `timestamp` becomes the exam date, findings and risk level passed through unchanged |
| `ReportModel.SampleSections` | manual_coding/tests/test_report_generator.py:55-63 | on the test patient: rows 3/3/2, ICA rows PSV (cm/s) first and IMT (mm) last, ratio shown as "1.31" |
| `Presentation.CapitalizeAll` | ai_assisted_coding/main.py:17 | each word capitalized, the count kept |
| `Presentation.TitleCaseWords` | ai_assisted_coding/main.py:15-17 | the title-cased name splits into as many words as the input, each capitalized and equal to the input's word up to case |
| `Presentation.TitleCaseIdempotent` | ai_assisted_coding/main.py:15-17 | title-casing twice equals title-casing once |
| `Presentation.Rank` | ai_assisted_coding/main.py:34-35 | rank 0 iff CCA, 1 iff ICA, 2 iff ECA, otherwise 99 |
| `Presentation.Rows` | ai_assisted_coding/main.py:20-32 | the unsorted rows never exceed the entries and never name the ratio key |
| `Presentation.RowsFromQualifying` | ai_assisted_coding/main.py:22-32 | every row comes from a non-ratio entry with a dict payload, and every such entry has its row |
| `Presentation.WithRank` | ai_assisted_coding/main.py:35 | the rows of one rank, in order |
| `Presentation.Insert` | ai_assisted_coding/main.py:35 | insertion adds exactly the one row |
| `Presentation.InsertSorted` | ai_assisted_coding/main.py:35 | insertion keeps the rows sorted by rank |
| `Presentation.InsertWithRank` | ai_assisted_coding/main.py:35 | the inserted row goes ahead of its rank's rows; the other ranks are untouched |
| `Presentation.SortByRank` | ai_assisted_coding/main.py:35 | the sort yields rows sorted by rank, as a permutation, with each rank's rows in their input order (stable) |
| `Presentation.SortedIsRankClasses` | ai_assisted_coding/main.py:34-35 | a list sorted by rank is its CCA, ICA, ECA and other rows, concatenated |
| `Presentation.SortByRankIsGrouping` | ai_assisted_coding/main.py:34-35 | the sorted rows are the CCA rows, then ICA, then ECA, then the others, each group in input order |
| `Presentation.VitalsRows` | ai_assisted_coding/main.py:20-36 | `_vitals_rows` returns the rows of the qualifying entries, sorted by rank |
| `Presentation.VitalsRowsShape` | ai_assisted_coding/main.py:20-36 | no ratio row; exactly the rows of the qualifying entries, as a multiset; sorted; unknown vessels in input order |
| `Presentation.MissingMetricIsNull` | ai_assisted_coding/main.py:29-31 | a PSV, EDV or IMT key missing from the payload appears as `None` in that column of its row |

## Left out

- The I/O around the core is not modelled. This covers JSON loading and writing, the command line, Jinja2 templating and WeasyPrint PDF output (`ai_assisted_coding/main.py:39-116`, `manual_coding/src/report_generator.py:50-63`). The mock-data generators and `manual_coding/src/main.py` are not part of this model either.
- Float formatting is not modelled. `f"{v:.2f}"` (report_generator.py:11, analysis.py:85) is a parameter `render`; only the trim applied to its result is modelled.
- Python's `int` and `float` are both exact reals (`JNum(real)`). IEEE rounding is not modelled.
- `Analysis.Stats`: its mean is exact, unlike `statistics.mean` over floats. The test's tolerance check (`abs(mean - 310/3) < 1e-9`) therefore holds exactly.
- A dict is an ordered list of bindings, and lookups return the first binding. The uniqueness of Python's dict keys is not imposed.
- Case mapping (`str.lower`, `str.capitalize`) covers ASCII letters only. Other characters are left unchanged, whereas Python maps the whole of Unicode.
- Crashes in the source are preconditions, not error results. This covers the missing "vitals", ICA, CCA or ECA entries in `interpret_vitals`, a non-numeric truthy value compared with a threshold, a non-dict "vitals" in `analyze`, and a missing ratio or a non-numeric payload value in `_section_from_vitals`.
- `ReportModel.SectionsFromVitals`: the inner loop over a payload is the separate method `PayloadRows`.
- `Interpreter.InterpretVitals`: the if/elif chains of the nine blocks are band lists that one shared method, `CheckValue`, walks.
- `Presentation.VitalsRows`: `rows.sort` (Timsort) is modelled by its result, a stable sort by rank computed by insertion. The list is reassigned rather than sorted in place.
- `Presentation.TitleCaseName`: no concrete name is worked through as an example. The word-count, capitalization and idempotence properties are proved for all names.
