/** The presentation helpers of the assisted pipeline
    (ai_assisted_coding/main.py): the conservative title-casing of the
    patient's name and the table of vessel rows, ordered CCA, ICA, ECA and
    then any other vessel. */
module Presentation {
  import opened Values
  import opened Vitals
  import opened Text

  // ---------------------------------------------------------------------
  // `_title_case_name`
  // ---------------------------------------------------------------------

  /** Each word capitalized. */
  function CapitalizeAll(words: seq<string>): (r: seq<string>)
    ensures |r| == |words|
    ensures forall i :: 0 <= i < |words| ==> r[i] == Capitalize(words[i])
  {
    seq(|words|, i requires 0 <= i < |words| => Capitalize(words[i]))
  }

  /** `" ".join(part.capitalize() for part in name.split())` */
  function TitleCaseName(name: string): string
  {
    Join(CapitalizeAll(Split(name)), " ")
  }

  /** Capitalized words are words. */
  lemma CapitalizedWords(words: seq<string>)
    requires forall i :: 0 <= i < |words| ==> IsWord(words[i])
    ensures forall i :: 0 <= i < |words| ==> IsWord(CapitalizeAll(words)[i])
  {
    forall i | 0 <= i < |words| ensures IsWord(CapitalizeAll(words)[i]) {
      CapitalizeWord(words[i]);
    }
  }

  /** The title-cased name splits back into the input's words, each
      capitalized: the word count is kept, every word starts with a
      non-lower-case character followed by no upper-case letter, and each
      word differs from the original one only in letter case. */
  lemma TitleCaseWords(name: string)
    ensures Split(TitleCaseName(name)) == CapitalizeAll(Split(name))
    ensures |Split(TitleCaseName(name))| == |Split(name)|
    ensures forall i :: 0 <= i < |Split(name)| ==>
      IsCapitalized(Split(TitleCaseName(name))[i]) && Lower(Split(TitleCaseName(name))[i]) == Lower(Split(name)[i])
  {
    var words := Split(name);
    CapitalizedWords(words);
    SplitJoin(CapitalizeAll(words));
    forall i | 0 <= i < |words|
      ensures Lower(CapitalizeAll(words)[i]) == Lower(words[i])
    {
      var w := words[i];
      assert forall k :: 0 <= k < |w| ==> LowerChar(Capitalize(w)[k]) == LowerChar(w[k]);
    }
  }

  /** Title-casing is idempotent. */
  lemma TitleCaseIdempotent(name: string)
    ensures TitleCaseName(TitleCaseName(name)) == TitleCaseName(name)
  {
    var words := CapitalizeAll(Split(name));
    TitleCaseWords(name);
    forall i | 0 <= i < |words|
      ensures CapitalizeAll(words)[i] == words[i]
    {
      CapitalizeFixed(words[i]);
    }
    assert CapitalizeAll(words) == words;
  }

  // ---------------------------------------------------------------------
  // `_vitals_rows`
  // ---------------------------------------------------------------------

  /** A row of the vitals table; a metric the payload lacks is `JNull`,
      which is what `payload.get(key)` gives. */
  datatype VitalsRow = VitalsRow(vessel: string, psv: Json, edv: Json, imt: Json)

  /** `pref.get(vessel, 99)` with `pref = {"CCA": 0, "ICA": 1, "ECA": 2}`. */
  function Rank(vessel: string): (rank: int)
    ensures rank == 0 || rank == 1 || rank == 2 || rank == 99
    ensures rank == 0 <==> vessel == Cca
    ensures rank == 1 <==> vessel == Ica
    ensures rank == 2 <==> vessel == Eca
  {
    if vessel == Cca then 0
    else if vessel == Ica then 1
    else if vessel == Eca then 2
    else 99
  }

  /** The entries of `vitals` that get a row: not the ratio, and with an
      object payload. */
  predicate Qualifies(entry: (string, Json))
  {
    entry.0 != RatioKey && entry.1.JObj?
  }

  /** The row of a qualifying entry. */
  function RowFor(entry: (string, Json)): (row: VitalsRow)
    requires entry.1.JObj?
  {
    var payload := entry.1.fields;
    VitalsRow(entry.0, Get(payload, PsvKey, JNull), Get(payload, EdvKey, JNull), Get(payload, ImtKey, JNull))
  }

  /** The rows of the qualifying entries, in the input's order (before
      sorting). */
  function Rows(vitals: Dict): (rows: seq<VitalsRow>)
    ensures |rows| <= |vitals|
    ensures forall i :: 0 <= i < |rows| ==> rows[i].vessel != RatioKey
  {
    if vitals == [] then []
    else
      var last := vitals[|vitals| - 1];
      Rows(vitals[..|vitals| - 1]) + if Qualifies(last) then [RowFor(last)] else []
  }

  /** The rows of `vitals` are exactly those of its qualifying entries:
      every row comes from a qualifying entry with the same vessel, and
      every qualifying entry has its row. */
  lemma {:induction false} RowsFromQualifying(vitals: Dict)
    ensures forall r :: r in Rows(vitals) ==> exists i :: 0 <= i < |vitals| && Qualifies(vitals[i]) && r == RowFor(vitals[i])
    ensures forall i :: 0 <= i < |vitals| && Qualifies(vitals[i]) ==> RowFor(vitals[i]) in Rows(vitals)
  {
    if vitals != [] {
      var init := vitals[..|vitals| - 1];
      RowsFromQualifying(init);
      forall r | r in Rows(vitals)
        ensures exists i :: 0 <= i < |vitals| && Qualifies(vitals[i]) && r == RowFor(vitals[i])
      {
        if r in Rows(init) {
          var i :| 0 <= i < |init| && Qualifies(init[i]) && r == RowFor(init[i]);
          assert vitals[i] == init[i];
        } else {
          assert r == RowFor(vitals[|vitals| - 1]);
        }
      }
      forall i | 0 <= i < |vitals| && Qualifies(vitals[i])
        ensures RowFor(vitals[i]) in Rows(vitals)
      {
        if i < |init| {
          assert vitals[i] == init[i];
        }
      }
    }
  }

  /** The rows of rank `k`, in order. */
  function WithRank(rows: seq<VitalsRow>, k: int): (r: seq<VitalsRow>)
    ensures |r| <= |rows|
    ensures forall i :: 0 <= i < |r| ==> Rank(r[i].vessel) == k
  {
    if rows == [] then []
    else (if Rank(rows[0].vessel) == k then [rows[0]] else []) + WithRank(rows[1..], k)
  }

  /** Non-decreasing by rank. */
  predicate SortedByRank(rows: seq<VitalsRow>)
  {
    forall i, j :: 0 <= i < j < |rows| ==> Rank(rows[i].vessel) <= Rank(rows[j].vessel)
  }

  /** Filtering a row followed by more rows. */
  lemma WithRankCons(x: VitalsRow, rows: seq<VitalsRow>, k: int)
    ensures WithRank([x] + rows, k) == (if Rank(x.vessel) == k then [x] else []) + WithRank(rows, k)
  {
    assert ([x] + rows)[1..] == rows;
  }

  /** Insert `x` before the first row of the same or a higher rank. */
  function Insert(x: VitalsRow, rows: seq<VitalsRow>): (r: seq<VitalsRow>)
    ensures multiset(r) == multiset(rows) + multiset{x}
  {
    if rows == [] || Rank(x.vessel) <= Rank(rows[0].vessel) then
      [x] + rows
    else
      assert rows == [rows[0]] + rows[1..];
      [rows[0]] + Insert(x, rows[1..])
  }

  /** A lower bound on the ranks of `x` and of `rows` bounds the ranks
      after insertion. */
  lemma {:induction false} InsertBounded(x: VitalsRow, rows: seq<VitalsRow>, b: int)
    requires Rank(x.vessel) >= b
    requires forall i :: 0 <= i < |rows| ==> Rank(rows[i].vessel) >= b
    ensures forall i :: 0 <= i < |Insert(x, rows)| ==> Rank(Insert(x, rows)[i].vessel) >= b
  {
    if rows != [] && Rank(x.vessel) > Rank(rows[0].vessel) {
      InsertBounded(x, rows[1..], b);
    }
  }

  /** Insertion keeps a list sorted by rank. */
  lemma {:induction false} InsertSorted(x: VitalsRow, rows: seq<VitalsRow>)
    requires SortedByRank(rows)
    ensures SortedByRank(Insert(x, rows))
  {
    if rows != [] && Rank(x.vessel) > Rank(rows[0].vessel) {
      var y, tail := rows[0], Insert(x, rows[1..]);
      InsertSorted(x, rows[1..]);
      InsertBounded(x, rows[1..], Rank(y.vessel));
      var r := [y] + tail;
      assert r == Insert(x, rows);
      forall i, j | 0 <= i < j < |r| ensures Rank(r[i].vessel) <= Rank(r[j].vessel) {
        assert r[j] == tail[j - 1];
        if i > 0 {
          assert r[i] == tail[i - 1];
        }
      }
    }
  }

  /** Insertion puts `x` ahead of the rows of its rank and leaves the
      other ranks alone. */
  lemma {:induction false} InsertWithRank(x: VitalsRow, rows: seq<VitalsRow>, k: int)
    ensures WithRank(Insert(x, rows), k) == (if Rank(x.vessel) == k then [x] else []) + WithRank(rows, k)
  {
    if rows == [] || Rank(x.vessel) <= Rank(rows[0].vessel) {
      WithRankCons(x, rows, k);
    } else {
      var y := rows[0];
      InsertWithRank(x, rows[1..], k);
      WithRankCons(y, Insert(x, rows[1..]), k);
      WithRankCons(y, rows[1..], k);
      assert rows == [y] + rows[1..];
    }
  }

  /** `rows.sort(key=rank)`: Python's sort is stable, so a stable
      insertion sort computes the same list. */
  function SortByRank(rows: seq<VitalsRow>): (r: seq<VitalsRow>)
    ensures SortedByRank(r)
    ensures multiset(r) == multiset(rows)
    ensures forall k :: WithRank(r, k) == WithRank(rows, k)
  {
    if rows == [] then []
    else
      var rest := SortByRank(rows[1..]);
      InsertSorted(rows[0], rest);
      assert rows == [rows[0]] + rows[1..];
      assert forall k :: WithRank(Insert(rows[0], rest), k) == WithRank(rows, k) by {
        forall k ensures WithRank(Insert(rows[0], rest), k) == WithRank(rows, k) {
          InsertWithRank(rows[0], rest, k);
          WithRankCons(rows[0], rows[1..], k);
        }
      }
      Insert(rows[0], rest)
  }

  /** When every row has rank at least `k`, no row has a lower rank. */
  lemma {:induction false} NoneBelow(rows: seq<VitalsRow>, k: int, r: int)
    requires forall i :: 0 <= i < |rows| ==> Rank(rows[i].vessel) >= k
    requires r < k
    ensures WithRank(rows, r) == []
  {
    if rows != [] {
      NoneBelow(rows[1..], k, r);
    }
  }

  /** A list sorted by rank is its CCA rows, then its ICA rows, then its
      ECA rows, then the rest. */
  lemma {:induction false} SortedIsRankClasses(rows: seq<VitalsRow>)
    requires SortedByRank(rows)
    ensures rows == WithRank(rows, 0) + WithRank(rows, 1) + WithRank(rows, 2) + WithRank(rows, 99)
  {
    if rows != [] {
      var x, u := rows[0], rows[1..];
      var k := Rank(x.vessel);
      assert rows == [x] + u;
      assert SortedByRank(u) by {
        forall i, j | 0 <= i < j < |u| ensures Rank(u[i].vessel) <= Rank(u[j].vessel) {
          assert u[i] == rows[i + 1] && u[j] == rows[j + 1];
        }
      }
      assert forall i :: 0 <= i < |u| ==> Rank(u[i].vessel) >= k by {
        forall i | 0 <= i < |u| ensures Rank(u[i].vessel) >= k {
          assert u[i] == rows[i + 1];
        }
      }
      SortedIsRankClasses(u);
      var w0, w1, w2, w99 := WithRank(u, 0), WithRank(u, 1), WithRank(u, 2), WithRank(u, 99);
      assert u == w0 + w1 + w2 + w99;
      WithRankCons(x, u, 0);
      WithRankCons(x, u, 1);
      WithRankCons(x, u, 2);
      WithRankCons(x, u, 99);
      var v0, v1, v2, v99 := WithRank(rows, 0), WithRank(rows, 1), WithRank(rows, 2), WithRank(rows, 99);
      if k == 1 {
        NoneBelow(u, k, 0);
      } else if k == 2 {
        NoneBelow(u, k, 0);
        NoneBelow(u, k, 1);
      } else if k == 99 {
        NoneBelow(u, k, 0);
        NoneBelow(u, k, 1);
        NoneBelow(u, k, 2);
      }
      Regroup(x, k, w0, w1, w2, w99, v0, v1, v2, v99);
    }
  }

  /** Prepending a row of rank `k` to the groups `w0 w1 w2 w99` of a list
      sorted by rank gives the groups `v0 v1 v2 v99`: `x` joins group `k`,
      and every group before it is empty. */
  lemma Regroup<T>(x: T, k: int, w0: seq<T>, w1: seq<T>, w2: seq<T>, w99: seq<T>,
                   v0: seq<T>, v1: seq<T>, v2: seq<T>, v99: seq<T>)
    requires k == 0 || k == 1 || k == 2 || k == 99
    requires v0 == (if k == 0 then [x] else []) + w0 && v1 == (if k == 1 then [x] else []) + w1
    requires v2 == (if k == 2 then [x] else []) + w2 && v99 == (if k == 99 then [x] else []) + w99
    requires (k > 0 ==> w0 == []) && (k > 1 ==> w1 == []) && (k > 2 ==> w2 == [])
    ensures [x] + (w0 + w1 + w2 + w99) == v0 + v1 + v2 + v99
  {
    if k == 0 {
      Assoc([x], (w0 + w1) + w2, w99);
      Assoc([x], w0 + w1, w2);
      Assoc([x], w0, w1);
    } else if k == 1 {
      Assoc([x], w1 + w2, w99);
      Assoc([x], w1, w2);
    } else if k == 2 {
      Assoc([x], w2, w99);
    }
  }

  /** Concatenation is associative. */
  lemma Assoc<T>(a: seq<T>, b: seq<T>, c: seq<T>)
    ensures a + (b + c) == (a + b) + c
  {
  }

  /** The sorted rows are the CCA rows, the ICA rows, the ECA rows and the
      others, each group in its input order. */
  lemma SortByRankIsGrouping(rows: seq<VitalsRow>)
    ensures SortByRank(rows) == WithRank(rows, 0) + WithRank(rows, 1) + WithRank(rows, 2) + WithRank(rows, 99)
  {
    SortedIsRankClasses(SortByRank(rows));
  }

  /** `_vitals_rows(vitals)`: a row for each object payload other than the
      ratio, in the input's order, then sorted by rank. */
  method VitalsRows(vitals: Dict) returns (rows: seq<VitalsRow>)
    ensures rows == SortByRank(Rows(vitals))
  {
    rows := [];
    for i := 0 to |vitals|
      invariant rows == Rows(vitals[..i])
    {
      assert vitals[..i + 1][..i] == vitals[..i];
      var entry := vitals[i];
      if entry.0 == RatioKey {
        continue;
      }
      if !entry.1.JObj? {
        continue;
      }
      var payload := entry.1.fields;
      rows := rows + [VitalsRow(entry.0, Get(payload, PsvKey, JNull), Get(payload, EdvKey, JNull), Get(payload, ImtKey, JNull))];
    }
    assert vitals[..|vitals|] == vitals;
    rows := SortByRank(rows);
  }

  /** What the table promises: no ratio row; one row per qualifying entry
      and no other (as a multiset of rows); sorted by rank; each rank's rows
      in their input order. */
  lemma VitalsRowsShape(vitals: Dict)
    ensures forall r :: r in SortByRank(Rows(vitals)) ==> r.vessel != RatioKey
    ensures multiset(SortByRank(Rows(vitals))) == multiset(Rows(vitals))
    ensures forall r :: r in SortByRank(Rows(vitals)) <==> exists i :: 0 <= i < |vitals| && Qualifies(vitals[i]) && r == RowFor(vitals[i])
    ensures SortedByRank(SortByRank(Rows(vitals)))
    ensures WithRank(SortByRank(Rows(vitals)), 99) == WithRank(Rows(vitals), 99)
  {
    RowsFromQualifying(vitals);
    var sorted := SortByRank(Rows(vitals));
    forall r
      ensures r in sorted <==> r in Rows(vitals)
    {
      assert r in sorted <==> r in multiset(sorted);
      assert r in Rows(vitals) <==> r in multiset(Rows(vitals));
    }
  }

  /** A metric missing from a payload reads as `JNull` (`None`) in its
      row, whichever of the three metrics it is. */
  lemma MissingMetricIsNull(entry: (string, Json), key: string)
    requires entry.1.JObj?
    requires key == PsvKey || key == EdvKey || key == ImtKey
    requires forall j :: 0 <= j < |entry.1.fields| ==> entry.1.fields[j].0 != key
    ensures key == PsvKey ==> RowFor(entry).psv == JNull
    ensures key == EdvKey ==> RowFor(entry).edv == JNull
    ensures key == ImtKey ==> RowFor(entry).imt == JNull
  {
    GetMissing(entry.1.fields, key, JNull);
  }
}
