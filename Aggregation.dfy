/** The derived statistics: overall progress (`calculateOverallProgress`) and the
    per-subject records behind the charts (`prepareSubjectData`). */
module Aggregation {
  import opened Catalog
  import opened ProgressStore

  /** `chapters.filter(c => data[subject]?.[c])`: the completed chapters, in order. */
  function CompletedChapters(data: Progress, subject: string, chapters: seq<string>): (r: seq<string>)
    ensures |r| <= |chapters|
    ensures forall c :: c in r <==> c in chapters && Done(data, subject, c)
  {
    if chapters == [] then []
    else (if Done(data, subject, chapters[0]) then [chapters[0]] else [])
         + CompletedChapters(data, subject, chapters[1..])
  }

  /** `Math.round((completed / total) * 100)` when `total > 0`, else 0. Rounding half up
      is `floor(x + 1/2)`, which for `x = 100 * completed / total` is the integer quotient
      below. */
  function Percent(completed: nat, total: nat): (p: nat)
    requires completed <= total
    ensures p <= 100
  {
    if total > 0 then
      QuotientBelow(200 * completed + total, 2 * total, 101);
      (200 * completed + total) / (2 * total)
    else 0
  }

  /** The percentage is the integer nearest to `100 * completed / total`, halves rounded up:
      `p - 1/2 <= 100 * completed / total < p + 1/2`. */
  lemma PercentIsRounded(completed: nat, total: nat)
    requires completed <= total && total > 0
    ensures var p := Percent(completed, total);
            total * (2 * p - 1) <= 200 * completed < total * (2 * p + 1)
  {
    var p := Percent(completed, total);
    var n := 200 * completed + total;
    assert n == 2 * total * p + n % (2 * total);
  }

  /** With at most 200 chapters the percentage is 0 only when nothing is completed. */
  lemma PercentZeroIff(completed: nat, total: nat)
    requires completed <= total && 0 < total <= 200
    ensures Percent(completed, total) == 0 <==> completed == 0
  {
    if completed > 0 {
      QuotientAtLeast(200 * completed + total, 2 * total, 1);
    } else {
      QuotientBelow(total, 2 * total, 1);
    }
  }

  /** With fewer than 200 chapters the percentage is 100 only when everything is completed. */
  lemma PercentFullIff(completed: nat, total: nat)
    requires completed <= total && 0 < total < 200
    ensures Percent(completed, total) == 100 <==> completed == total
  {
    if completed < total {
      QuotientBelow(200 * completed + total, 2 * total, 100);
    } else {
      QuotientAtLeast(201 * total, 2 * total, 100);
    }
  }

  /** Completing more chapters never lowers the percentage. */
  lemma PercentMonotone(c1: nat, c2: nat, total: nat)
    requires c1 <= c2 <= total
    ensures Percent(c1, total) <= Percent(c2, total)
  {
    if total > 0 {
      var n1, n2, d := 200 * c1 + total, 200 * c2 + total, 2 * total;
      QuotientBelow(n1, d, n2 / d + 1);
    }
  }

  lemma QuotientAtLeast(n: nat, d: nat, k: nat)
    requires d > 0 && n >= d * k
    ensures n / d >= k
  {
    var q, r := n / d, n % d;
    assert n == d * q + r && r < d;
    assert d * (q - k + 1) == n - r - d * k + d;
    PositiveFactor(d, q - k + 1);
  }

  lemma QuotientBelow(n: nat, d: nat, k: nat)
    requires d > 0 && n < d * k
    ensures n / d < k
  {
    var q, r := n / d, n % d;
    assert n == d * q + r && r >= 0;
    assert d * (k - q) == d * k - n + r;
    PositiveFactor(d, k - q);
  }

  lemma PositiveFactor(d: int, x: int)
    requires d > 0 && d * x > 0
    ensures x > 0
  {
  }

  /** `100 * completed / total` lies exactly halfway between two integers. At such a tie
      the exact quotient rounds up, while JavaScript's floating-point quotient may land
      just below the half and round down. */
  predicate IsTie(completed: nat, total: nat) {
    total > 0 && (200 * completed) % (2 * total) == total
  }

  /** `{ name, value, total, percent }` of `prepareSubjectData`. */
  datatype SubjectSummary = SubjectSummary(name: string, value: nat, total: nat, percent: nat)

  /** `{ percent, completed, total }` of `calculateOverallProgress`. */
  datatype OverallSummary = OverallSummary(percent: nat, completed: nat, total: nat)

  function Summarize(entry: Entry, data: Progress): SubjectSummary {
    var completed := |CompletedChapters(data, entry.0, entry.1)|;
    SubjectSummary(entry.0, completed, |entry.1|, Percent(completed, |entry.1|))
  }

  /** `prepareSubjectData()`: one record per subject, in catalog order. */
  function SubjectData(catalog: Catalog, data: Progress): (r: seq<SubjectSummary>)
    ensures |r| == |catalog|
    ensures forall i :: 0 <= i < |catalog| ==>
              && r[i].name == catalog[i].0
              && r[i].total == |catalog[i].1|
              && r[i].value == |CompletedChapters(data, catalog[i].0, catalog[i].1)|
              && r[i].value <= r[i].total
              && r[i].percent == Percent(r[i].value, r[i].total)
  {
    seq(|catalog|, i requires 0 <= i < |catalog| => Summarize(catalog[i], data))
  }

  /** The number of chapters in the catalog. */
  function TotalChapters(catalog: Catalog): nat {
    if catalog == [] then 0
    else TotalChapters(catalog[..|catalog| - 1]) + |catalog[|catalog| - 1].1|
  }

  /** The number of completed chapters in the catalog. */
  function CompletedTotal(catalog: Catalog, data: Progress): nat {
    if catalog == [] then 0
    else
      var last := catalog[|catalog| - 1];
      CompletedTotal(catalog[..|catalog| - 1], data) + |CompletedChapters(data, last.0, last.1)|
  }

  lemma {:induction false} CompletedWithinTotal(catalog: Catalog, data: Progress)
    ensures CompletedTotal(catalog, data) <= TotalChapters(catalog)
  {
    if catalog != [] {
      CompletedWithinTotal(catalog[..|catalog| - 1], data);
    }
  }

  /** `calculateOverallProgress()` as a value. */
  function OverallProgress(catalog: Catalog, data: Progress): (o: OverallSummary)
    ensures o.completed <= o.total && o.percent <= 100
    ensures o.total == 0 ==> o.percent == 0
  {
    CompletedWithinTotal(catalog, data);
    var total := TotalChapters(catalog);
    var completed := CompletedTotal(catalog, data);
    OverallSummary(Percent(completed, total), completed, total)
  }

  /** `calculateOverallProgress()`: the loop over the catalog adds up chapter counts and
      completed counts, then rounds. */
  method CalculateOverallProgress(catalog: Catalog, data: Progress) returns (o: OverallSummary)
    ensures o == OverallProgress(catalog, data)
  {
    var totalChapters, completedChapters := 0, 0;
    var i := 0;
    while i < |catalog|
      invariant 0 <= i <= |catalog|
      invariant totalChapters == TotalChapters(catalog[..i])
      invariant completedChapters == CompletedTotal(catalog[..i], data)
    {
      var (subject, chapters) := catalog[i];
      assert catalog[..i + 1][..i] == catalog[..i];
      totalChapters := totalChapters + |chapters|;
      completedChapters := completedChapters + |CompletedChapters(data, subject, chapters)|;
      i := i + 1;
    }
    assert catalog[..i] == catalog;
    CompletedWithinTotal(catalog, data);
    var percent := if totalChapters > 0 then Percent(completedChapters, totalChapters) else 0;
    o := OverallSummary(percent, completedChapters, totalChapters);
  }

  function SumValues(rows: seq<SubjectSummary>): nat {
    if rows == [] then 0 else SumValues(rows[..|rows| - 1]) + rows[|rows| - 1].value
  }

  function SumTotals(rows: seq<SubjectSummary>): nat {
    if rows == [] then 0 else SumTotals(rows[..|rows| - 1]) + rows[|rows| - 1].total
  }

  /** The per-subject records add up to the overall figures. */
  lemma {:induction false} SubjectDataAddsUp(catalog: Catalog, data: Progress)
    ensures SumValues(SubjectData(catalog, data)) == OverallProgress(catalog, data).completed
    ensures SumTotals(SubjectData(catalog, data)) == OverallProgress(catalog, data).total
  {
    if catalog != [] {
      var init := catalog[..|catalog| - 1];
      SubjectDataAddsUp(init, data);
      var rows := SubjectData(catalog, data);
      assert rows[..|rows| - 1] == SubjectData(init, data);
    }
  }

  /** The total does not depend on the store: toggling or resetting never changes it. */
  lemma TotalIndependentOfProgress(catalog: Catalog, d1: Progress, d2: Progress)
    ensures OverallProgress(catalog, d1).total == OverallProgress(catalog, d2).total == TotalChapters(catalog)
  {
  }

  lemma {:induction false} NothingCompletedInEmpty(subject: string, chapters: seq<string>)
    ensures CompletedChapters(Empty, subject, chapters) == []
  {
    if chapters != [] {
      NothingCompletedInEmpty(subject, chapters[1..]);
    }
  }

  lemma {:induction false} EmptyCompletedTotal(catalog: Catalog)
    ensures CompletedTotal(catalog, Empty) == 0
  {
    if catalog != [] {
      var last := catalog[|catalog| - 1];
      EmptyCompletedTotal(catalog[..|catalog| - 1]);
      NothingCompletedInEmpty(last.0, last.1);
    }
  }

  /** After `resetProgress` nothing is completed, overall or in any subject. */
  lemma ResetClearsProgress(catalog: Catalog)
    ensures OverallProgress(catalog, Empty).completed == 0
    ensures OverallProgress(catalog, Empty).percent == 0
    ensures forall i :: 0 <= i < |catalog| ==>
              SubjectData(catalog, Empty)[i].value == 0 && SubjectData(catalog, Empty)[i].percent == 0
  {
    EmptyCompletedTotal(catalog);
    if TotalChapters(catalog) > 0 {
      QuotientBelow(TotalChapters(catalog), 2 * TotalChapters(catalog), 1);
    }
    forall i | 0 <= i < |catalog|
      ensures SubjectData(catalog, Empty)[i].value == 0
      ensures SubjectData(catalog, Empty)[i].percent == 0
    {
      NothingCompletedInEmpty(catalog[i].0, catalog[i].1);
      if |catalog[i].1| > 0 {
        QuotientBelow(|catalog[i].1|, 2 * |catalog[i].1|, 1);
      }
    }
  }

  /** The chapters of a list whose entry reads true, as a set. */
  function DoneAmong(data: Progress, subject: string, chapters: seq<string>): set<string> {
    set c | c in chapters && Done(data, subject, c)
  }

  lemma DoneAmongSplit(data: Progress, subject: string, chapters: seq<string>)
    requires chapters != []
    ensures DoneAmong(data, subject, chapters)
            == (if Done(data, subject, chapters[0]) then {chapters[0]} else {})
               + DoneAmong(data, subject, chapters[1..])
  {
    assert forall c :: c in chapters <==> c == chapters[0] || c in chapters[1..];
  }

  lemma DistinctTail<T>(s: seq<T>)
    requires s != [] && Distinct(s)
    ensures Distinct(s[1..]) && s[0] !in s[1..]
  {
    var tail := s[1..];
    forall i, j | 0 <= i < j < |tail| ensures tail[i] != tail[j] {
      assert tail[i] == s[i + 1] && tail[j] == s[j + 1];
    }
    forall j | 0 <= j < |tail| ensures tail[j] != s[0] {
      assert tail[j] == s[j + 1];
    }
  }

  /** For a subject whose chapters are distinct, the filter's length is the number of its
      chapters whose entry reads true. */
  lemma {:induction false} CompletedCount(data: Progress, subject: string, chapters: seq<string>)
    requires Distinct(chapters)
    ensures |CompletedChapters(data, subject, chapters)| == |DoneAmong(data, subject, chapters)|
  {
    if chapters != [] {
      DistinctTail(chapters);
      CompletedCount(data, subject, chapters[1..]);
      DoneAmongSplit(data, subject, chapters);
      assert chapters[0] !in DoneAmong(data, subject, chapters[1..]);
    } else {
      assert DoneAmong(data, subject, chapters) == {};
    }
  }

  /** For a well-formed catalog, each subject record's `value` is the number of that subject's
      chapters marked completed. */
  lemma SubjectValuesCount(catalog: Catalog, data: Progress)
    requires WellFormed(catalog)
    ensures forall i :: 0 <= i < |catalog| ==>
              SubjectData(catalog, data)[i].value == |DoneAmong(data, catalog[i].0, catalog[i].1)|
  {
    forall i | 0 <= i < |catalog|
      ensures SubjectData(catalog, data)[i].value == |DoneAmong(data, catalog[i].0, catalog[i].1)|
    {
      CompletedCount(data, catalog[i].0, catalog[i].1);
    }
  }

  /** Toggling one pair changes a subject's completed count by one when the pair is one of
      its chapters, and leaves it alone otherwise. */
  lemma {:induction false} ToggleShiftsCount(data: Progress, s: string, c: string, subject: string, chapters: seq<string>)
    requires Distinct(chapters)
    ensures var after := |CompletedChapters(Toggle(data, s, c), subject, chapters)|;
            var before := |CompletedChapters(data, subject, chapters)|;
            if subject == s && c in chapters
            then after == before + (if Done(data, s, c) then -1 else 1)
            else after == before
  {
    if chapters != [] {
      DistinctTail(chapters);
      ToggleShiftsCount(data, s, c, subject, chapters[1..]);
    }
  }

  /** Overall, toggling a chapter of the catalog moves the completed count by exactly one
      (up when it completes the chapter, down when it unchecks it), and toggling a pair the
      catalog does not list leaves it unchanged. */
  lemma {:induction false} ToggleShiftsCompletedTotal(catalog: Catalog, data: Progress, s: string, c: string)
    requires WellFormed(catalog)
    ensures var after := CompletedTotal(catalog, Toggle(data, s, c));
            var before := CompletedTotal(catalog, data);
            if Lists(catalog, s, c)
            then after == before + (if Done(data, s, c) then -1 else 1)
            else after == before
  {
    if catalog != [] {
      var n := |catalog| - 1;
      var init, last := catalog[..n], catalog[n];
      assert WellFormed(init) by {
        assert forall i :: 0 <= i < n ==> SubjectNames(init)[i] == SubjectNames(catalog)[i];
      }
      ToggleShiftsCompletedTotal(init, data, s, c);
      ToggleShiftsCount(data, s, c, last.0, last.1);
      if last.0 == s && c in last.1 {
        assert !Lists(init, s, c) by {
          forall i | 0 <= i < n ensures init[i].0 != s {
            assert SubjectNames(catalog)[i] != SubjectNames(catalog)[n];
          }
        }
      }
      assert Lists(catalog, s, c) <==> Lists(init, s, c) || (last.0 == s && c in last.1) by {
        if Lists(catalog, s, c) {
          var i :| 0 <= i < |catalog| && catalog[i].0 == s && c in catalog[i].1;
          if i < n { assert init[i] == catalog[i]; }
        }
        if Lists(init, s, c) {
          var i :| 0 <= i < n && init[i].0 == s && c in init[i].1;
          assert catalog[i] == init[i];
        }
      }
    }
  }

  /** Taxation has 28 chapters; with 7 of them completed its record reads 7/28, 25%. */
  lemma TaxationScenario(data: Progress)
    requires |CompletedChapters(data, "Taxation", TAXATION)| == 7
    ensures SubjectData(SUBJECTS, data)[2] == SubjectSummary("Taxation", 7, 28, 25)
  {
    SubjectsSizes();
  }

  /** The catalog has 124 chapters, and for none of the subject totals nor the overall
      total does any completed count give a rounding tie, so the rounded percentages agree
      with the ones the floating-point computation displays. */
  lemma CatalogHasNoRoundingTies()
    ensures TotalChapters(SUBJECTS) == 124
    ensures forall i, c :: 0 <= i < |SUBJECTS| ==> !IsTie(c, |SUBJECTS[i].1|)
    ensures forall c :: !IsTie(c, 124)
  {
    SubjectsSizes();
    var s := SUBJECTS;
    assert s[..1][..0] == [] && s[..2][..1] == s[..1] && s[..3][..2] == s[..2];
    assert s[..4][..3] == s[..3] && s[..5][..4] == s[..4] && s[..6][..5] == s[..5];
    assert TotalChapters(s[..1]) == 36;
    assert TotalChapters(s[..2]) == 51;
    assert TotalChapters(s[..3]) == 79;
    assert TotalChapters(s[..4]) == 94;
    assert TotalChapters(s[..5]) == 105;
    assert s[..6] == s;
    assert forall c :: !IsTie(c, 36) && !IsTie(c, 15) && !IsTie(c, 28);
    assert forall c :: !IsTie(c, 11) && !IsTie(c, 19) && !IsTie(c, 124);
  }
}
