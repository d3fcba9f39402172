/** The two in-place cleaning passes over the monthly CSV files of the genset
    and frequency reports: `clean_month_csv_files` (drop blank rows and
    residual total lines, remove the `Conditions Met` column) and
    `remove_short_time_entries` (keep rows lasting at least one minute). */
module Cleaning {
  import opened Py
  import Seqs

  /** A month file as DictReader sees it: its header, then its rows. */
  datatype Table = Table(fields: seq<string>, rows: seq<Row>)

  const ConditionsMet: string := "Conditions Met"
  const TotalMarker: string := "Total savings"
  const TimeElapsed: string := "Time Elapsed (minutes)"

  /** A row's keys are exactly the header's fields, as DictReader produces it. */
  ghost predicate RowOf(fields: seq<string>, r: Row)
  {
    forall f :: f in r <==> f in fields
  }

  /** Every row is keyed by exactly the header's fields. */
  ghost predicate RowsOf(fields: seq<string>, rows: seq<Row>)
  {
    forall i, f :: 0 <= i < |rows| ==> (f in rows[i] <==> f in fields)
  }

  /** Every row has at least the given fields, so `row[field]` cannot raise. */
  ghost predicate HasFields(fields: seq<string>, rows: seq<Row>)
  {
    forall i, f :: 0 <= i < |rows| && f in fields ==> f in rows[i]
  }

  ghost predicate Aligned(t: Table)
  {
    RowsOf(t.fields, t.rows)
  }

  /** The header without the `Conditions Met` column, order kept. */
  function KeptFields(fields: seq<string>): seq<string>
  {
    Seqs.Filter(fields, f => f != ConditionsMet)
  }

  /** `any(row.values())`: some cell is non-empty. */
  predicate AnyNonBlank(r: Row)
  {
    exists f :: f in r && r[f] != ""
  }

  /** `"Total savings" in row.values()`: a residual totals line. */
  predicate HasTotalMarker(r: Row)
  {
    TotalMarker in r.Values
  }

  /** The test `clean_month_csv_files` applies to each row, on the row as
      read, `Conditions Met` included. */
  predicate KeptAsWritten(r: Row)
  {
    AnyNonBlank(r) && !HasTotalMarker(r)
  }

  /** `{field: row[field] for field in fieldnames}`. */
  function Project(fields: seq<string>, r: Row): (p: Row)
    requires forall f :: f in fields ==> f in r
    ensures RowOf(fields, p)
    ensures forall f :: f in p ==> p[f] == r[f]
  {
    map f | f in fields :: r[f]
  }

  function ProjectRows(fields: seq<string>, rows: seq<Row>): (r: seq<Row>)
    requires HasFields(fields, rows)
    ensures |r| == |rows|
    ensures forall i :: 0 <= i < |rows| ==> r[i] == Project(fields, rows[i])
  {
    seq(|rows|, i requires 0 <= i < |rows| => Project(fields, rows[i]))
  }

  /** The row loop of `clean_month_csv_files`, one row at a time. */
  function CleanRowsAsWritten(fields: seq<string>, rows: seq<Row>): (r: seq<Row>)
    requires HasFields(fields, rows)
    ensures RowsOf(fields, r)
    decreases |rows|
  {
    if rows == [] then []
    else
      var last := rows[|rows| - 1];
      CleanRowsAsWritten(fields, rows[..|rows| - 1]) + (if KeptAsWritten(last) then [Project(fields, last)] else [])
  }

  /** The loop is a filter followed by the projection: a row is kept iff some
      cell is non-empty and no cell reads "Total savings", kept rows keep their
      order, and each keeps every field but `Conditions Met`. */
  lemma {:induction false} CleanRowsAsWrittenIsFilter(fields: seq<string>, rows: seq<Row>)
    requires HasFields(fields, rows)
    ensures CleanRowsAsWritten(fields, rows) == ProjectRows(fields, Seqs.Filter(rows, KeptAsWritten))
    decreases |rows|
  {
    if rows != [] {
      var init, last := rows[..|rows| - 1], rows[|rows| - 1];
      assert rows == init + [last];
      CleanRowsAsWrittenIsFilter(fields, init);
      Seqs.FilterConcat(init, [last], KeptAsWritten);
      assert Seqs.Filter([last], KeptAsWritten) == if KeptAsWritten(last) then [last] else [];
    }
  }

  /** `clean_month_csv_files` on one month, as written. */
  function CleanMonthAsWritten(t: Table): (r: Table)
    requires Aligned(t)
    ensures r.fields == KeptFields(t.fields)
    ensures Aligned(r)
    ensures ConditionsMet !in r.fields
  {
    var fs := KeptFields(t.fields);
    Table(fs, CleanRowsAsWritten(fs, t.rows))
  }

  /** Re-cleaning is not a no-op: a row whose only non-empty cell is its
      `Conditions Met` flag survives the first pass as an all-blank row, and
      the second pass drops it. */
  lemma CleanMonthAsWrittenNotIdempotent()
    ensures var t := Table([TimeElapsed, ConditionsMet], [map[TimeElapsed := "", ConditionsMet := "True"]]);
      Aligned(t) && CleanMonthAsWritten(CleanMonthAsWritten(t)) != CleanMonthAsWritten(t)
  {
    FlagRowFirstPass();
    FlagRowSecondPass();
  }

  lemma DistinctNames()
    ensures TimeElapsed != ConditionsMet
    ensures KeptFields([TimeElapsed, ConditionsMet]) == [TimeElapsed]
    ensures KeptFields([TimeElapsed]) == [TimeElapsed]
  {
    assert TimeElapsed[0] != ConditionsMet[0];
    assert [TimeElapsed, ConditionsMet][1..] == [ConditionsMet];
    assert [ConditionsMet][1..] == [];
    assert [TimeElapsed][1..] == [];
    assert KeptFields([]) == [];
    assert KeptFields([ConditionsMet]) == [];
  }

  /** The first pass keeps the flag-only row, blank once the flag is gone. */
  lemma FlagRowFirstPass()
    ensures var t := Table([TimeElapsed, ConditionsMet], [map[TimeElapsed := "", ConditionsMet := "True"]]);
      Aligned(t) && CleanMonthAsWritten(t) == Table([TimeElapsed], [map[TimeElapsed := ""]])
  {
    var row: Row := map[TimeElapsed := "", ConditionsMet := "True"];
    DistinctNames();
    assert KeptAsWritten(row) by {
      assert row[ConditionsMet] != "";
      assert TotalMarker !in row.Values by {
        forall v | v in row.Values ensures v != TotalMarker {
          var k :| k in row && row[k] == v;
        }
      }
    }
    assert [row][..0] == [];
    assert CleanRowsAsWritten([TimeElapsed], [row]) == [Project([TimeElapsed], row)];
    assert Project([TimeElapsed], row) == map[TimeElapsed := ""];
  }

  /** The second pass drops the blank row. */
  lemma FlagRowSecondPass()
    ensures CleanMonthAsWritten(Table([TimeElapsed], [map[TimeElapsed := ""]])) == Table([TimeElapsed], [])
  {
    var blank: Row := map[TimeElapsed := ""];
    DistinctNames();
    assert !AnyNonBlank(blank);
    assert [blank][..0] == [];
    assert CleanRowsAsWritten([TimeElapsed], [blank]) == [];
  }

  /** The blank-row test as evidently intended: applied to the row once
      `Conditions Met` is removed, so no all-blank row is ever written. */
  predicate KeptFixed(fields: seq<string>, r: Row)
    requires forall f :: f in fields ==> f in r
  {
    AnyNonBlank(Project(fields, r)) && !HasTotalMarker(r)
  }

  function CleanRowsFixed(fields: seq<string>, rows: seq<Row>): (r: seq<Row>)
    requires HasFields(fields, rows)
    ensures RowsOf(fields, r)
    ensures forall i :: 0 <= i < |r| ==> AnyNonBlank(r[i]) && !HasTotalMarker(r[i])
    decreases |rows|
  {
    if rows == [] then []
    else
      var last := rows[|rows| - 1];
      var p := Project(fields, last);
      assert !HasTotalMarker(last) ==> !HasTotalMarker(p) by {
        if HasTotalMarker(p) {
          var k :| k in p && p[k] == TotalMarker;
          assert last[k] == TotalMarker;
        }
      }
      CleanRowsFixed(fields, rows[..|rows| - 1]) + (if KeptFixed(fields, last) then [p] else [])
  }

  /** `clean_month_csv_files` on one month with the blank test corrected. */
  function CleanMonth(t: Table): (r: Table)
    requires Aligned(t)
    ensures r.fields == KeptFields(t.fields)
    ensures Aligned(r)
    ensures forall i :: 0 <= i < |r.rows| ==> AnyNonBlank(r.rows[i]) && !HasTotalMarker(r.rows[i])
  {
    var fs := KeptFields(t.fields);
    Table(fs, CleanRowsFixed(fs, t.rows))
  }

  /** Rows that already passed the corrected test pass it again unchanged. */
  lemma {:induction false} CleanRowsFixedKeepsClean(fields: seq<string>, rows: seq<Row>)
    requires RowsOf(fields, rows)
    requires forall i :: 0 <= i < |rows| ==> AnyNonBlank(rows[i]) && !HasTotalMarker(rows[i])
    ensures CleanRowsFixed(fields, rows) == rows
    decreases |rows|
  {
    if rows != [] {
      var last := rows[|rows| - 1];
      assert Project(fields, last) == last;
      CleanRowsFixedKeepsClean(fields, rows[..|rows| - 1]);
      assert rows[..|rows| - 1] + [last] == rows;
    }
  }

  /** With the corrected test, cleaning its own output changes nothing. */
  lemma CleanMonthIdempotent(t: Table)
    requires Aligned(t)
    ensures CleanMonth(CleanMonth(t)) == CleanMonth(t)
  {
    var once := CleanMonth(t);
    Seqs.FilterIdempotent(t.fields, f => f != ConditionsMet);
    assert KeptFields(once.fields) == once.fields;
    CleanRowsFixedKeepsClean(once.fields, once.rows);
  }

  /** Where the file has no `Conditions Met` column the two tests agree. */
  lemma {:induction false} CleanAgreesWithoutConditionsMet(fields: seq<string>, rows: seq<Row>)
    requires ConditionsMet !in fields
    requires RowsOf(fields, rows)
    ensures CleanRowsFixed(fields, rows) == CleanRowsAsWritten(fields, rows)
    decreases |rows|
  {
    if rows != [] {
      var last := rows[|rows| - 1];
      assert Project(fields, last) == last;
      CleanAgreesWithoutConditionsMet(fields, rows[..|rows| - 1]);
    }
  }

  /** Either cleaning test, by flag: the code as written or the corrected one. */
  function CleanRows(fixed: bool, fields: seq<string>, rows: seq<Row>): (r: seq<Row>)
    requires HasFields(fields, rows)
    ensures RowsOf(fields, r)
  {
    if fixed then CleanRowsFixed(fields, rows) else CleanRowsAsWritten(fields, rows)
  }

  /** A row `csv.DictWriter` accepts: it has no key outside the header
      (`extrasaction='raise'`). */
  predicate Fits(fields: seq<string>, r: Row)
  {
    forall k :: k in r ==> k in fields
  }

  /** The row as it reads back from the written file: every header field,
      with "" (`restval`) where the row had no such key. */
  function Fill(fields: seq<string>, r: Row): (p: Row)
    ensures RowOf(fields, p)
    ensures forall f :: f in p && f in r ==> p[f] == r[f]
    ensures forall f :: f in p && f !in r ==> p[f] == ""
  {
    map f | f in fields :: if f in r then r[f] else ""
  }

  /** `writer.writerows(rows)`: rows are written in order until the first one
      with a key outside the header raises ValueError; what was written by
      then stays in the file. */
  function WriteRows(fields: seq<string>, rows: seq<Row>): (r: (seq<Row>, Option<Error>))
    ensures |r.0| <= |rows|
    ensures forall i :: 0 <= i < |r.0| ==> Fits(fields, rows[i]) && r.0[i] == Fill(fields, rows[i])
    ensures r.1.None? <==> |r.0| == |rows|
    ensures r.1.Some? ==> r.1 == Some(ValueError) && !Fits(fields, rows[|r.0|])
  {
    if rows == [] then ([], None)
    else if !Fits(fields, rows[0]) then ([], Some(ValueError))
    else
      var rest := WriteRows(fields, rows[1..]);
      ([Fill(fields, rows[0])] + rest.0, rest.1)
  }

  /** Month files in calendar order; None is a month whose file is absent. */
  ghost predicate AllAligned(files: seq<Option<Table>>)
  {
    forall m :: 0 <= m < |files| && files[m].Some? ==> RowsOf(files[m].value.fields, files[m].value.rows)
  }

  /** The outcome of a pass over the month files: the files afterwards, and
      the month and exception that ended the pass early, if any. */
  datatype Run = Run(files: seq<Option<Table>>, crash: Option<(nat, Error)>)

  /** The last month whose file exists: its header is the `fieldnames` left
      over from the read loop. */
  function LastPresent(files: seq<Option<Table>>): (r: Option<nat>)
    ensures r.None? <==> forall m :: 0 <= m < |files| ==> files[m].None?
    ensures r.Some? ==> r.value < |files| && files[r.value].Some?
    ensures r.Some? ==> forall n :: r.value < n < |files| ==> files[n].None?
    decreases |files|
  {
    if files == [] then None
    else if files[|files| - 1].Some? then Some(|files| - 1)
    else
      var init := files[..|files| - 1];
      var r := LastPresent(init);
      assert forall m :: 0 <= m < |init| ==> init[m] == files[m];
      r
  }

  lemma AllAlignedTail(files: seq<Option<Table>>)
    requires |files| > 0 && AllAligned(files)
    ensures AllAligned(files[1..])
  {
    forall n | 0 <= n < |files| - 1 && files[1..][n].Some?
      ensures RowsOf(files[1..][n].value.fields, files[1..][n].value.rows)
    {
      assert files[1..][n] == files[n + 1];
    }
  }

  ghost predicate AlignedFile(f: Option<Table>)
  {
    f.Some? ==> RowsOf(f.value.fields, f.value.rows)
  }

  /** One month of the write-back: a present month is cleaned against its own
      header and rewritten with `fields`; the month's file ends up with the
      header and the rows written before any ValueError. */
  function WriteBackMonth(fields: seq<string>, fixed: bool, f: Option<Table>): (r: (Option<Table>, Option<Error>))
    requires AlignedFile(f)
    ensures r.0.None? <==> f.None?
    ensures r.0.Some? ==> r.0.value.fields == fields
    ensures r.1.Some? ==> f.Some? && r.1 == Some(ValueError)
  {
    match f
    case None => (None, None)
    case Some(t) =>
      var w := WriteRows(fields, CleanRows(fixed, KeptFields(t.fields), t.rows));
      (Some(Table(fields, w.0)), w.1)
  }

  /** The write-back loop over the months, the first of which has index `m`;
      a ValueError ends it with every later month untouched. */
  function WriteBackAll(fields: seq<string>, fixed: bool, files: seq<Option<Table>>, m: nat): (r: Run)
    requires AllAligned(files)
    ensures |r.files| == |files|
    ensures forall n :: 0 <= n < |files| ==> (r.files[n].None? <==> files[n].None?)
    ensures r.crash.Some? ==> m <= r.crash.value.0 < m + |files| && r.crash.value.1 == ValueError
    decreases |files|
  {
    if files == [] then Run([], None)
    else
      AllAlignedTail(files);
      var w := WriteBackMonth(fields, fixed, files[0]);
      if w.1.Some? then Run([w.0] + files[1..], Some((m, w.1.value)))
      else
        var rest := WriteBackAll(fields, fixed, files[1..], m + 1);
        Run([w.0] + rest.files, rest.crash)
  }

  /** Every month rewritten before the failure, and the failing month itself,
      carries the write-back header; every month after it is left as it was. */
  lemma {:induction false} WriteBackShape(fields: seq<string>, fixed: bool, files: seq<Option<Table>>, m: nat, n: nat)
    requires AllAligned(files)
    requires n < |files| && files[n].Some?
    ensures var r := WriteBackAll(fields, fixed, files, m);
      if r.crash.None? || m + n <= r.crash.value.0 then r.files[n].value.fields == fields
      else r.files[n] == files[n]
    decreases |files|
  {
    AllAlignedTail(files);
    WriteBackAllStep(fields, fixed, files, m);
    var w := WriteBackMonth(fields, fixed, files[0]);
    if n > 0 && w.1.None? {
      assert files[1..][n - 1] == files[n];
      WriteBackShape(fields, fixed, files[1..], m + 1, n - 1);
    }
  }

  /** The first month of the write-back, then the rest or the crash. */
  lemma WriteBackAllStep(fields: seq<string>, fixed: bool, files: seq<Option<Table>>, m: nat)
    requires AllAligned(files) && files != []
    ensures AllAligned(files[1..])
    ensures var w := WriteBackMonth(fields, fixed, files[0]);
      var r := WriteBackAll(fields, fixed, files, m);
      if w.1.Some? then r == Run([w.0] + files[1..], Some((m, w.1.value)))
      else r == Run([w.0] + WriteBackAll(fields, fixed, files[1..], m + 1).files,
                    WriteBackAll(fields, fixed, files[1..], m + 1).crash)
  {
    AllAlignedTail(files);
  }

  /** `clean_month_csv_files` over the twelve months: every present month is
      read and cleaned against its own header, then every present month is
      rewritten with the header of the last present month. */
  function CleanAll(files: seq<Option<Table>>, fixed: bool): (r: Run)
    requires AllAligned(files)
    ensures |r.files| == |files|
    ensures forall m :: 0 <= m < |files| ==> (r.files[m].None? <==> files[m].None?)
    ensures r.crash.Some? ==> r.crash.value.0 < |files| && r.crash.value.1 == ValueError
  {
    match LastPresent(files)
    case None => Run(files, None)
    case Some(last) => WriteBackAll(KeptFields(files[last].value.fields), fixed, files, 0)
  }

  /** Cleaning one month by either test. */
  function CleanMonthBy(fixed: bool, t: Table): Table
    requires Aligned(t)
  {
    if fixed then CleanMonth(t) else CleanMonthAsWritten(t)
  }

  /** The rows a month's cleaning produces have exactly the kept fields, so
      writing them under the same header keeps them as they are. */
  lemma FillCleanRows(fields: seq<string>, rows: seq<Row>, i: nat)
    requires RowsOf(fields, rows)
    requires i < |rows|
    ensures Fits(fields, rows[i]) && Fill(fields, rows[i]) == rows[i]
  {
  }

  lemma {:induction false} WriteRowsKeeps(fields: seq<string>, rows: seq<Row>)
    requires RowsOf(fields, rows)
    ensures WriteRows(fields, rows) == (rows, None)
    decreases |rows|
  {
    if rows != [] {
      FillCleanRows(fields, rows, 0);
      assert RowsOf(fields, rows[1..]) by {
        forall i, f | 0 <= i < |rows| - 1 ensures (f in rows[1..][i] <==> f in fields) {
          assert rows[1..][i] == rows[i + 1];
        }
      }
      WriteRowsKeeps(fields, rows[1..]);
      assert [rows[0]] + rows[1..] == rows;
    }
  }

  /** Every present month has header `h`. */
  predicate Uniform(files: seq<Option<Table>>, h: seq<string>)
  {
    forall m :: 0 <= m < |files| && files[m].Some? ==> files[m].value.fields == h
  }

  lemma {:induction false} WriteBackUniform(h: seq<string>, fixed: bool, files: seq<Option<Table>>, m: nat)
    requires AllAligned(files) && Uniform(files, h)
    ensures WriteBackAll(KeptFields(h), fixed, files, m).crash.None?
    ensures forall n :: 0 <= n < |files| && files[n].Some? ==>
              WriteBackAll(KeptFields(h), fixed, files, m).files[n] == Some(CleanMonthBy(fixed, files[n].value))
    decreases |files|
  {
    if files != [] {
      var r := WriteBackAll(KeptFields(h), fixed, files, m);
      AllAlignedTail(files);
      assert Uniform(files[1..], h) by {
        forall n | 0 <= n < |files| - 1 ensures files[1..][n] == files[n + 1] { }
      }
      WriteBackUniform(h, fixed, files[1..], m + 1);
      var rest := WriteBackAll(KeptFields(h), fixed, files[1..], m + 1);
      if files[0].Some? {
        var t := files[0].value;
        var kept := KeptFields(t.fields);
        WriteRowsKeeps(kept, CleanRows(fixed, kept, t.rows));
      }
      forall n | 0 <= n < |files| && files[n].Some?
        ensures r.files[n] == Some(CleanMonthBy(fixed, files[n].value))
      {
        if n > 0 {
          assert files[1..][n - 1] == files[n];
          assert r.files[n] == rest.files[n - 1];
        }
      }
    }
  }

  /** When every month file has the same header, the run never fails and
      each month ends up exactly as cleaning it on its own gives. */
  lemma CleanAllUniform(files: seq<Option<Table>>, h: seq<string>, fixed: bool)
    requires AllAligned(files) && Uniform(files, h)
    ensures CleanAll(files, fixed).crash.None?
    ensures forall m :: 0 <= m < |files| && files[m].Some? ==>
              CleanAll(files, fixed).files[m] == Some(CleanMonthBy(fixed, files[m].value))
  {
    var last := LastPresent(files);
    if last.Some? {
      assert files[last.value].value.fields == h;
      WriteBackUniform(h, fixed, files, 0);
    }
  }

  /** Two months whose headers differ: the header left by the last month
      lacks the field the first month's cleaned row carries, so writing the
      first month back raises ValueError. */
  lemma CleanAllForeignHeader()
    ensures var a := Table([TimeElapsed], [map[TimeElapsed := "5"]]);
            var b := Table([TotalMarker], []);
            AllAligned([Some(a), Some(b)]) && CleanAll([Some(a), Some(b)], true).crash == Some((0, ValueError))
  {
  }

  /** With the corrected test and one header for all months, running the whole
      cleaning pass a second time changes nothing. */
  lemma CleanAllIdempotent(files: seq<Option<Table>>, h: seq<string>)
    requires AllAligned(files) && Uniform(files, h)
    ensures AllAligned(CleanAll(files, true).files)
    ensures CleanAll(CleanAll(files, true).files, true) == CleanAll(files, true)
  {
    var once := CleanAll(files, true);
    CleanAllUniform(files, h, true);
    assert AllAligned(once.files) && Uniform(once.files, KeptFields(h));
    CleanAllUniform(once.files, KeptFields(h), true);
    var twice := CleanAll(once.files, true);
    forall m | 0 <= m < |files| ensures twice.files[m] == once.files[m] {
      if files[m].Some? {
        CleanMonthIdempotent(files[m].value);
      }
    }
    assert twice.files == once.files;
  }

  /** `float(row["Time Elapsed (minutes)"]) >= 1`, false where the lookup or
      the parse would raise. */
  predicate LongEnough(P: Parsers, r: Row)
  {
    TimeElapsed in r && P.toFloat(r[TimeElapsed]).Some? && P.toFloat(r[TimeElapsed]).value >= 1.0
  }

  /** The row test as a value, so that every filter by it is the same filter. */
  function KeepLong(P: Parsers): Row -> bool
  {
    r => LongEnough(P, r)
  }

  /** The lookup and the parse both succeed on this row. */
  predicate Timed(P: Parsers, r: Row)
  {
    TimeElapsed in r && P.toFloat(r[TimeElapsed]).Some?
  }

  predicate AllTimed(P: Parsers, rows: seq<Row>)
  {
    forall i :: 0 <= i < |rows| ==> Timed(P, rows[i])
  }

  /** The row loop of `remove_short_time_entries`: a row without the column
      raises KeyError, one whose value does not parse raises ValueError, and
      the first such row ends the loop. */
  function ShortFilter(P: Parsers, rows: seq<Row>): (r: Result<seq<Row>>)
    ensures r.Ok? <==> AllTimed(P, rows)
    ensures r.Ok? ==> r.value == Seqs.Filter(rows, KeepLong(P))
    ensures r.Err? ==> r.error == KeyError(TimeElapsed) || r.error == ValueError
    decreases |rows|
  {
    if rows == [] then Ok([])
    else if TimeElapsed !in rows[0] then Err(KeyError(TimeElapsed))
    else match P.toFloat(rows[0][TimeElapsed])
      case None => Err(ValueError)
      case Some(x) =>
        var rest := ShortFilter(P, rows[1..]);
        if rest.Err? then rest
        else
          assert KeepLong(P)(rows[0]) <==> x >= 1.0;
          Ok((if x >= 1.0 then [rows[0]] else []) + rest.value)
  }

  /** The first row the loop rejects decides the exception: a missing column
      is a KeyError, not a skipped row. */
  lemma {:induction false} ShortFilterError(P: Parsers, rows: seq<Row>, k: nat)
    requires k < |rows| && !Timed(P, rows[k])
    requires forall i :: 0 <= i < k ==> Timed(P, rows[i])
    ensures ShortFilter(P, rows) == Err(if TimeElapsed in rows[k] then ValueError else KeyError(TimeElapsed))
    decreases k
  {
    if k > 0 {
      ShortFilterError(P, rows[1..], k - 1);
    }
  }

  /** The rows the filter keeps all pass the test again, so a second run
      keeps them all. */
  lemma ShortFilterIdempotent(P: Parsers, rows: seq<Row>)
    requires ShortFilter(P, rows).Ok?
    ensures ShortFilter(P, ShortFilter(P, rows).value) == ShortFilter(P, rows)
  {
    var kept := ShortFilter(P, rows).value;
    assert AllTimed(P, kept) by {
      forall i | 0 <= i < |kept| ensures Timed(P, kept[i]) {
        assert KeepLong(P)(kept[i]);
      }
    }
    Seqs.FilterIdempotent(rows, KeepLong(P));
  }

  /** One month of `remove_short_time_entries`: an absent file is skipped,
      a present one is filtered under its own header (which cannot make the
      write-back fail). */
  function ShortMonth(P: Parsers, f: Option<Table>): (r: Result<Option<Table>>)
    ensures r.Ok? ==> (r.value.None? <==> f.None?)
    ensures r.Ok? && f.Some? ==> r.value.value == Table(f.value.fields, Seqs.Filter(f.value.rows, KeepLong(P)))
    ensures r.Err? <==> f.Some? && !AllTimed(P, f.value.rows)
  {
    match f
    case None => Ok(None)
    case Some(t) =>
      match ShortFilter(P, t.rows)
      case Err(e) => Err(e)
      case Ok(kept) => Ok(Some(Table(t.fields, kept)))
  }

  /** `remove_short_time_entries` over the months, the first of which has
      index `m`; the first exception stops the run with that month and every
      later one unchanged. */
  function RemoveShortAll(P: Parsers, files: seq<Option<Table>>, m: nat): (r: Run)
    ensures |r.files| == |files|
    ensures r.crash.Some? ==> m <= r.crash.value.0 < m + |files|
    decreases |files|
  {
    if files == [] then Run([], None)
    else
      match ShortMonth(P, files[0])
      case Err(e) => Run(files, Some((m, e)))
      case Ok(f) =>
        var rest := RemoveShortAll(P, files[1..], m + 1);
        Run([f] + rest.files, rest.crash)
  }

  /** The run fails with the exception of the month where it stops. */
  lemma {:induction false} RemoveShortCrashCause(P: Parsers, files: seq<Option<Table>>, m: nat)
    requires RemoveShortAll(P, files, m).crash.Some?
    ensures var c := RemoveShortAll(P, files, m).crash.value;
      ShortMonth(P, files[c.0 - m]) == Err(c.1)
    decreases |files|
  {
    if ShortMonth(P, files[0]).Ok? {
      RemoveShortCrashCause(P, files[1..], m + 1);
      var c := RemoveShortAll(P, files[1..], m + 1).crash.value;
      assert files[1..][c.0 - (m + 1)] == files[c.0 - m];
    }
  }

  /** The run completes exactly when no present month's loop raises. */
  lemma {:induction false} RemoveShortNoCrash(P: Parsers, files: seq<Option<Table>>, m: nat)
    ensures RemoveShortAll(P, files, m).crash.None? <==> forall n :: 0 <= n < |files| ==> ShortMonth(P, files[n]).Ok?
    decreases |files|
  {
    if files != [] {
      RemoveShortNoCrash(P, files[1..], m + 1);
      assert forall n :: 0 < n < |files| ==> files[1..][n - 1] == files[n];
    }
  }

  /** Month `n`: filtered and rewritten if the run got past it, as it was
      from the failing month on. */
  lemma {:induction false} RemoveShortMonth(P: Parsers, files: seq<Option<Table>>, m: nat, n: nat)
    requires n < |files|
    ensures var r := RemoveShortAll(P, files, m);
      if r.crash.Some? && m + n >= r.crash.value.0 then r.files[n] == files[n]
      else if files[n].Some? then
        r.files[n] == Some(Table(files[n].value.fields, Seqs.Filter(files[n].value.rows, KeepLong(P))))
      else r.files[n].None?
    decreases |files|
  {
    var r := RemoveShortAll(P, files, m);
    var rest := RemoveShortAll(P, files[1..], m + 1);
    if n > 0 {
      assert files[1..][n - 1] == files[n];
      RemoveShortMonth(P, files[1..], m + 1, n - 1);
      if ShortMonth(P, files[0]).Ok? {
        assert r.files[n] == rest.files[n - 1];
      }
    }
  }

  /** With no crash, a second run of the short-entry pass changes nothing. */
  lemma RemoveShortIdempotent(P: Parsers, files: seq<Option<Table>>)
    requires RemoveShortAll(P, files, 0).crash.None?
    ensures RemoveShortAll(P, RemoveShortAll(P, files, 0).files, 0) == RemoveShortAll(P, files, 0)
  {
    var once := RemoveShortAll(P, files, 0);
    RemoveShortNoCrash(P, files, 0);
    forall n | 0 <= n < |files| ensures ShortMonth(P, once.files[n]) == Ok(once.files[n]) {
      RemoveShortMonth(P, files, 0, n);
      if files[n].Some? {
        ShortFilterIdempotent(P, files[n].value.rows);
      }
    }
    RemoveShortNoCrash(P, once.files, 0);
    var twice := RemoveShortAll(P, once.files, 0);
    forall n | 0 <= n < |files| ensures twice.files[n] == once.files[n] {
      RemoveShortMonth(P, once.files, 0, n);
    }
    assert twice.files == once.files;
  }
}
