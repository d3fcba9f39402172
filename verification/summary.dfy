/** The yearly summary sheet shared by the reports: a header row, one row per
    calendar month (row m + 1 for the m-th month, 0-based), and the
    "Yearly Totals" row right after the twelve months. */
module Summary {
  import opened Py
  import opened Sheets

  const Months: seq<string> := [
    "January", "February", "March", "April", "May", "June",
    "July", "August", "September", "October", "November", "December"
  ]

  /** `len(months_list) + 1`, that is row 13. */
  const TotalsRow: nat := |Months| + 1

  /** The summary row of month `m`: its name in column 0, then `vals`. */
  function MonthRow(ws: Worksheet, m: nat, vals: seq<Value>): (r: Worksheet)
    requires m < |Months|
    ensures Get(r, m + 1, 0) == Some(Str(Months[m]))
    ensures forall j :: 0 <= j < |vals| ==>
      Get(r, m + 1, j + 1) == if Stored(vals[j]).Some? then Stored(vals[j]) else Get(ws, m + 1, j + 1)
    ensures forall i, j {:trigger Get(r, i, j)} :: i != m + 1 ==> Get(r, i, j) == Get(ws, i, j)
  {
    assert Months[m] != "";
    WriteRow(ws, m + 1, 0, [Text(Months[m])] + vals)
  }

  /** The numbers as cells. */
  function Numbers(xs: seq<real>): (r: seq<Value>)
    ensures |r| == |xs|
    ensures forall j :: 0 <= j < |xs| ==> r[j] == Number(xs[j])
  {
    seq(|xs|, j requires 0 <= j < |xs| => Number(xs[j]))
  }

  /** The totals row: "Yearly Totals", then one total per column. */
  function WriteTotals(ws: Worksheet, totals: seq<real>): (r: Worksheet)
    ensures Get(r, TotalsRow, 0) == Some(Str("Yearly Totals"))
    ensures forall j :: 0 <= j < |totals| ==> Get(r, TotalsRow, j + 1) == Some(Num(totals[j]))
    ensures forall i, j {:trigger Get(r, i, j)} :: i != TotalsRow ==> Get(r, i, j) == Get(ws, i, j)
  {
    WriteRow(ws, TotalsRow, 0, [Text("Yearly Totals")] + Numbers(totals))
  }

  /** The header row: "Month", then the column labels. */
  function WriteHeader(labels: seq<string>): (r: Worksheet)
    ensures Get(r, 0, 0) == Some(Str("Month"))
    ensures forall j :: 0 <= j < |labels| && labels[j] != "" ==> Get(r, 0, j + 1) == Some(Str(labels[j]))
    ensures forall i, j {:trigger Get(r, i, j)} :: i != 0 ==> Get(r, i, j) == None
  {
    var vals := [Text("Month")] + seq(|labels|, j requires 0 <= j < |labels| => Text(labels[j]));
    assert forall j :: 0 <= j < |labels| ==> vals[j + 1] == Text(labels[j]);
    WriteRow(EmptySheet, 0, 0, vals)
  }

  /** Element-wise `+=` of one month's numbers into the running totals. */
  function AddTo(totals: seq<real>, xs: seq<real>): (r: seq<real>)
    requires |totals| == |xs|
    ensures |r| == |xs|
    ensures forall j :: 0 <= j < |xs| ==> r[j] == totals[j] + xs[j]
  {
    seq(|xs|, j requires 0 <= j < |xs| => totals[j] + xs[j])
  }

  /** The totals before any month: `[0] * n`. */
  function Zeros(n: nat): (r: seq<real>)
    ensures |r| == n
    ensures forall j :: 0 <= j < n ==> r[j] == 0.0
  {
    seq(n, j => 0.0)
  }
}
