/** The fixed-offset block of labelled figures that a report writes beneath
    its data, and the read that fetches the figures back by offset. */
module Blocks {
  import opened Py
  import opened Sheets
  import Seqs

  /** Entry k of a block sits on row `base + offsets[k]`: its label in column 0
      and its value in column 1. */
  datatype Layout = Layout(offsets: seq<nat>, labels: seq<string>)

  /** One offset per label, offsets strictly increasing (so no two entries
      share a row), and every label non-blank (so every entry stores a cell). */
  predicate WellFormed(L: Layout)
  {
    && |L.offsets| == |L.labels|
    && (forall i, j :: 0 <= i < j < |L.offsets| ==> L.offsets[i] < L.offsets[j])
    && (forall k :: 0 <= k < |L.labels| ==> L.labels[k] != "")
  }

  function Rest(L: Layout): Layout
    requires |L.offsets| > 0 && |L.labels| > 0
  {
    Layout(L.offsets[1..], L.labels[1..])
  }

  lemma RestWellFormed(L: Layout)
    requires WellFormed(L) && |L.offsets| > 0
    ensures WellFormed(Rest(L))
  {
    var L' := Rest(L);
    forall i, j | 0 <= i < j < |L'.offsets| ensures L'.offsets[i] < L'.offsets[j] {
      assert L'.offsets[i] == L.offsets[i + 1] && L'.offsets[j] == L.offsets[j + 1];
    }
    forall k | 0 <= k < |L'.labels| ensures L'.labels[k] != "" {
      assert L'.labels[k] == L.labels[k + 1];
    }
  }

  /** The label/value writes of one block, entry by entry, label first. */
  function WriteBlock(ws: Worksheet, base: nat, L: Layout, vals: seq<Value>): (r: Worksheet)
    requires |vals| == |L.offsets| == |L.labels|
    decreases |vals|
  {
    if vals == [] then ws
    else
      var row := base + L.offsets[0];
      WriteBlock(Write(Write(ws, row, 0, Text(L.labels[0])), row, 1, vals[0]), base, Rest(L), vals[1..])
  }

  lemma {:induction false} BlockValid(ws: Worksheet, base: nat, L: Layout, vals: seq<Value>)
    requires |vals| == |L.offsets| == |L.labels|
    requires Valid(ws)
    ensures Valid(WriteBlock(ws, base, L, vals))
    decreases |vals|
  {
    if vals != [] {
      var row := base + L.offsets[0];
      WriteValid(ws, row, 0, Text(L.labels[0]));
      WriteValid(Write(ws, row, 0, Text(L.labels[0])), row, 1, vals[0]);
      BlockValid(Write(Write(ws, row, 0, Text(L.labels[0])), row, 1, vals[0]), base, Rest(L), vals[1..]);
    }
  }

  /** A block touches only columns 0 and 1 of its own rows. */
  lemma {:induction false} BlockFrame(ws: Worksheet, base: nat, L: Layout, vals: seq<Value>, i: int, j: int)
    requires |vals| == |L.offsets| == |L.labels|
    requires j >= 2 || forall k :: 0 <= k < |L.offsets| ==> i != base + L.offsets[k]
    ensures Get(WriteBlock(ws, base, L, vals), i, j) == Get(ws, i, j)
    decreases |vals|
  {
    if vals != [] {
      var row := base + L.offsets[0];
      var ws' := Write(Write(ws, row, 0, Text(L.labels[0])), row, 1, vals[0]);
      var L' := Rest(L);
      if j < 2 {
        forall k | 0 <= k < |L'.offsets| ensures i != base + L'.offsets[k] {
          assert L'.offsets[k] == L.offsets[k + 1];
        }
        assert i != row;
      }
      BlockFrame(ws', base, L', vals[1..], i, j);
    }
  }

  /** A block sits entirely at or below its first row, so every row above it,
      in particular every data row, is left as it was. */
  lemma BlockLeavesRowsAbove(ws: Worksheet, base: nat, L: Layout, vals: seq<Value>, i: int, j: int)
    requires WellFormed(L) && |vals| == |L.offsets| > 0
    requires i < base + L.offsets[0]
    ensures Get(WriteBlock(ws, base, L, vals), i, j) == Get(ws, i, j)
  {
    forall k | 0 <= k < |L.offsets| ensures i != base + L.offsets[k] {
      assert k == 0 || L.offsets[0] < L.offsets[k];
    }
    BlockFrame(ws, base, L, vals, i, j);
  }

  /** Writing a block is writing its first entry, then the rest. */
  lemma BlockStep(ws: Worksheet, base: nat, L: Layout, vals: seq<Value>)
    requires |vals| == |L.offsets| == |L.labels| > 0
    ensures WriteBlock(ws, base, L, vals)
         == WriteBlock(Write(Write(ws, base + L.offsets[0], 0, Text(L.labels[0])), base + L.offsets[0], 1, vals[0]),
                       base, Rest(L), vals[1..])
  {
  }

  /** In a well-formed block no later entry shares the first entry's row. */
  lemma RestAvoidsHead(L: Layout, base: nat)
    requires WellFormed(L) && |L.offsets| > 0
    ensures forall k :: 0 <= k < |Rest(L).offsets| ==> base + L.offsets[0] != base + Rest(L).offsets[k]
  {
    forall k | 0 <= k < |Rest(L).offsets| ensures base + L.offsets[0] != base + Rest(L).offsets[k] {
      assert Rest(L).offsets[k] == L.offsets[k + 1];
    }
  }

  /** The first entry's two cells, which no later entry of a well-formed
      block touches. */
  lemma BlockHeadCells(ws: Worksheet, base: nat, L: Layout, vals: seq<Value>)
    requires WellFormed(L) && |vals| == |L.offsets| > 0
    ensures Get(WriteBlock(ws, base, L, vals), base + L.offsets[0], 0) == Some(Str(L.labels[0]))
    ensures Get(WriteBlock(ws, base, L, vals), base + L.offsets[0], 1)
         == if Stored(vals[0]).Some? then Stored(vals[0]) else Get(ws, base + L.offsets[0], 1)
  {
    var row := base + L.offsets[0];
    var ws' := Write(Write(ws, row, 0, Text(L.labels[0])), row, 1, vals[0]);
    BlockStep(ws, base, L, vals);
    RestAvoidsHead(L, base);
    BlockFrame(ws', base, Rest(L), vals[1..], row, 0);
    BlockFrame(ws', base, Rest(L), vals[1..], row, 1);
  }

  /** After a well-formed block is written, entry k's row holds its label in
      column 0 and its value in column 1 (a blank value leaves what was
      there). */
  lemma {:induction false} BlockCells(ws: Worksheet, base: nat, L: Layout, vals: seq<Value>, k: nat)
    requires WellFormed(L) && |vals| == |L.offsets|
    requires k < |vals|
    ensures Get(WriteBlock(ws, base, L, vals), base + L.offsets[k], 0) == Some(Str(L.labels[k]))
    ensures Get(WriteBlock(ws, base, L, vals), base + L.offsets[k], 1)
         == if Stored(vals[k]).Some? then Stored(vals[k]) else Get(ws, base + L.offsets[k], 1)
    decreases |vals|
  {
    if k == 0 {
      BlockHeadCells(ws, base, L, vals);
    } else {
      var row := base + L.offsets[0];
      var w1 := Write(ws, row, 0, Text(L.labels[0]));
      var ws' := Write(w1, row, 1, vals[0]);
      var L' := Rest(L);
      RestWellFormed(L);
      assert WriteBlock(ws, base, L, vals) == WriteBlock(ws', base, L', vals[1..]);
      assert L'.offsets[k - 1] == L.offsets[k] && L'.labels[k - 1] == L.labels[k];
      assert vals[1..][k - 1] == vals[k];
      BlockCells(ws', base, L', vals[1..], k - 1);
      assert L.offsets[0] < L.offsets[k];
      assert Get(ws', base + L.offsets[k], 1) == Get(w1, base + L.offsets[k], 1) == Get(ws, base + L.offsets[k], 1);
    }
  }

  /** On rows nothing was stored on yet, entry k's row of the written sheet
      `w` ends up holding exactly its label and its value. */
  lemma BlockCellsOnFreshRows(ws: Worksheet, base: nat, L: Layout, vals: seq<Value>, k: nat, w: Worksheet)
    requires Valid(ws) && RowsBelow(ws, base)
    requires WellFormed(L) && |vals| == |L.offsets| && k < |vals|
    requires w == WriteBlock(ws, base, L, vals)
    ensures Get(w, base + L.offsets[k], 0) == Some(Str(L.labels[k]))
    ensures Get(w, base + L.offsets[k], 1) == Stored(vals[k])
  {
    BlockCells(ws, base, L, vals, k);
    NothingPastDimRowMax(ws, base + L.offsets[k], 1);
  }

  /** When the sheet already holds a row at or beyond the last block row, the
      block does not move `dimRowMax`; otherwise it ends on the last block row. */
  lemma {:induction false} BlockDimRowMax(ws: Worksheet, base: nat, L: Layout, vals: seq<Value>)
    requires WellFormed(L) && |vals| == |L.offsets| > 0
    requires RowsBelow(ws, base + L.offsets[0])
    ensures WriteBlock(ws, base, L, vals).dimRowMax == Some(base + L.offsets[|vals| - 1])
    decreases |vals|
  {
    var row := base + L.offsets[0];
    var ws' := Write(Write(ws, row, 0, Text(L.labels[0])), row, 1, vals[0]);
    var L' := Rest(L);
    assert ws'.dimRowMax == Some(row);
    assert WriteBlock(ws, base, L, vals) == WriteBlock(ws', base, L', vals[1..]);
    if |vals| > 1 {
      assert L.offsets[0] < L.offsets[1];
      RestWellFormed(L);
      BlockDimRowMax(ws', base, L', vals[1..]);
      assert L'.offsets[|vals| - 2] == L.offsets[|vals| - 1];
      assert WriteBlock(ws', base, L', vals[1..]).dimRowMax == Some(base + L.offsets[|vals| - 1]);
    } else {
      assert WriteBlock(ws', base, L', vals[1..]) == ws';
      assert ws'.dimRowMax == Some(base + L.offsets[|vals| - 1]);
    }
  }

  /** Column 1 of each block row: what a reader using the same base and
      offsets fetches. */
  function ReadBlock(ws: Worksheet, base: int, offsets: seq<nat>): (r: seq<Option<Cell>>)
    ensures |r| == |offsets|
    ensures forall k :: 0 <= k < |offsets| ==> r[k] == Get(ws, base + offsets[k], 1)
  {
    seq(|offsets|, k requires 0 <= k < |offsets| => Get(ws, base + offsets[k], 1))
  }

  /** Write/read agreement: reading a freshly written block with the writer's
      own base and offsets returns exactly the stored values, blanks as None. */
  lemma BlockRoundTrip(ws: Worksheet, base: nat, L: Layout, vals: seq<Value>)
    requires Valid(ws)
    requires WellFormed(L) && |vals| == |L.offsets| > 0
    requires RowsBelow(ws, base + L.offsets[0])
    ensures ReadBlock(WriteBlock(ws, base, L, vals), base, L.offsets) == Seqs.Map(vals, Stored)
  {
    EntriesReadBack(ws, base, L, vals, WriteBlock(ws, base, L, vals));
  }

  /** Every value cell of the block, on rows nothing was stored on before. */
  lemma EntriesReadBack(ws: Worksheet, base: nat, L: Layout, vals: seq<Value>, r: Worksheet)
    requires Valid(ws)
    requires WellFormed(L) && |vals| == |L.offsets| > 0
    requires RowsBelow(ws, base + L.offsets[0])
    requires r == WriteBlock(ws, base, L, vals)
    ensures ReadBlock(r, base, L.offsets) == Seqs.Map(vals, Stored)
  {
    forall k | 0 <= k < |vals|
      ensures ReadBlock(r, base, L.offsets)[k] == Stored(vals[k])
    {
      EntryReadsBack(ws, base, L, vals, k, r);
    }
  }

  /** Entry k's value cell, on a row nothing was stored on before. */
  lemma EntryReadsBack(ws: Worksheet, base: nat, L: Layout, vals: seq<Value>, k: nat, r: Worksheet)
    requires Valid(ws)
    requires WellFormed(L) && |vals| == |L.offsets| > k
    requires RowsBelow(ws, base + L.offsets[0])
    requires r == WriteBlock(ws, base, L, vals)
    ensures Get(r, base + L.offsets[k], 1) == Stored(vals[k])
  {
    BlockCells(ws, base, L, vals, k);
    assert k == 0 || L.offsets[0] < L.offsets[k];
    NothingPastDimRowMax(ws, base + L.offsets[k], 1);
  }

  /** A reader whose base lies past every stored row fetches nothing at all. */
  lemma ReadPastSheet(ws: Worksheet, base: int, offsets: seq<nat>)
    requires Valid(ws)
    requires ws.dimRowMax.None? || base > ws.dimRowMax.value
    ensures forall k :: 0 <= k < |offsets| ==> ReadBlock(ws, base, offsets)[k] == None
  {
    forall k | 0 <= k < |offsets|
      ensures ReadBlock(ws, base, offsets)[k] == None
    {
      NothingPastDimRowMax(ws, base + offsets[k], 1);
    }
  }
}
