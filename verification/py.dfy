/** Python-level vocabulary shared by every script model: the exceptions the
    scripts can raise, Option/Result, the abstract number parsers behind
    `float()` and `int()`, a row's field lookup, and sums of reals. */
module Py {

  /** The exceptions the scripts raise. Unless a model says otherwise, an
      exception is not caught and ends the run. */
  datatype Error =
    | KeyError(key: string)
    | ValueError
    | TypeError
    | IndexError
    | ZeroDivisionError

  datatype Option<+T> = None | Some(value: T) {
    function GetOr(default: T): T {
      match this
      case Some(v) => v
      case None => default
    }
  }

  /** A computation that either produced a value or raised an exception. */
  datatype Result<+T> = Ok(value: T) | Err(error: Error) {
    predicate IsFailure() {
      Err?
    }

    function PropagateFailure<U>(): Result<U>
      requires Err?
    {
      Err(error)
    }

    function Extract(): T
      requires Ok?
    {
      value
    }
  }

  /** A `csv.DictReader` row: field name to cell text. DictReader's `None` for
      a short row's missing trailing fields is written back as "" by the
      cleaning passes, so it is represented by "" from the start. */
  type Row = map<string, string>

  /** Python's `float(s)` and `int(s)` on strings. Their literal grammar is not
      modelled: they are any partial functions, None standing for ValueError. */
  datatype Parsers = Parsers(toFloat: string -> Option<real>, toInt: string -> Option<int>)

  /** `row[key]`. */
  function Field(row: Row, key: string): (r: Result<string>)
    ensures r.Ok? <==> key in row
    ensures r.Ok? ==> r.value == row[key]
    ensures r.Err? ==> r.error == KeyError(key)
  {
    if key in row then Ok(row[key]) else Err(KeyError(key))
  }

  /** `float(row[key])`. */
  function FloatField(P: Parsers, row: Row, key: string): (r: Result<real>)
    ensures r.Ok? <==> key in row && P.toFloat(row[key]).Some?
    ensures r.Ok? ==> Some(r.value) == P.toFloat(row[key])
    ensures r.Err? ==> r.error == if key in row then ValueError else KeyError(key)
  {
    var s :- Field(row, key);
    match P.toFloat(s)
    case Some(x) => Ok(x)
    case None => Err(ValueError)
  }

  /** Sum of reals, accumulated left to right as the scripts' `+=` loops do. */
  function Sum(xs: seq<real>): real
  {
    if xs == [] then 0.0 else Sum(xs[..|xs| - 1]) + xs[|xs| - 1]
  }

  lemma {:induction false} SumAppend(xs: seq<real>, ys: seq<real>)
    ensures Sum(xs + ys) == Sum(xs) + Sum(ys)
    decreases |ys|
  {
    if ys == [] {
      assert xs + ys == xs;
    } else {
      var zs := ys[..|ys| - 1];
      assert (xs + ys)[..|xs + ys| - 1] == xs + zs;
      SumAppend(xs, zs);
    }
  }

  lemma SumSingle(x: real)
    ensures Sum([x]) == x
  {
    assert [x][..0] == [];
  }
}
