/** Evaluation of the derived columns of one row (tools/calc.py).

    A header `name=expression` derives a column.  All derived columns are evaluated in column
    order, again and again as long as some evaluation fails, at most one pass more
    than there are columns. */
module Calc {
  datatype Option<T> = None | Some(value: T)

  /** A cell that has not been evaluated holds the text of the file. */
  datatype Cell = Num(v: real) | Text(s: string)

  /** `Call` is any operator or function that fails on operands that are not numbers. */
  datatype Expr = Lit(v: real) | Col(name: string) | Call(f: string, args: seq<Expr>)

  /** The expression of each column, if it has one. */
  type Fields = map<string, Option<Expr>>

  type Row = map<string, Cell>
  type Functions = (string, seq<real>) -> Option<real>

  datatype Outcome = Ok(row: Row) | CalcException(column: string)

  // ---------- evaluation of an expression ----------

  function Eval(fs: Functions, e: Expr, row: Row): Option<Cell>
    decreases e, 1
  {
    match e
    case Lit(v) => Some(Num(v))
    case Col(name) => if name in row then Some(row[name]) else None
    case Call(f, args) =>
      var xs := Operands(fs, args, row);
      if xs.None? then None
      else match fs(f, xs.value) case Some(v) => Some(Num(v)) case None => None
  }

  function Operands(fs: Functions, args: seq<Expr>, row: Row): Option<seq<real>>
    decreases args, 0
  {
    if args == [] then Some([])
    else
      var first, rest := Eval(fs, args[0], row), Operands(fs, args[1..], row);
      if first.Some? && first.value.Num? && rest.Some? then Some([first.value.v] + rest.value) else None
  }

  ghost predicate IsNumber(fs: Functions, e: Expr, row: Row) {
    Eval(fs, e, row).Some? && Eval(fs, e, row).value.Num?
  }

  ghost predicate AreNumbers(fs: Functions, args: seq<Expr>, row: Row, xs: seq<real>) {
    |xs| == |args| && forall k :: 0 <= k < |args| ==> Eval(fs, args[k], row) == Some(Num(xs[k]))
  }

  /** A call applies its function to the values of its operands, in their order ... */
  lemma CallApplies(fs: Functions, f: string, args: seq<Expr>, row: Row, xs: seq<real>)
    ensures AreNumbers(fs, args, row, xs) ==>
      match fs(f, xs)
      case Some(v) => Eval(fs, Call(f, args), row) == Some(Num(v))
      case None => Eval(fs, Call(f, args), row) == None
  {
    if AreNumbers(fs, args, row, xs) { OperandsAre(fs, args, row, xs); }
  }

  /** ... and fails if some operand fails or is a text. */
  lemma CallRaises(fs: Functions, f: string, args: seq<Expr>, row: Row, k: nat)
    ensures k < |args| && !IsNumber(fs, args[k], row) ==> Eval(fs, Call(f, args), row) == None
  {
    if k < |args| && !IsNumber(fs, args[k], row) { OperandFails(fs, args, row, k); }
  }

  /** A literal is its number, and a name is the cell of the row, number or text. */
  lemma LeavesAre(fs: Functions, v: real, name: string, row: Row)
    ensures Eval(fs, Lit(v), row) == Some(Num(v))
    ensures Eval(fs, Col(name), row) == if name in row then Some(row[name]) else None
  {
  }

  lemma {:induction false} OperandsAre(fs: Functions, args: seq<Expr>, row: Row, xs: seq<real>)
    requires AreNumbers(fs, args, row, xs)
    ensures Operands(fs, args, row) == Some(xs)
  {
    if args != [] {
      OperandsAre(fs, args[1..], row, xs[1..]);
      assert xs == [xs[0]] + xs[1..];
    }
  }

  lemma {:induction false} OperandFails(fs: Functions, args: seq<Expr>, row: Row, k: nat)
    requires k < |args| && !IsNumber(fs, args[k], row)
    ensures Operands(fs, args, row) == None
  {
    if k > 0 { OperandFails(fs, args[1..], row, k - 1); }
  }

  /** Whatever is a number in `m` is the same number in `n`. */
  ghost predicate NumbersWithin(m: Row, n: Row) {
    forall c :: c in m && m[c].Num? ==> c in n && n[c] == m[c]
  }

  ghost predicate Within(m: Row, n: Row) {
    forall c :: c in m ==> c in n && n[c] == m[c]
  }

  lemma {:induction false} EvalNumbers(fs: Functions, e: Expr, m: Row, n: Row)
    requires NumbersWithin(m, n) && Eval(fs, e, m).Some? && Eval(fs, e, m).value.Num?
    ensures Eval(fs, e, n) == Eval(fs, e, m)
    decreases e, 1
  {
    if e.Call? { OperandsNumbers(fs, e.args, m, n); }
  }

  lemma {:induction false} OperandsNumbers(fs: Functions, args: seq<Expr>, m: Row, n: Row)
    requires NumbersWithin(m, n) && Operands(fs, args, m).Some?
    ensures Operands(fs, args, n) == Operands(fs, args, m)
    decreases args, 0
  {
    if args != [] {
      EvalNumbers(fs, args[0], m, n);
      OperandsNumbers(fs, args[1..], m, n);
    }
  }

  lemma EvalWithin(fs: Functions, e: Expr, m: Row, n: Row)
    requires Within(m, n) && Eval(fs, e, m).Some?
    ensures Eval(fs, e, n) == Eval(fs, e, m)
  {
    if Eval(fs, e, m).value.Num? { EvalNumbers(fs, e, m, n); }
  }

  // ---------- evaluation in dependency order ----------

  ghost predicate Known(order: seq<string>, fields: Fields) {
    forall k :: k in order ==> k in fields
  }

  /** The columns differ, and each has a field. */
  ghost predicate Header(order: seq<string>, fields: Fields) {
    Known(order, fields) && forall i, j :: 0 <= i < j < |order| ==> order[i] != order[j]
  }

  /** A row as the file gives it: a cell for each column, and no numbers in the derived ones. */
  ghost predicate Input(order: seq<string>, fields: Fields, row: Row) {
    && Header(order, fields)
    && (forall k :: k in row <==> k in order)
    && (forall k :: k in order && fields[k].Some? ==> row[k].Text?)
  }

  lemma InputRow(order: seq<string>, fields: Fields, row: Row)
    requires Input(order, fields, row)
    ensures Known(order, fields) && row.Keys <= fields.Keys
  {
  }

  /** The columns whose dependencies are at most `d` deep, with their values: given columns at depth
      0, then every column whose expression has a value when only shallower columns are known. */
  ghost function Final(fs: Functions, fields: Fields, row: Row, d: nat): (r: Row)
    requires row.Keys <= fields.Keys
    ensures r.Keys <= row.Keys
  {
    if d == 0 then map k | k in row && fields[k].None? :: row[k]
    else
      var p := Final(fs, fields, row, d - 1);
      map k | k in row && (fields[k].Some? ==> Eval(fs, fields[k].value, p).Some?) ::
        if fields[k].None? then row[k] else Eval(fs, fields[k].value, p).value
  }

  lemma {:induction false} FinalGrows(fs: Functions, fields: Fields, row: Row, d: nat)
    requires row.Keys <= fields.Keys
    ensures Within(Final(fs, fields, row, d), Final(fs, fields, row, d + 1))
  {
    var m, n := Final(fs, fields, row, d), Final(fs, fields, row, d + 1);
    if d > 0 {
      FinalGrows(fs, fields, row, d - 1);
      forall k | k in m ensures k in n && n[k] == m[k] {
        if fields[k].Some? { EvalWithin(fs, fields[k].value, Final(fs, fields, row, d - 1), m); }
      }
    }
  }

  lemma FinalStable(fs: Functions, fields: Fields, row: Row, d: nat)
    requires row.Keys <= fields.Keys && Final(fs, fields, row, d) == Final(fs, fields, row, d + 1)
    ensures Final(fs, fields, row, d + 1) == Final(fs, fields, row, d + 2)
  {
    assert forall k :: fields.Keys >= row.Keys && k in row && fields[k].Some? ==>
      Eval(fs, fields[k].value, Final(fs, fields, row, d)) == Eval(fs, fields[k].value, Final(fs, fields, row, d + 1));
  }

  /** Each level adds a column, until nothing is added any more. */
  lemma {:induction false} FinalCounts(fs: Functions, fields: Fields, row: Row, d: nat)
    requires row.Keys <= fields.Keys
    ensures Final(fs, fields, row, d) == Final(fs, fields, row, d + 1) || |Final(fs, fields, row, d + 1).Keys| > d
  {
    hide Final, Eval;
    var m, n := Final(fs, fields, row, d), Final(fs, fields, row, d + 1);
    FinalGrows(fs, fields, row, d);
    if m != n {
      LargerRow(m, n);
      if d > 0 {
        FinalCounts(fs, fields, row, d - 1);
        if Final(fs, fields, row, d - 1) == m { FinalStable(fs, fields, row, d - 1); }
      }
    }
  }

  lemma LargerRow(m: Row, n: Row)
    requires Within(m, n) && m != n
    ensures |m.Keys| < |n.Keys|
  {
    assert m.Keys <= n.Keys && m.Keys != n.Keys;
    SmallerSet(m.Keys, n.Keys);
  }

  lemma SmallerSet(a: set<string>, b: set<string>)
    requires a < b
    ensures |a| < |b|
  {
    var x :| x in b && x !in a;
    SubsetSize(a, b - {x});
  }

  lemma {:induction false} SubsetSize(a: set<string>, b: set<string>)
    requires a <= b
    ensures |a| <= |b|
  {
    if a != {} {
      var x :| x in a;
      SubsetSize(a - {x}, b - {x});
    }
  }

  lemma {:induction false} SetOfOrder(order: seq<string>)
    ensures |set k | k in order| <= |order|
  {
    if order != [] {
      var n := |order| - 1;
      SetOfOrder(order[..n]);
      assert (set k | k in order) == (set k | k in order[..n]) + {order[n]};
    }
  }

  /** As many levels as there are columns are enough: no dependency chain is longer. */
  lemma FinalSettles(fs: Functions, order: seq<string>, fields: Fields, row: Row)
    requires Input(order, fields, row)
    ensures row.Keys <= fields.Keys
    ensures Final(fs, fields, row, |order| + 1) == Final(fs, fields, row, |order|)
  {
    hide Final;
    var n := |order|;
    var m, m' := Final(fs, fields, row, n), Final(fs, fields, row, n + 1);
    SetOfOrder(order);
    assert row.Keys == set k | k in order;
    SubsetSize(m'.Keys, row.Keys);
    FinalCounts(fs, fields, row, n);
  }

  /** The value of every column in dependency order, where it has one. */
  ghost function Values(fs: Functions, order: seq<string>, fields: Fields, row: Row): Row
    requires row.Keys <= fields.Keys
  {
    Final(fs, fields, row, |order|)
  }

  ghost predicate AllDefined(fs: Functions, order: seq<string>, fields: Fields, row: Row)
    requires row.Keys <= fields.Keys
  {
    Values(fs, order, fields, row).Keys == row.Keys
  }

  // ---------- the passes ----------

  /** A row in the middle of a pass; `failed` is the first column whose evaluation failed. */
  datatype Passed = Passed(row: Row, failed: Option<string>)

  function Visit(fs: Functions, fields: Fields, p: Passed, k: string): Passed
    requires k in fields
  {
    match fields[k]
    case None => p
    case Some(e) =>
      match Eval(fs, e, p.row)
      case Some(v) => p.(row := p.row[k := v])
      case None => if p.failed.None? then p.(failed := Some(k)) else p
  }

  /** The first `j` columns of a pass. */
  function PassTo(fs: Functions, order: seq<string>, fields: Fields, row: Row, j: nat): Passed
    requires j <= |order| && Known(order, fields)
  {
    if j == 0 then Passed(row, None) else Visit(fs, fields, PassTo(fs, order, fields, row, j - 1), order[j - 1])
  }

  lemma PassToStep(fs: Functions, order: seq<string>, fields: Fields, row: Row, j: nat)
    requires j < |order| && Known(order, fields)
    ensures PassTo(fs, order, fields, row, j + 1) == Visit(fs, fields, PassTo(fs, order, fields, row, j), order[j])
  {
  }

  lemma PassToStart(fs: Functions, order: seq<string>, fields: Fields, row: Row)
    requires Known(order, fields)
    ensures PassTo(fs, order, fields, row, 0) == Passed(row, None)
  {
  }

  /** Pass `i` and the ones after it. */
  function Passes(fs: Functions, order: seq<string>, fields: Fields, row: Row, i: nat): Outcome
    requires i <= |order| && Known(order, fields)
    decreases |order| - i
  {
    var p := PassTo(fs, order, fields, row, |order|);
    if p.failed.None? then Ok(p.row)
    else if i == |order| then CalcException(p.failed.value)
    else Passes(fs, order, fields, p.row, i + 1)
  }

  /** do_calc on one row: passes that overwrite the row in place. */
  method Evaluate(fs: Functions, order: seq<string>, fields: Fields, row: Row) returns (r: Outcome)
    requires Known(order, fields)
    ensures r == Passes(fs, order, fields, row, 0)
  {
    var cells, i := row, 0;
    while true
      invariant i <= |order| && Passes(fs, order, fields, cells, i) == Passes(fs, order, fields, row, 0)
      decreases |order| - i
    {
      var retry := false;
      ghost var start := cells;
      for j := 0 to |order|
        invariant cells == PassTo(fs, order, fields, start, j).row
        invariant retry <==> PassTo(fs, order, fields, start, j).failed.Some?
        invariant retry ==> i < |order|
      {
        var k := order[j];
        if fields[k].Some? {
          match Eval(fs, fields[k].value, cells)
          case Some(v) => cells := cells[k := v];
          case None =>
            if i == |order| {
              FirstFailureStays(fs, order, fields, start, j + 1, |order|);
              return CalcException(k);
            }
            retry := true;
        }
      }
      if !retry { return Ok(cells); }
      i := i + 1;
    }
  }

  lemma {:induction false} FirstFailureStays(fs: Functions, order: seq<string>, fields: Fields, row: Row,
                                            i: nat, j: nat)
    requires i <= j <= |order| && Known(order, fields)
    ensures PassTo(fs, order, fields, row, i).failed.Some? ==>
      PassTo(fs, order, fields, row, j).failed == PassTo(fs, order, fields, row, i).failed
  {
    if i < j { FirstFailureStays(fs, order, fields, row, i, j - 1); }
  }

  // ---------- what the passes compute ----------

  /** Given cells are untouched, every number is final, and everything up to depth `d` is final. */
  ghost predicate Reached(fs: Functions, order: seq<string>, fields: Fields, row: Row, cells: Row, d: nat)
    requires row.Keys <= fields.Keys
  {
    && cells.Keys == row.Keys
    && (forall k :: k in row && fields[k].None? ==> cells[k] == row[k])
    && NumbersWithin(cells, Values(fs, order, fields, row))
    && Within(Final(fs, fields, row, d), cells)
  }

  lemma {:induction false} FinalWithin(fs: Functions, fields: Fields, row: Row, d: nat, e: nat)
    requires row.Keys <= fields.Keys && d <= e
    ensures Within(Final(fs, fields, row, d), Final(fs, fields, row, e))
    decreases e
  {
    if d < e {
      FinalWithin(fs, fields, row, d, e - 1);
      FinalGrows(fs, fields, row, e - 1);
    }
  }

  /** A value is final once the numbers it is computed from are. */
  lemma EvalFinal(fs: Functions, order: seq<string>, fields: Fields, row: Row, cells: Row, k: string)
    requires Input(order, fields, row) && k in row && fields[k].Some?
    requires NumbersWithin(cells, Values(fs, order, fields, row))
    requires Eval(fs, fields[k].value, cells).Some? && Eval(fs, fields[k].value, cells).value.Num?
    ensures var v := Values(fs, order, fields, row);
      k in v && v[k] == Eval(fs, fields[k].value, cells).value
  {
    FinalSettles(fs, order, fields, row);
    EvalNumbers(fs, fields[k].value, cells, Values(fs, order, fields, row));
  }

  /** Writing a final value, or a text where nothing is final yet. */
  lemma WriteReaches(fs: Functions, order: seq<string>, fields: Fields, row: Row, cells: Row,
                     d: nat, k: string, x: Cell)
    requires row.Keys <= fields.Keys && k in row && fields[k].Some? && Reached(fs, order, fields, row, cells, d)
    requires x.Num? ==> k in Values(fs, order, fields, row) && Values(fs, order, fields, row)[k] == x
    requires k in Final(fs, fields, row, d) ==> Final(fs, fields, row, d)[k] == x
    ensures Reached(fs, order, fields, row, cells[k := x], d)
  {
    hide Final, Values;
  }

  /** What is final, or not a number, before a column of a pass is so after it, and the column
      itself is one level further. */
  lemma VisitReaches(fs: Functions, order: seq<string>, fields: Fields, row: Row, q: Passed, k: string, d: nat)
    requires Input(order, fields, row) && k in row && Reached(fs, order, fields, row, q.row, d)
    ensures var p, f := Visit(fs, fields, q, k).row, Final(fs, fields, row, d + 1);
      Reached(fs, order, fields, row, p, d) && (k in f ==> p[k] == f[k])
  {
    hide Eval, Values;
    FinalGrows(fs, fields, row, d);
    if fields[k].Some? {
      var x := Eval(fs, fields[k].value, q.row);
      if k in Final(fs, fields, row, d + 1) { EvalWithin(fs, fields[k].value, Final(fs, fields, row, d), q.row); }
      if x.Some? {
        if x.value.Num? { EvalFinal(fs, order, fields, row, q.row, k); }
        WriteReaches(fs, order, fields, row, q.row, d, k, x.value);
      }
    }
  }

  lemma InputAt(order: seq<string>, fields: Fields, row: Row, j: nat)
    requires Input(order, fields, row) && j < |order|
    ensures Known(order, fields) && row.Keys <= fields.Keys && order[j] in row
  {
  }

  lemma VisitOthers(fs: Functions, fields: Fields, q: Passed, k: string, c: string)
    requires k in fields && c != k
    ensures var p := Visit(fs, fields, q, k).row; (c in p <==> c in q.row) && (c in p ==> p[c] == q.row[c])
  {
  }

  /** In a pass, nothing final is lost ... */
  lemma {:induction false} PassKeeps(fs: Functions, order: seq<string>, fields: Fields, row: Row, cells: Row,
                                    d: nat, j: nat)
    requires Input(order, fields, row) && j <= |order| && Reached(fs, order, fields, row, cells, d)
    ensures Reached(fs, order, fields, row, PassTo(fs, order, fields, cells, j).row, d)
  {
    hide *;
    InputRow(order, fields, row);
    if j == 0 {
      PassToStart(fs, order, fields, cells);
    } else {
      InputAt(order, fields, row, j - 1);
      PassToStep(fs, order, fields, cells, j - 1);
      PassKeeps(fs, order, fields, row, cells, d, j - 1);
      VisitReaches(fs, order, fields, row, PassTo(fs, order, fields, cells, j - 1), order[j - 1], d);
    }
  }

  /** ... and a column already visited is one level further. */
  lemma {:induction false} PassReaches(fs: Functions, order: seq<string>, fields: Fields, row: Row, cells: Row,
                                      d: nat, i: nat, j: nat)
    requires Input(order, fields, row) && i < j <= |order| && Reached(fs, order, fields, row, cells, d)
    ensures var p, f, k := PassTo(fs, order, fields, cells, j).row, Final(fs, fields, row, d + 1), order[i];
      k in f ==> k in p && p[k] == f[k]
    decreases j
  {
    hide Final, Visit, Values, NumbersWithin;
    var q := PassTo(fs, order, fields, cells, j - 1);
    PassKeeps(fs, order, fields, row, cells, d, j - 1);
    VisitReaches(fs, order, fields, row, q, order[j - 1], d);
    if i < j - 1 {
      PassReaches(fs, order, fields, row, cells, d, i, j - 1);
      VisitOthers(fs, fields, q, order[j - 1], order[i]);
    }
  }

  /** After pass `d` every column of dependency depth at most `d + 1` has its final value. */
  lemma PassAdvances(fs: Functions, order: seq<string>, fields: Fields, row: Row, cells: Row, d: nat)
    requires Input(order, fields, row) && Reached(fs, order, fields, row, cells, d)
    ensures Reached(fs, order, fields, row, PassTo(fs, order, fields, cells, |order|).row, d + 1)
  {
    hide PassTo, Final, Eval, Values, NumbersWithin, Input;
    InputRow(order, fields, row);
    var n := |order|;
    var p, f := PassTo(fs, order, fields, cells, n).row, Final(fs, fields, row, d + 1);
    PassKeeps(fs, order, fields, row, cells, d, n);
    forall k | k in f ensures k in p && p[k] == f[k] {
      var i := PositionOf(order, fields, row, k);
      PassReaches(fs, order, fields, row, cells, d, i, n);
    }
  }

  lemma PositionOf(order: seq<string>, fields: Fields, row: Row, k: string) returns (i: nat)
    requires Input(order, fields, row) && k in row
    ensures i < |order| && order[i] == k
  {
    i :| i < |order| && order[i] == k;
  }

  // ---------- when a row is returned ----------

  /** Only an operator or a function can fail, and the copy of a column that does not exist. */
  predicate MayFail(order: seq<string>, fields: Fields, k: string)
    requires k in fields
  {
    match fields[k]
    case Some(Call(_, _)) => true
    case Some(Col(c)) => c !in order
    case _ => false
  }

  /** Column `i` can fail and has no value. */
  ghost predicate Lacks(fs: Functions, order: seq<string>, fields: Fields, row: Row, i: nat)
    requires Known(order, fields) && row.Keys <= fields.Keys && i < |order|
  {
    MayFail(order, fields, order[i]) && order[i] !in Values(fs, order, fields, row)
  }

  ghost predicate NoneBefore(fs: Functions, order: seq<string>, fields: Fields, row: Row, i: nat)
    requires Known(order, fields) && row.Keys <= fields.Keys && i <= |order|
  {
    forall m :: 0 <= m < i ==> !Lacks(fs, order, fields, row, m)
  }

  /** Every column that can fail has a value. */
  ghost predicate NoneFails(fs: Functions, order: seq<string>, fields: Fields, row: Row)
    requires Known(order, fields) && row.Keys <= fields.Keys
  {
    forall k :: k in order && MayFail(order, fields, k) ==> k in Values(fs, order, fields, row)
  }

  /** An evaluation that could have failed and does not gives the final value. */
  lemma CleanVisitFinal(fs: Functions, order: seq<string>, fields: Fields, row: Row, q: Passed, k: string, d: nat)
    requires Input(order, fields, row) && k in row && Reached(fs, order, fields, row, q.row, d)
    requires MayFail(order, fields, k) && q.failed.None? && Visit(fs, fields, q, k).failed.None?
    ensures var p, v := Visit(fs, fields, q, k).row, Values(fs, order, fields, row);
      k in v && k in p && p[k] == v[k]
  {
    EvalFinal(fs, order, fields, row, q.row, k);
  }

  lemma {:induction false} CleanPassFinal(fs: Functions, order: seq<string>, fields: Fields, row: Row, cells: Row,
                                          d: nat, i: nat, j: nat)
    requires Input(order, fields, row) && Reached(fs, order, fields, row, cells, d)
    requires i < j <= |order| && MayFail(order, fields, order[i]) && PassTo(fs, order, fields, cells, j).failed.None?
    ensures var p, v, k := PassTo(fs, order, fields, cells, j).row, Values(fs, order, fields, row), order[i];
      k in v && k in p && p[k] == v[k]
    decreases j
  {
    hide Final, Visit, Reached, MayFail;
    FirstFailureStays(fs, order, fields, cells, j - 1, j);
    if i < j - 1 {
      CleanPassFinal(fs, order, fields, row, cells, d, i, j - 1);
      VisitOthers(fs, fields, PassTo(fs, order, fields, cells, j - 1), order[j - 1], order[i]);
    } else {
      PassKeeps(fs, order, fields, row, cells, d, i);
      CleanVisitFinal(fs, order, fields, row, PassTo(fs, order, fields, cells, i), order[i], d);
    }
  }

  /** A pass without failure leaves the value in dependency order in every column that can fail;
      there is then such a value. */
  lemma CleanPass(fs: Functions, order: seq<string>, fields: Fields, row: Row, cells: Row, d: nat)
    requires Input(order, fields, row) && Reached(fs, order, fields, row, cells, d)
    requires PassTo(fs, order, fields, cells, |order|).failed.None?
    ensures row.Keys <= fields.Keys && NoneFails(fs, order, fields, row)
    ensures var p, v := PassTo(fs, order, fields, cells, |order|).row, Values(fs, order, fields, row);
      forall k :: k in order && MayFail(order, fields, k) ==> k in p && p[k] == v[k]
  {
    hide PassTo, Final, Eval, Values, NumbersWithin, Input, MayFail;
    InputRow(order, fields, row);
    var n := |order|;
    forall k | k in order && MayFail(order, fields, k)
      ensures var p, v := PassTo(fs, order, fields, cells, n).row, Values(fs, order, fields, row);
        k in v && k in p && p[k] == v[k]
    {
      var i: nat :| i < n && order[i] == k;
      CleanPassFinal(fs, order, fields, row, cells, d, i, n);
    }
  }

  lemma VisitClean(fs: Functions, order: seq<string>, fields: Fields, row: Row, q: Passed, k: string)
    requires Input(order, fields, row) && k in row && q.failed.None?
    requires row.Keys <= fields.Keys && Reached(fs, order, fields, row, q.row, |order|)
    requires MayFail(order, fields, k) ==> k in Values(fs, order, fields, row)
    ensures Visit(fs, fields, q, k).failed.None?
  {
    FinalSettles(fs, order, fields, row);
    if MayFail(order, fields, k) {
      EvalWithin(fs, fields[k].value, Values(fs, order, fields, row), q.row);
    }
  }

  /** When everything that has a value is final, what can fail and has one does not fail in a pass. */
  lemma {:induction false} FinalPassClean(fs: Functions, order: seq<string>, fields: Fields, row: Row, cells: Row,
                                         j: nat)
    requires Input(order, fields, row) && row.Keys <= fields.Keys && j <= |order|
    requires NoneBefore(fs, order, fields, row, j) && Reached(fs, order, fields, row, cells, |order|)
    ensures PassTo(fs, order, fields, cells, j).failed.None?
  {
    LacksAre(fs, order, fields, row, j);
    hide *;
    InputRow(order, fields, row);
    if j == 0 {
      PassToStart(fs, order, fields, cells);
    } else {
      InputAt(order, fields, row, j - 1);
      FinalPassClean(fs, order, fields, row, cells, j - 1);
      PassKeeps(fs, order, fields, row, cells, |order|, j - 1);
      PassToStep(fs, order, fields, cells, j - 1);
      VisitClean(fs, order, fields, row, PassTo(fs, order, fields, cells, j - 1), order[j - 1]);
    }
  }

  lemma LacksAre(fs: Functions, order: seq<string>, fields: Fields, row: Row, j: nat)
    requires Known(order, fields) && row.Keys <= fields.Keys && j <= |order|
    ensures NoneBefore(fs, order, fields, row, j) && j > 0 ==> NoneBefore(fs, order, fields, row, j - 1)
    ensures NoneBefore(fs, order, fields, row, j) && j > 0 && MayFail(order, fields, order[j - 1]) ==>
      order[j - 1] in Values(fs, order, fields, row)
    ensures NoneBefore(fs, order, fields, row, |order|) <==> NoneFails(fs, order, fields, row)
  {
    hide MayFail, Values;
    assert NoneBefore(fs, order, fields, row, j) && j > 0 ==> !Lacks(fs, order, fields, row, j - 1);
    if NoneBefore(fs, order, fields, row, |order|) {
      forall k | k in order && MayFail(order, fields, k) ensures k in Values(fs, order, fields, row) {
        var m: nat :| m < |order| && order[m] == k;
        assert !Lacks(fs, order, fields, row, m);
      }
    }
  }

  /** Such a pass fails first on the first column that can fail and has no value. */
  lemma FinalPassNames(fs: Functions, order: seq<string>, fields: Fields, row: Row, cells: Row, i: nat)
    requires Input(order, fields, row) && row.Keys <= fields.Keys && i < |order|
    requires Reached(fs, order, fields, row, cells, |order|)
    requires Lacks(fs, order, fields, row, i) && NoneBefore(fs, order, fields, row, i)
    ensures PassTo(fs, order, fields, cells, |order|).failed == Some(order[i])
  {
    hide PassTo, Values, Reached, Input, NoneBefore, MayFail;
    InputAt(order, fields, row, i);
    FinalPassClean(fs, order, fields, row, cells, i);
    PassKeeps(fs, order, fields, row, cells, |order|, i);
    var q := PassTo(fs, order, fields, cells, i);
    if Visit(fs, fields, q, order[i]).failed.None? {
      CleanVisitFinal(fs, order, fields, row, q, order[i], |order|);
    }
    PassToStep(fs, order, fields, cells, i);
    FirstFailureStays(fs, order, fields, cells, i + 1, |order|);
  }

  lemma {:induction false} FirstLack(fs: Functions, order: seq<string>, fields: Fields, row: Row, j: nat)
    returns (i: nat)
    requires Known(order, fields) && row.Keys <= fields.Keys && j <= |order|
    ensures i <= j && NoneBefore(fs, order, fields, row, i) && (i < j ==> Lacks(fs, order, fields, row, i))
  {
    hide Lacks;
    if j == 0 { return 0; }
    i := FirstLack(fs, order, fields, row, j - 1);
    if i == j - 1 && !Lacks(fs, order, fields, row, j - 1) { i := j; }
  }

  /** The exception names the first column that can fail and has no value. */
  ghost predicate NamesFirst(fs: Functions, order: seq<string>, fields: Fields, row: Row, r: Outcome)
    requires Known(order, fields) && row.Keys <= fields.Keys
  {
    r.CalcException? ==>
      exists i :: 0 <= i < |order| && Lacks(fs, order, fields, row, i) && NoneBefore(fs, order, fields, row, i)
                  && r.column == order[i]
  }

  lemma LastPassNames(fs: Functions, order: seq<string>, fields: Fields, row: Row, cells: Row)
    requires Input(order, fields, row) && row.Keys <= fields.Keys && Reached(fs, order, fields, row, cells, |order|)
    ensures var p := PassTo(fs, order, fields, cells, |order|);
      p.failed.Some? ==> !NoneFails(fs, order, fields, row)
                         && NamesFirst(fs, order, fields, row, CalcException(p.failed.value))
  {
    InputRow(order, fields, row);
    hide PassTo, Reached, Input, NoneBefore, Lacks, NoneFails;
    var i := FirstLack(fs, order, fields, row, |order|);
    LacksAre(fs, order, fields, row, |order|);
    if i == |order| {
      FinalPassClean(fs, order, fields, row, cells, i);
    } else {
      FinalPassNames(fs, order, fields, row, cells, i);
      LackFails(fs, order, fields, row, i);
    }
  }

  lemma LackFails(fs: Functions, order: seq<string>, fields: Fields, row: Row, i: nat)
    requires Known(order, fields) && row.Keys <= fields.Keys && i < |order| && Lacks(fs, order, fields, row, i)
    ensures !NoneFails(fs, order, fields, row)
  {
    hide MayFail, Values;
  }

  lemma PassesStep(fs: Functions, order: seq<string>, fields: Fields, cells: Row, i: nat)
    requires i <= |order| && Known(order, fields)
    ensures var p := PassTo(fs, order, fields, cells, |order|);
      Passes(fs, order, fields, cells, i) ==
        if p.failed.None? then Ok(p.row)
        else if i == |order| then CalcException(p.failed.value)
        else Passes(fs, order, fields, p.row, i + 1)
  {
  }

  /** The passes from pass `i` on. */
  lemma {:induction false} PassesRaise(fs: Functions, order: seq<string>, fields: Fields, row: Row, cells: Row, i: nat)
    requires Input(order, fields, row) && i <= |order| && Reached(fs, order, fields, row, cells, i)
    ensures row.Keys <= fields.Keys
    ensures Passes(fs, order, fields, cells, i).Ok? <==> NoneFails(fs, order, fields, row)
    ensures NamesFirst(fs, order, fields, row, Passes(fs, order, fields, cells, i))
    decreases |order| - i
  {
    hide *;
    InputRow(order, fields, row);
    PassesStep(fs, order, fields, cells, i);
    var p := PassTo(fs, order, fields, cells, |order|);
    if p.failed.None? {
      NoneNamed(fs, order, fields, row, p.row);
      CleanPass(fs, order, fields, row, cells, i);
    } else if i == |order| {
      LastPassNames(fs, order, fields, row, cells);
    } else {
      PassAdvances(fs, order, fields, row, cells, i);
      PassesRaise(fs, order, fields, row, p.row, i + 1);
    }
  }

  lemma NoneNamed(fs: Functions, order: seq<string>, fields: Fields, row: Row, r: Row)
    requires Known(order, fields) && row.Keys <= fields.Keys
    ensures NamesFirst(fs, order, fields, row, Ok(r))
  {
  }

  /** CalcException is raised exactly when a column that can fail has no value in dependency order,
      and it names the first of them. */
  lemma RaisesExact(fs: Functions, order: seq<string>, fields: Fields, row: Row)
    requires Input(order, fields, row)
    ensures row.Keys <= fields.Keys
    ensures Passes(fs, order, fields, row, 0).CalcException? <==>
      exists k :: k in order && MayFail(order, fields, k) && k !in Values(fs, order, fields, row)
    ensures NamesFirst(fs, order, fields, row, Passes(fs, order, fields, row, 0))
  {
    FinalWithin(fs, fields, row, 0, |order|);
    PassesRaise(fs, order, fields, row, row, 0);
  }

  /** What dependency order means: where every column has a value, each derived cell is its
      expression evaluated over these very values. */
  lemma ValuesSolve(fs: Functions, order: seq<string>, fields: Fields, row: Row, k: string)
    requires Input(order, fields, row) && k in Values(fs, order, fields, row)
    ensures var v := Values(fs, order, fields, row);
      Some(v[k]) == match fields[k] { case None => Some(row[k]) case Some(e) => Eval(fs, e, v) }
  {
    FinalSettles(fs, order, fields, row);
  }
}
