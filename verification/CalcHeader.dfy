/** Which headers the passes of tools/calc.py evaluate right, on every row.

    A rehearsal of the passes on the header alone follows which columns are final.  It ends with
    the first pass in which nothing fails, as the passes do; they are right on all rows exactly when
    every column is final by then. */
module CalcHeader {
  import opened Calc

  // ---------- the columns an expression reads ----------

  function Names(e: Expr): set<string>
    decreases e, 1
  {
    match e
    case Lit(_) => {}
    case Col(name) => {name}
    case Call(_, args) => NamesOfAll(args)
  }

  function NamesOfAll(args: seq<Expr>): set<string>
    decreases args, 0
  {
    if args == [] then {} else Names(args[0]) + NamesOfAll(args[1..])
  }

  ghost predicate SameOn(names: set<string>, m: Row, n: Row) {
    forall c :: c in names ==> c in m && c in n && m[c] == n[c]
  }

  /** Only the columns read matter. */
  lemma {:induction false} EvalReads(fs: Functions, e: Expr, m: Row, n: Row)
    requires SameOn(Names(e), m, n)
    ensures Eval(fs, e, m) == Eval(fs, e, n)
    decreases e, 1
  {
    if e.Call? { OperandsRead(fs, e.args, m, n); }
  }

  lemma {:induction false} OperandsRead(fs: Functions, args: seq<Expr>, m: Row, n: Row)
    requires SameOn(NamesOfAll(args), m, n)
    ensures Operands(fs, args, m) == Operands(fs, args, n)
    decreases args, 0
  {
    if args != [] {
      EvalReads(fs, args[0], m, n);
      OperandsRead(fs, args[1..], m, n);
    }
  }

  ghost predicate NoNumber(m: Row, c: string) { c !in m || m[c].Text? }

  /** A call fails if any column it reads, however deep, is not a number. */
  lemma {:induction false} CallFails(fs: Functions, e: Expr, m: Row, c: string)
    requires c in Names(e) && NoNumber(m, c)
    ensures Eval(fs, e, m).None? || Eval(fs, e, m).value.Text?
    ensures e.Call? ==> Eval(fs, e, m).None?
    decreases e, 1
  {
    if e.Call? { OperandsFail(fs, e.args, m, c); }
  }

  lemma {:induction false} OperandsFail(fs: Functions, args: seq<Expr>, m: Row, c: string)
    requires c in NamesOfAll(args) && NoNumber(m, c)
    ensures Operands(fs, args, m).None?
    decreases args, 0
  {
    if c in Names(args[0]) { CallFails(fs, args[0], m, c); } else { OperandsFail(fs, args[1..], m, c); }
  }

  /** What has a value reads only columns that have one. */
  lemma EvalKnows(fs: Functions, e: Expr, m: Row)
    requires Eval(fs, e, m).Some?
    ensures Names(e) <= m.Keys
  {
    forall c | c in Names(e) ensures c in m {
      if c !in m { CallFails(fs, e, m, c); }
    }
  }

  // ---------- a rehearsal of the passes, from the header alone ----------

  function GivenColumns(order: seq<string>, fields: Fields): set<string>
    requires Known(order, fields)
  {
    set k | k in order && fields[k].None?
  }

  /** A visit makes a column final if the columns it reads are. */
  function See(fields: Fields, ready: set<string>, k: string): set<string>
    requires k in fields
  {
    if fields[k].Some? && Names(fields[k].value) <= ready then ready + {k} else ready
  }

  function SeeTo(order: seq<string>, fields: Fields, ready: set<string>, j: nat): set<string>
    requires j <= |order| && Known(order, fields)
  {
    if j == 0 then ready else See(fields, SeeTo(order, fields, ready, j - 1), order[j - 1])
  }

  /** Nothing that can fail fails any more. */
  predicate Clean(order: seq<string>, fields: Fields, ready: set<string>)
    requires Known(order, fields)
  {
    forall k :: k in order && MayFail(order, fields, k) ==> k in ready
  }

  /** The columns that are final after the last pass: the first one that is clean, if there is one. */
  function Rehearse(order: seq<string>, fields: Fields, ready: set<string>, i: nat): set<string>
    requires i <= |order| && Known(order, fields)
    decreases |order| - i
  {
    var r := SeeTo(order, fields, ready, |order|);
    if Clean(order, fields, r) || i == |order| then r else Rehearse(order, fields, r, i + 1)
  }

  function ReadyInTheEnd(order: seq<string>, fields: Fields): set<string>
    requires Known(order, fields)
  {
    Rehearse(order, fields, GivenColumns(order, fields), 0)
  }

  /** Every column, copies included, is final by the first pass in which nothing fails. */
  predicate Settles(order: seq<string>, fields: Fields)
    requires Known(order, fields)
  {
    var r := ReadyInTheEnd(order, fields);
    Clean(order, fields, r) ==> forall k :: k in order ==> k in r
  }

  lemma {:induction false} SeeToGrows(order: seq<string>, fields: Fields, ready: set<string>, i: nat, j: nat)
    requires i <= j <= |order| && Known(order, fields)
    ensures SeeTo(order, fields, ready, i) <= SeeTo(order, fields, ready, j)
  {
    if i < j { SeeToGrows(order, fields, ready, i, j - 1); }
  }

  // ---------- the run follows the rehearsal ----------

  /** A column whose columns have values has one. */
  ghost predicate Total(fs: Functions, order: seq<string>, fields: Fields, row: Row)
    requires row.Keys <= fields.Keys
  {
    var v := Values(fs, order, fields, row);
    forall k :: k in row && fields[k].Some? && Names(fields[k].value) <= v.Keys ==> k in v
  }

  /** The ready columns have their values, and the others still have texts of the file. */
  ghost predicate Follows(fs: Functions, order: seq<string>, fields: Fields, row: Row, ready: set<string>, cells: Row)
    requires row.Keys <= fields.Keys
  {
    && cells.Keys == row.Keys && ready <= row.Keys
    && SameOn(ready, cells, Values(fs, order, fields, row))
    && (forall k :: k in row && k !in ready ==> fields[k].Some? && cells[k].Text?)
    && (forall k :: k in ready && fields[k].Some? ==> Names(fields[k].value) <= ready)
  }

  lemma EvalReady(fs: Functions, order: seq<string>, fields: Fields, row: Row, ready: set<string>,
                  cells: Row, k: string)
    requires Input(order, fields, row) && row.Keys <= fields.Keys && Total(fs, order, fields, row)
    requires k in row && fields[k].Some? && Names(fields[k].value) <= ready
    requires Follows(fs, order, fields, row, ready, cells)
    ensures k in Values(fs, order, fields, row)
    ensures Eval(fs, fields[k].value, cells) == Some(Values(fs, order, fields, row)[k])
  {
    var v := Values(fs, order, fields, row);
    assert k in v;
    ValuesSolve(fs, order, fields, row, k);
    hide Values, Final, Eval, Total, Names;
    EvalReads(fs, fields[k].value, cells, v);
  }

  lemma VisitReady(fs: Functions, order: seq<string>, fields: Fields, row: Row, ready: set<string>,
                   q: Passed, k: string)
    requires Input(order, fields, row) && row.Keys <= fields.Keys && Total(fs, order, fields, row)
    requires k in row && fields[k].Some? && Names(fields[k].value) <= ready
    requires Follows(fs, order, fields, row, ready, q.row)
    ensures Eval(fs, fields[k].value, q.row).Some?
    ensures Follows(fs, order, fields, row, ready + {k}, Visit(fs, fields, q, k).row)
  {
    hide Total, Values, Eval, Names, Input;
    EvalReady(fs, order, fields, row, ready, q.row, k);
  }

  lemma VisitUnready(fs: Functions, order: seq<string>, fields: Fields, row: Row, ready: set<string>,
                     q: Passed, k: string)
    requires Input(order, fields, row) && row.Keys <= fields.Keys
    requires k in row && !(fields[k].Some? && Names(fields[k].value) <= ready)
    requires Follows(fs, order, fields, row, ready, q.row)
    ensures Follows(fs, order, fields, row, ready, Visit(fs, fields, q, k).row)
    ensures fields[k].Some? ==> (Eval(fs, fields[k].value, q.row).None? <==> MayFail(order, fields, k)) && k !in ready
    ensures fields[k].None? ==> k in ready
  {
    hide Values;
    if fields[k].Some? {
      var c :| c in Names(fields[k].value) && c !in ready;
      CallFails(fs, fields[k].value, q.row, c);
    }
  }

  lemma VisitFollows(fs: Functions, order: seq<string>, fields: Fields, row: Row, ready: set<string>,
                     q: Passed, k: string)
    requires Input(order, fields, row) && row.Keys <= fields.Keys && Total(fs, order, fields, row)
    requires k in row && Follows(fs, order, fields, row, ready, q.row)
    ensures Follows(fs, order, fields, row, See(fields, ready, k), Visit(fs, fields, q, k).row)
    ensures Visit(fs, fields, q, k).failed.None? <==>
      q.failed.None? && (MayFail(order, fields, k) ==> k in See(fields, ready, k))
  {
    hide Follows, Total, Names, Values, Eval;
    if fields[k].Some? && Names(fields[k].value) <= ready {
      VisitReady(fs, order, fields, row, ready, q, k);
    } else {
      VisitUnready(fs, order, fields, row, ready, q, k);
    }
  }

  ghost predicate CleanTo(order: seq<string>, fields: Fields, ready: set<string>, j: nat)
    requires j <= |order| && Known(order, fields)
  {
    forall i :: 0 <= i < j && MayFail(order, fields, order[i]) ==> order[i] in ready
  }

  lemma {:induction false} PassFollows(fs: Functions, order: seq<string>, fields: Fields, row: Row,
                                       ready: set<string>, cells: Row, j: nat)
    requires Input(order, fields, row) && row.Keys <= fields.Keys && Total(fs, order, fields, row)
    requires j <= |order| && Follows(fs, order, fields, row, ready, cells)
    ensures var p, r := PassTo(fs, order, fields, cells, j), SeeTo(order, fields, ready, j);
      Follows(fs, order, fields, row, r, p.row) && (p.failed.None? <==> CleanTo(order, fields, r, j))
  {
    hide Follows, Total, Visit, MayFail, Names;
    if j > 0 {
      PassFollows(fs, order, fields, row, ready, cells, j - 1);
      VisitFollows(fs, order, fields, row, SeeTo(order, fields, ready, j - 1),
                   PassTo(fs, order, fields, cells, j - 1), order[j - 1]);
    }
  }

  /** For a row on which functions are defined wherever they have operands, the run ends as the
      rehearsal says. */
  lemma {:induction false} PassesFollow(fs: Functions, order: seq<string>, fields: Fields, row: Row,
                                        ready: set<string>, cells: Row, i: nat)
    requires Input(order, fields, row) && row.Keys <= fields.Keys && Total(fs, order, fields, row)
    requires i <= |order| && Follows(fs, order, fields, row, ready, cells)
    ensures var o, r := Passes(fs, order, fields, cells, i), Rehearse(order, fields, ready, i);
      (o.Ok? <==> Clean(order, fields, r)) && (o.Ok? ==> Follows(fs, order, fields, row, r, o.row))
    decreases |order| - i
  {
    hide Follows, Total, MayFail, SeeTo, PassTo;
    var p, r := PassTo(fs, order, fields, cells, |order|), SeeTo(order, fields, ready, |order|);
    PassFollows(fs, order, fields, row, ready, cells, |order|);
    assert CleanTo(order, fields, r, |order|) <==> Clean(order, fields, r);
    PassesStep(fs, order, fields, cells, i);
    if p.failed.Some? && i < |order| { PassesFollow(fs, order, fields, row, r, p.row, i + 1); }
  }

  lemma RunFollows(fs: Functions, order: seq<string>, fields: Fields, row: Row)
    requires Input(order, fields, row) && row.Keys <= fields.Keys && Total(fs, order, fields, row)
    ensures var o, r := Passes(fs, order, fields, row, 0), ReadyInTheEnd(order, fields);
      (o.Ok? <==> Clean(order, fields, r)) && (o.Ok? ==> Follows(fs, order, fields, row, r, o.row))
  {
    hide Passes, Rehearse, Clean, Eval, Total;
    FinalWithin(fs, fields, row, 0, |order|);
    PassesFollow(fs, order, fields, row, GivenColumns(order, fields), row, 0);
  }

  // ---------- which columns are ready ----------

  /** A column of depth d + 1 is ready one pass after those of depth d. */
  lemma PassCovers(fs: Functions, order: seq<string>, fields: Fields, row: Row, ready: set<string>, d: nat)
    requires Input(order, fields, row) && row.Keys <= fields.Keys && Final(fs, fields, row, d).Keys <= ready
    ensures Final(fs, fields, row, d + 1).Keys <= SeeTo(order, fields, ready, |order|)
  {
    hide SeeTo, Eval, Names;
    var m, n, f := Final(fs, fields, row, d), |order|, Final(fs, fields, row, d + 1);
    FinalWithin(fs, fields, row, 0, d);
    SeeToGrows(order, fields, ready, 0, n);
    SeeToStart(order, fields, ready);
    forall k | k in f ensures k in SeeTo(order, fields, ready, n) {
      if fields[k].Some? {
        EvalKnows(fs, fields[k].value, m);
        var i := PositionOf(order, fields, row, k);
        SeeToGrows(order, fields, ready, 0, i);
        SeeToStep(order, fields, ready, i);
        SeeToGrows(order, fields, ready, i + 1, n);
      }
    }
  }

  lemma SeeToStart(order: seq<string>, fields: Fields, ready: set<string>)
    requires Known(order, fields)
    ensures SeeTo(order, fields, ready, 0) == ready
  {
  }

  lemma SeeToStep(order: seq<string>, fields: Fields, ready: set<string>, j: nat)
    requires j < |order| && Known(order, fields)
    ensures SeeTo(order, fields, ready, j + 1) == See(fields, SeeTo(order, fields, ready, j), order[j])
  {
  }

  /** Unless the rehearsal stops at a clean pass, it gets to every column that has a value on some row. */
  lemma {:induction false} RehearseCovers(fs: Functions, order: seq<string>, fields: Fields, row: Row,
                                          ready: set<string>, i: nat)
    requires Input(order, fields, row) && row.Keys <= fields.Keys && i <= |order|
    requires Final(fs, fields, row, i).Keys <= ready
    ensures var r := Rehearse(order, fields, ready, i);
      Clean(order, fields, r) || Values(fs, order, fields, row).Keys <= r
    decreases |order| - i
  {
    hide SeeTo, Clean, Final;
    PassCovers(fs, order, fields, row, ready, i);
    var r := SeeTo(order, fields, ready, |order|);
    FinalGrows(fs, fields, row, i);
    if !Clean(order, fields, r) && i < |order| { RehearseCovers(fs, order, fields, row, r, i + 1); }
  }

  /** Where nothing fails, what is ready has a value. */
  lemma SeeDefined(fs: Functions, order: seq<string>, fields: Fields, row: Row, ready: set<string>, k: string)
    requires Input(order, fields, row) && row.Keys <= fields.Keys && NoneFails(fs, order, fields, row)
    requires k in order && ready <= Values(fs, order, fields, row).Keys
    ensures See(fields, ready, k) <= Values(fs, order, fields, row).Keys
  {
    FinalSettles(fs, order, fields, row);
  }

  lemma {:induction false} SeeToDefined(fs: Functions, order: seq<string>, fields: Fields, row: Row,
                                         ready: set<string>, j: nat)
    requires Input(order, fields, row) && row.Keys <= fields.Keys && NoneFails(fs, order, fields, row)
    requires j <= |order| && ready <= Values(fs, order, fields, row).Keys
    ensures SeeTo(order, fields, ready, j) <= Values(fs, order, fields, row).Keys
  {
    hide Values, See, NoneFails;
    if j > 0 {
      SeeToDefined(fs, order, fields, row, ready, j - 1);
      SeeDefined(fs, order, fields, row, SeeTo(order, fields, ready, j - 1), order[j - 1]);
    }
  }

  lemma {:induction false} RehearseDefined(fs: Functions, order: seq<string>, fields: Fields, row: Row,
                                            ready: set<string>, i: nat)
    requires Input(order, fields, row) && row.Keys <= fields.Keys && NoneFails(fs, order, fields, row)
    requires i <= |order| && ready <= Values(fs, order, fields, row).Keys
    ensures Rehearse(order, fields, ready, i) <= Values(fs, order, fields, row).Keys
    decreases |order| - i
  {
    hide Values, SeeTo, NoneFails, Clean;
    SeeToDefined(fs, order, fields, row, ready, |order|);
    var r := SeeTo(order, fields, ready, |order|);
    if !Clean(order, fields, r) && i < |order| { RehearseDefined(fs, order, fields, row, r, i + 1); }
  }

  // ---------- when the passes are right ----------

  /** What the passes are for: the values in dependency order if every column has one, and
      CalcException otherwise. */
  ghost predicate Right(fs: Functions, order: seq<string>, fields: Fields, row: Row)
    requires Known(order, fields) && row.Keys <= fields.Keys
  {
    var r := Passes(fs, order, fields, row, 0);
    if AllDefined(fs, order, fields, row) then r == Ok(Values(fs, order, fields, row)) else r.CalcException?
  }

  ghost predicate AlwaysRight(order: seq<string>, fields: Fields)
    requires Known(order, fields)
  {
    forall fs, row :: Input(order, fields, row) && row.Keys <= fields.Keys ==> Right(fs, order, fields, row)
  }

  lemma SettledIsRight(fs: Functions, order: seq<string>, fields: Fields, row: Row)
    requires Input(order, fields, row) && Settles(order, fields)
    ensures row.Keys <= fields.Keys && Right(fs, order, fields, row)
  {
    hide Values, Final, Passes, Rehearse, Follows, MayFail, Eval;
    InputRow(order, fields, row);
    RaisesExact(fs, order, fields, row);
    GivenFinal(fs, order, fields, row);
    RehearseCovers(fs, order, fields, row, GivenColumns(order, fields), 0);
    if AllDefined(fs, order, fields, row) {
      RunFollows(fs, order, fields, row);
      FollowsAll(fs, order, fields, row);
    } else if NoneFails(fs, order, fields, row) {
      RehearseDefined(fs, order, fields, row, GivenColumns(order, fields), 0);
      ValuesInRow(fs, order, fields, row);
    }
  }

  lemma ValuesInRow(fs: Functions, order: seq<string>, fields: Fields, row: Row)
    requires row.Keys <= fields.Keys
    ensures Values(fs, order, fields, row).Keys <= row.Keys
  {
  }

  lemma GivenFinal(fs: Functions, order: seq<string>, fields: Fields, row: Row)
    requires Input(order, fields, row) && row.Keys <= fields.Keys
    ensures Final(fs, fields, row, 0).Keys == GivenColumns(order, fields) <= Values(fs, order, fields, row).Keys
  {
    FinalWithin(fs, fields, row, 0, |order|);
  }

  lemma FollowsAll(fs: Functions, order: seq<string>, fields: Fields, row: Row)
    requires Input(order, fields, row) && row.Keys <= fields.Keys && AllDefined(fs, order, fields, row)
    ensures forall r, cells :: Follows(fs, order, fields, row, r, cells) && row.Keys <= r ==>
      cells == Values(fs, order, fields, row)
  {
  }

  // ---------- a row that shows every failure ----------

  const ZERO: Functions := (f: string, xs: seq<real>) => Some(0.0)

  function Sample(order: seq<string>, fields: Fields): Row
    requires Known(order, fields)
  {
    map k | k in order :: if fields[k].None? then Num(0.0) else Text("")
  }

  ghost predicate Numeric(m: Row) { forall k :: k in m ==> m[k].Num? }

  lemma {:induction false} EvalZero(e: Expr, m: Row)
    requires Numeric(m) && Names(e) <= m.Keys
    ensures Eval(ZERO, e, m).Some? && Eval(ZERO, e, m).value.Num?
    decreases e, 1
  {
    if e.Call? { OperandsZero(e.args, m); }
  }

  lemma {:induction false} OperandsZero(args: seq<Expr>, m: Row)
    requires Numeric(m) && NamesOfAll(args) <= m.Keys
    ensures Operands(ZERO, args, m).Some?
    decreases args, 0
  {
    if args != [] {
      EvalZero(args[0], m);
      OperandsZero(args[1..], m);
    }
  }

  lemma {:induction false} FinalNumeric(order: seq<string>, fields: Fields, d: nat)
    requires Header(order, fields)
    ensures Input(order, fields, Sample(order, fields)) && Sample(order, fields).Keys <= fields.Keys
    ensures Numeric(Final(ZERO, fields, Sample(order, fields), d))
  {
    if d > 0 {
      FinalNumeric(order, fields, d - 1);
      var p := Final(ZERO, fields, Sample(order, fields), d - 1);
      forall k | k in order && fields[k].Some? && Eval(ZERO, fields[k].value, p).Some?
        ensures Eval(ZERO, fields[k].value, p).value.Num?
      {
        EvalKnows(ZERO, fields[k].value, p);
        EvalZero(fields[k].value, p);
      }
    }
  }

  lemma SampleTotal(order: seq<string>, fields: Fields)
    requires Header(order, fields)
    ensures var row := Sample(order, fields);
      && Input(order, fields, row) && row.Keys <= fields.Keys
      && Numeric(Values(ZERO, order, fields, row)) && Total(ZERO, order, fields, row)
  {
    var row := Sample(order, fields);
    FinalNumeric(order, fields, |order|);
    FinalSettles(ZERO, order, fields, row);
    var v := Values(ZERO, order, fields, row);
    forall k | k in row && fields[k].Some? && Names(fields[k].value) <= v.Keys ensures k in v {
      EvalZero(fields[k].value, v);
    }
  }

  /** On the sample a column that is not ready in the end is returned as a text. */
  lemma UnreadyIsText(order: seq<string>, fields: Fields, k: string)
    requires Header(order, fields) && Clean(order, fields, ReadyInTheEnd(order, fields))
    requires k in order && k !in ReadyInTheEnd(order, fields)
    ensures var row := Sample(order, fields);
      var o, v := Passes(ZERO, order, fields, row, 0), Values(ZERO, order, fields, row);
      o.Ok? && k in o.row && o.row[k].Text? && Numeric(v)
  {
    hide Total, Values, Passes, Rehearse, Clean;
    SampleTotal(order, fields);
    RunFollows(ZERO, order, fields, Sample(order, fields));
  }

  lemma UnsettledIsWrong(order: seq<string>, fields: Fields)
    requires Header(order, fields) && !Settles(order, fields)
    ensures var row := Sample(order, fields);
      Input(order, fields, row) && row.Keys <= fields.Keys && !Right(ZERO, order, fields, row)
  {
    hide Values, Passes, Rehearse, Clean;
    SampleTotal(order, fields);
    var k :| k in order && k !in ReadyInTheEnd(order, fields);
    UnreadyIsText(order, fields, k);
  }

  /** The passes are right on every row, whatever the functions do, exactly when every column is
      final by the first pass in which nothing fails.  The condition is computed from the header. */
  lemma EvaluateExact(order: seq<string>, fields: Fields)
    requires Header(order, fields)
    ensures AlwaysRight(order, fields) <==> Settles(order, fields)
  {
    hide Input, Right, Settles;
    if Settles(order, fields) {
      forall fs, row | Input(order, fields, row) && row.Keys <= fields.Keys ensures Right(fs, order, fields, row) {
        SettledIsRight(fs, order, fields, row);
      }
    } else {
      UnsettledIsWrong(order, fields);
    }
  }

  // ---------- headers without cycles ----------

  /** The columns at most `d` dependencies away from the given ones. */
  function Level(order: seq<string>, fields: Fields, d: nat): set<string>
    requires Known(order, fields)
  {
    if d == 0 then GivenColumns(order, fields)
    else set k | k in order && (fields[k].Some? ==> Names(fields[k].value) <= Level(order, fields, d - 1))
  }

  /** Every column depends in the end on given columns only. */
  predicate Acyclic(order: seq<string>, fields: Fields)
    requires Known(order, fields)
  {
    forall k :: k in order ==> k in Level(order, fields, |order|)
  }

  lemma ZeroKnows(e: Expr, m: Row)
    requires Numeric(m)
    ensures Eval(ZERO, e, m).Some? <==> Names(e) <= m.Keys
  {
    if Eval(ZERO, e, m).Some? { EvalKnows(ZERO, e, m); }
    if Names(e) <= m.Keys { EvalZero(e, m); }
  }

  lemma {:induction false} SampleLevels(order: seq<string>, fields: Fields, d: nat)
    requires Header(order, fields)
    ensures Sample(order, fields).Keys <= fields.Keys
    ensures Final(ZERO, fields, Sample(order, fields), d).Keys == Level(order, fields, d)
  {
    hide Eval, Names, Numeric;
    if d > 0 {
      SampleLevels(order, fields, d - 1);
      FinalNumeric(order, fields, d - 1);
      var p := Final(ZERO, fields, Sample(order, fields), d - 1);
      forall k | k in order && fields[k].Some?
        ensures Eval(ZERO, fields[k].value, p).Some? <==> Names(fields[k].value) <= p.Keys
      {
        ZeroKnows(fields[k].value, p);
      }
    }
  }

  /** Without cycles, the rows on which every column has a value are all evaluated right exactly
      when the header settles. */
  lemma AcyclicExact(order: seq<string>, fields: Fields)
    requires Header(order, fields) && Acyclic(order, fields)
    ensures (forall fs, row ::
               Input(order, fields, row) && row.Keys <= fields.Keys && AllDefined(fs, order, fields, row) ==>
               Passes(fs, order, fields, row, 0) == Ok(Values(fs, order, fields, row)))
       <==> Settles(order, fields)
  {
    hide Input, Final, Passes, Settles, Level;
    if Settles(order, fields) {
      forall fs, row | Input(order, fields, row) && row.Keys <= fields.Keys && AllDefined(fs, order, fields, row)
        ensures Passes(fs, order, fields, row, 0) == Ok(Values(fs, order, fields, row))
      {
        SettledIsRight(fs, order, fields, row);
      }
    } else {
      UnsettledIsWrong(order, fields);
      SampleLevels(order, fields, |order|);
      assert AllDefined(ZERO, order, fields, Sample(order, fields));
    }
  }

  // ---------- copies ----------

  ghost predicate CopyOf(fields: Fields, k: string, c: string) {
    k in fields && fields[k] == Some(Col(c))
  }

  /** A derived column that only copies a derived column copies one that stands before it. */
  ghost predicate CopiesBackward(order: seq<string>, fields: Fields)
    requires Known(order, fields)
  {
    forall i, c :: 0 <= i < |order| && CopyOf(fields, order[i], c) && c in order && fields[c].Some? ==> c in order[..i]
  }

  /** A column becomes ready only when it is visited. */
  lemma {:induction false} ReadyWhenVisited(order: seq<string>, fields: Fields, ready: set<string>, i: nat, j: nat)
    requires Header(order, fields) && i < j <= |order| && order[i] in SeeTo(order, fields, ready, j)
    ensures order[i] in SeeTo(order, fields, ready, i + 1)
  {
    if i + 1 < j { ReadyWhenVisited(order, fields, ready, i, j - 1); }
  }

  lemma {:induction false} CleanPassReady(order: seq<string>, fields: Fields, ready: set<string>, i: nat)
    requires Header(order, fields) && CopiesBackward(order, fields) && i < |order|
    requires GivenColumns(order, fields) <= ready && Clean(order, fields, SeeTo(order, fields, ready, |order|))
    ensures order[i] in SeeTo(order, fields, ready, i + 1)
  {
    var k := order[i];
    SeeToGrows(order, fields, ready, 0, i);
    if MayFail(order, fields, k) {
      ReadyWhenVisited(order, fields, ready, i, |order|);
    } else if fields[k].Some? && fields[k].value.Col? && fields[fields[k].value.name].Some? {
      assert CopyOf(fields, k, fields[k].value.name);
      var m: nat :| m < i && order[m] == fields[k].value.name;
      CleanPassReady(order, fields, ready, m);
      SeeToGrows(order, fields, ready, m + 1, i);
    }
  }

  lemma {:induction false} RehearseBackward(order: seq<string>, fields: Fields, ready: set<string>, i: nat)
    requires Header(order, fields) && CopiesBackward(order, fields) && i <= |order|
    requires GivenColumns(order, fields) <= ready
    ensures var r := Rehearse(order, fields, ready, i); Clean(order, fields, r) ==> forall k :: k in order ==> k in r
    decreases |order| - i
  {
    hide SeeTo, Clean, CopiesBackward, GivenColumns;
    var n, r := |order|, SeeTo(order, fields, ready, |order|);
    SeeToStart(order, fields, ready);
    SeeToGrows(order, fields, ready, 0, n);
    if Clean(order, fields, r) {
      forall k | k in order ensures k in r {
        var m: nat :| m < n && order[m] == k;
        CleanPassReady(order, fields, ready, m);
        SeeToGrows(order, fields, ready, m + 1, n);
      }
    } else if i < n {
      RehearseBackward(order, fields, r, i + 1);
    }
  }

  /** Strict expressions and copies of earlier columns always settle: the passes succeed exactly when
      every column has a value in dependency order, and then give these values. */
  lemma BackwardCopiesExact(fs: Functions, order: seq<string>, fields: Fields, row: Row)
    requires Input(order, fields, row) && CopiesBackward(order, fields)
    ensures Settles(order, fields)
    ensures var r := Passes(fs, order, fields, row, 0);
      && (r.Ok? <==> AllDefined(fs, order, fields, row))
      && (r.Ok? ==> r.row == Values(fs, order, fields, row))
  {
    hide Passes, Rehearse, Final;
    RehearseBackward(order, fields, GivenColumns(order, fields), 0);
    SettledIsRight(fs, order, fields, row);
  }

  /** Two columns that copy each other never fail: the row is returned, although neither has a value. */
  lemma CopyCycleIsReturned(fs: Functions, d: string, e: string, row: Row)
    requires d != e
    requires Input([e, d], map[e := Some(Col(d)), d := Some(Col(e))], row)
    ensures var order, fields: Fields := [e, d], map[e := Some(Col(d)), d := Some(Col(e))];
      && row.Keys <= fields.Keys && Passes(fs, order, fields, row, 0).Ok?
      && Values(fs, order, fields, row) == map[] && !Settles(order, fields)
  {
    hide Passes, Rehearse;
    var order, fields: Fields := [e, d], map[e := Some(Col(d)), d := Some(Col(e))];
    assert order[0] == e && order[1] == d;
    RaisesExact(fs, order, fields, row);
    assert Final(fs, fields, row, 0) == map[];
    assert Final(fs, fields, row, 1) == map[];
    assert Final(fs, fields, row, 2) == map[];
    assert e in row;
    if Settles(order, fields) { SettledIsRight(fs, order, fields, row); }
  }

  /** A copy of a later column can keep the text it copied in the only pass: with the header
      `e=d,a,d=f(a)` the cell of e ends as the text d started with, although d gets a number. */
  lemma ForwardCopyIsStale(fs: Functions, e: string, a: string, d: string, v: real)
    requires e != a && a != d && d != e && fs("f", [4.0]) == Some(v)
    ensures var order := [e, a, d];
      var fields: Fields := map[e := Some(Col(d)), a := None, d := Some(Call("f", [Col(a)]))];
      var row := map[e := Text(""), a := Num(4.0), d := Text("")];
      && Input(order, fields, row) && !Settles(order, fields)
      && Passes(fs, order, fields, row, 0) == Ok(map[e := Text(""), a := Num(4.0), d := Num(v)])
      && e in Values(fs, order, fields, row) && Values(fs, order, fields, row)[e] == Num(v)
  {
    var order := [e, a, d];
    var fields: Fields := map[e := Some(Col(d)), a := None, d := Some(Call("f", [Col(a)]))];
    var row := map[e := Text(""), a := Num(4.0), d := Text("")];
    StaleRun(fs, order, fields, row, e, a, d, v);
    StaleValue(fs, order, fields, row, e, a, d, v);
    hide Passes, Values, Rehearse;
    if Settles(order, fields) { SettledIsRight(fs, order, fields, row); }
  }

  lemma StaleValue(fs: Functions, order: seq<string>, fields: Fields, row: Row,
                   e: string, a: string, d: string, v: real)
    requires e != a && a != d && d != e && fs("f", [4.0]) == Some(v) && order == [e, a, d]
    requires fields == map[e := Some(Col(d)), a := None, d := Some(Call("f", [Col(a)]))]
    requires row == map[e := Text(""), a := Num(4.0), d := Text("")]
    ensures row.Keys <= fields.Keys
    ensures e in Values(fs, order, fields, row) && Values(fs, order, fields, row)[e] == Num(v)
  {
    CallOfA(fs, Final(fs, fields, row, 0), a, v);
    assert Final(fs, fields, row, 1)[d] == Num(v);
    assert Final(fs, fields, row, 2)[e] == Num(v);
    FinalGrows(fs, fields, row, 2);
  }

  lemma StaleRun(fs: Functions, order: seq<string>, fields: Fields, row: Row, e: string, a: string, d: string, v: real)
    requires e != a && a != d && d != e && fs("f", [4.0]) == Some(v) && order == [e, a, d]
    requires fields == map[e := Some(Col(d)), a := None, d := Some(Call("f", [Col(a)]))]
    requires row == map[e := Text(""), a := Num(4.0), d := Text("")]
    ensures Passes(fs, order, fields, row, 0) == Ok(row[d := Num(v)])
  {
    CallOfA(fs, row, a, v);
    PassesStep(fs, order, fields, row, 0);
    PassToStart(fs, order, fields, row);
    PassToStep(fs, order, fields, row, 0);
    PassToStep(fs, order, fields, row, 1);
    PassToStep(fs, order, fields, row, 2);
    hide Passes, PassTo;
    assert row[e := Text("")] == row;
  }

  lemma CallOfA(fs: Functions, row: Row, a: string, v: real)
    requires fs("f", [4.0]) == Some(v) && a in row && row[a] == Num(4.0)
    ensures Eval(fs, Call("f", [Col(a)]), row) == Some(Num(v))
  {
    var args := [Col(a)];
    assert Eval(fs, args[0], row) == Some(Num(4.0));
    assert Operands(fs, args[1..], row) == Some([]);
    assert [4.0] + [] == [4.0];
  }
}
