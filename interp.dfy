/**
 main.c's evaluator as it is written: recursive procedures that reassign
 their `table`, `it` and `temp` locals in sequence and print to standard
 output as they go. Standard output is the `Console` object; each method
 is proved to return what the corresponding function of `Semantics`
 computes and to append exactly that function's output to the console.
 Where main.c calls `exit`, the methods return the fault to their caller.
 */
module Interp {
  import opened Slp
  import opened Env
  import opened Semantics

  /** Standard output: the writes made so far. */
  class Console {
    var out: seq<Write>

    constructor ()
      ensures out == []
    {
      out := [];
    }

    /** `printf("%d ", v)` when `sep` is a space, `printf("%d\n", v)` when it is a newline. */
    method PrintInt(v: i32, sep: char)
      modifies this
      ensures out == old(out) + [Write(v, sep)]
    {
      out := out + [Write(v, sep)];
    }
  }

  /** main.c `interp_stm` */
  method InterpStm(stm: Stm, table: Table, con: Console) returns (r: Result<Table>)
    modifies con
    ensures r == ExecStm(stm, table).result
    ensures con.out == old(con.out) + ExecStm(stm, table).out
    decreases stm
  {
    var t := table;
    match stm
    case Compound(stm1, stm2) =>
      t :- InterpStm(stm1, t, con);
      t :- InterpStm(stm2, t, con);
      return Ok(t);
    case Assign(id, exp) =>
      var it :- InterpExp(exp, t, con);
      t := Update(it.1, id, it.0);
      return Ok(t);
    case Print(exps) =>
      var it :- PrintExpList(exps, t, con);
      return Ok(it.1);
  }

  /** main.c `interp_exp` */
  method InterpExp(exp: Exp, table: Table, con: Console) returns (r: Result<(i32, Table)>)
    modifies con
    ensures r == EvalExp(exp, table).result
    ensures con.out == old(con.out) + EvalExp(exp, table).out
    decreases exp
  {
    var t := table;
    match exp
    case Id(x) =>
      var v := Lookup(t, x);
      if v.None? {
        return Err(Unbound(x));
      }
      return Ok((v.value, t));
    case Num(n) =>
      return Ok((n, t));
    case Op(left, oper, right) =>
      var temp :- InterpExp(left, t, con);
      var l := temp.0;
      temp :- InterpExp(right, temp.1, con);
      var rv := temp.0;
      var ret :- Apply(oper, l, rv);
      return Ok((ret, temp.1));
    case Eseq(s, e) =>
      t :- InterpStm(s, t, con);
      r := InterpExp(e, t, con);
  }

  /** main.c `print_exp_list` */
  method PrintExpList(exps: ExpList, table: Table, con: Console) returns (r: Result<(i32, Table)>)
    modifies con
    ensures r == EvalList(exps, table).result
    ensures con.out == old(con.out) + EvalList(exps, table).out
    decreases exps
  {
    match exps
    case Pair(head, tail) =>
      var it :- InterpExp(head, table, con);
      con.PrintInt(it.0, ' ');
      r := PrintExpList(tail, it.1, con);
    case Last(last) =>
      var it :- InterpExp(last, table, con);
      con.PrintInt(it.0, '\n');
      return Ok(it);
  }

  /**
   main.c `interp`: run the program from the empty table. The result is
   `None` when it runs to the end and the fault when it stops.
   */
  method RunInterp(program: Stm, con: Console) returns (fault: Option<Fault>)
    modifies con
    ensures fault.None? <==> RunProgram(program).result.Ok?
    ensures fault.Some? ==> fault.value == RunProgram(program).result.fault
    ensures con.out == old(con.out) + RunProgram(program).out
  {
    var r := InterpStm(program, Empty, con);
    if r.Err? {
      return Some(r.fault);
    }
    return None;
  }
}
