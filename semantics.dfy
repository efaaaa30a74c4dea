/**
 The meaning of main.c's evaluator (`interp_stm`, `interp_exp`,
 `print_exp_list`) as functions. Each returns the outcome of the call
 together with the output it writes; the table is threaded strictly left to
 right. C's `printf("%d ", v)` and `printf("%d\n", v)` each become one
 `Write(v, sep)`.
 */
module Semantics {
  import opened Slp
  import opened Env

  /** One `printf` of a value followed by `sep` (a space or a newline). */
  datatype Write = Write(value: i32, sep: char)

  /**
   Why a run stops early. `Unbound` is main.c's "could not find <name> in
   table" exit (and its NULL dereference on the empty table);
   `DivideByZero` and `Overflow` are the cases where C's `/`, `+`, `-`, `*`
   on `int` have undefined behaviour.
   */
  datatype Fault = Unbound(name: string) | DivideByZero | Overflow

  datatype Result<+T> = Ok(value: T) | Err(fault: Fault) {
    predicate IsFailure() {
      Err?
    }

    function PropagateFailure<U>(): Result<U>
      requires Err?
    {
      Err(fault)
    }

    function Extract(): T
      requires Ok?
    {
      value
    }
  }

  /** The outcome of a call and the output it wrote before returning or stopping. */
  datatype Run<+T> = Run(result: Result<T>, out: seq<Write>)

  function Abs(x: int): nat {
    if x < 0 then -x else x
  }

  /** C's integer division, which truncates toward zero. */
  function Quot(a: int, b: int): int
    requires b != 0
  {
    if (a < 0) == (b < 0) then Abs(a) / Abs(b) else -(Abs(a) / Abs(b))
  }

  /**
   `Quot(a, b)` is the quotient C99 defines: the remainder `a - q * b` is
   smaller than the divisor in magnitude and is zero or has the sign of `a`.
   */
  lemma QuotTruncates(a: int, b: int)
    requires b != 0
    ensures Abs(a - Quot(a, b) * b) < Abs(b)
    ensures a - Quot(a, b) * b == 0 || (a - Quot(a, b) * b < 0 <==> a < 0)
  {
  }

  /** The mathematical result of `op`; `Div` truncates toward zero. */
  function Exact(op: BinOp, l: int, r: int): int
    requires op == Div ==> r != 0
  {
    match op
    case Plus => l + r
    case Minus => l - r
    case Times => l * r
    case Div => Quot(l, r)
  }

  /**
   main.c:223-240: apply `op` to the operand values. Division by zero and a
   result outside the 32-bit range, both undefined in C, stop the run.
   */
  function Apply(op: BinOp, l: i32, r: i32): (res: Result<i32>)
    ensures res == Err(DivideByZero) <==> op == Div && r == 0
    ensures !(op == Div && r == 0) ==>
      && (res.Ok? <==> InI32Range(Exact(op, l as int, r as int)))
      && (res.Ok? ==> res.value as int == Exact(op, l as int, r as int))
      && (res.Err? ==> res.fault == Overflow)
  {
    if op == Div && r == 0 then Err(DivideByZero)
    else
      var exact := Exact(op, l as int, r as int);
      if InI32Range(exact) then Ok(exact as i32) else Err(Overflow)
  }

  /** main.c `interp_stm`: the table after running `s` on `t`. */
  function ExecStm(s: Stm, t: Table): Run<Table>
    decreases s
  {
    match s
    case Compound(s1, s2) =>
      var r1 := ExecStm(s1, t);
      if r1.result.Err? then Run(Err(r1.result.fault), r1.out)
      else
        var r2 := ExecStm(s2, r1.result.value);
        Run(r2.result, r1.out + r2.out)
    case Assign(id, e) =>
      var r := EvalExp(e, t);
      if r.result.Err? then Run(Err(r.result.fault), r.out)
      else
        var (v, t1) := r.result.value;
        Run(Ok(Update(t1, id, v)), r.out)
    case Print(exps) =>
      var r := EvalList(exps, t);
      if r.result.Err? then Run(Err(r.result.fault), r.out)
      else Run(Ok(r.result.value.1), r.out)
  }

  /** main.c `interp_exp`: the value of `e` and the table after evaluating it. */
  function EvalExp(e: Exp, t: Table): Run<(i32, Table)>
    decreases e
  {
    match e
    case Id(x) =>
      var v := Lookup(t, x);
      if v.None? then Run(Err(Unbound(x)), []) else Run(Ok((v.value, t)), [])
    case Num(n) => Run(Ok((n, t)), [])
    case Op(left, op, right) =>
      var rl := EvalExp(left, t);
      if rl.result.Err? then rl
      else
        var (l, t1) := rl.result.value;
        var rr := EvalExp(right, t1);
        if rr.result.Err? then Run(rr.result, rl.out + rr.out)
        else
          var (r, t2) := rr.result.value;
          var v := Apply(op, l, r);
          if v.Err? then Run(Err(v.fault), rl.out + rr.out)
          else Run(Ok((v.value, t2)), rl.out + rr.out)
    case Eseq(s, e1) =>
      var rs := ExecStm(s, t);
      if rs.result.Err? then Run(Err(rs.result.fault), rs.out)
      else
        var re := EvalExp(e1, rs.result.value);
        Run(re.result, rs.out + re.out)
  }

  /**
   main.c `print_exp_list`: evaluate and print each element in turn, a
   space after every value but the last, a newline after the last; return
   the last value and the table after it.
   */
  function EvalList(exps: ExpList, t: Table): Run<(i32, Table)>
    decreases exps
  {
    match exps
    case Pair(h, tail) =>
      var rh := EvalExp(h, t);
      if rh.result.Err? then rh
      else
        var (v, t1) := rh.result.value;
        var rt := EvalList(tail, t1);
        Run(rt.result, rh.out + [Write(v, ' ')] + rt.out)
    case Last(e) =>
      var re := EvalExp(e, t);
      if re.result.Err? then re
      else Run(re.result, re.out + [Write(re.result.value.0, '\n')])
  }

  /** main.c `interp`: run a program from the empty table. */
  function RunProgram(program: Stm): Run<Table> {
    ExecStm(program, Empty)
  }
}
