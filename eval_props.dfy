/**
 Properties of the evaluator: how it threads the table, what it prints, and
 when it stops.
 */
module EvalProps {
  import opened Slp
  import opened Env
  import opened MaxArgs
  import opened Semantics

  /**
   The names a successful run binds, newest first: the order in which
   their bindings end up on the table.
   */
  function AssignedStm(s: Stm): seq<string>
    decreases s
  {
    match s
    case Compound(s1, s2) => AssignedStm(s2) + AssignedStm(s1)
    case Assign(id, e) => [id] + AssignedExp(e)
    case Print(exps) => AssignedList(exps)
  }

  function AssignedExp(e: Exp): seq<string>
    decreases e
  {
    match e
    case Id(_) => []
    case Num(_) => []
    case Op(l, _, r) => AssignedExp(r) + AssignedExp(l)
    case Eseq(s, e1) => AssignedExp(e1) + AssignedStm(s)
  }

  function AssignedList(exps: ExpList): seq<string>
    decreases exps
  {
    match exps
    case Pair(h, tail) => AssignedList(tail) + AssignedExp(h)
    case Last(e) => AssignedExp(e)
  }

  /**
   A successful run of a statement leaves the table it started from intact
   underneath, with one new binding per assignment executed, the later
   assignments on top of the earlier ones.
   */
  lemma {:induction false} ExecStmPushes(s: Stm, t: Table)
    ensures ExecStm(s, t).result.Ok? ==> Prefixed(ExecStm(s, t).result.value, AssignedStm(s), t)
    decreases s
  {
    match s
    case Compound(s1, s2) =>
      ExecStmPushes(s1, t);
      var r1 := ExecStm(s1, t);
      if r1.result.Ok? {
        ExecStmPushes(s2, r1.result.value);
        if ExecStm(s2, r1.result.value).result.Ok? {
          PrefixedTrans(ExecStm(s2, r1.result.value).result.value, AssignedStm(s2),
                        r1.result.value, AssignedStm(s1), t);
        }
      }
    case Assign(id, e) =>
      EvalExpPushes(e, t);
      var r := EvalExp(e, t);
      if r.result.Ok? {
        var t2 := Update(r.result.value.1, id, r.result.value.0);
        assert Prefixed(t2, [id], r.result.value.1);
        PrefixedTrans(t2, [id], r.result.value.1, AssignedExp(e), t);
      }
    case Print(exps) =>
      EvalListPushes(exps, t);
  }

  /** The same for an expression: its value comes with a table that only grew. */
  lemma {:induction false} EvalExpPushes(e: Exp, t: Table)
    ensures EvalExp(e, t).result.Ok? ==> Prefixed(EvalExp(e, t).result.value.1, AssignedExp(e), t)
    decreases e
  {
    match e
    case Id(_) =>
    case Num(_) =>
    case Op(l, _, r) =>
      EvalExpPushes(l, t);
      var rl := EvalExp(l, t);
      if rl.result.Ok? {
        var t1 := rl.result.value.1;
        EvalExpPushes(r, t1);
        if EvalExp(r, t1).result.Ok? {
          PrefixedTrans(EvalExp(r, t1).result.value.1, AssignedExp(r), t1, AssignedExp(l), t);
        }
      }
    case Eseq(s, e1) =>
      ExecStmPushes(s, t);
      var rs := ExecStm(s, t);
      if rs.result.Ok? {
        var t1 := rs.result.value;
        EvalExpPushes(e1, t1);
        if EvalExp(e1, t1).result.Ok? {
          PrefixedTrans(EvalExp(e1, t1).result.value.1, AssignedExp(e1), t1, AssignedStm(s), t);
        }
      }
  }

  /** The same for the arguments of a print. */
  lemma {:induction false} EvalListPushes(exps: ExpList, t: Table)
    ensures EvalList(exps, t).result.Ok? ==> Prefixed(EvalList(exps, t).result.value.1, AssignedList(exps), t)
    decreases exps
  {
    match exps
    case Pair(h, tail) =>
      EvalExpPushes(h, t);
      var rh := EvalExp(h, t);
      if rh.result.Ok? {
        var t1 := rh.result.value.1;
        EvalListPushes(tail, t1);
        if EvalList(tail, t1).result.Ok? {
          PrefixedTrans(EvalList(tail, t1).result.value.1, AssignedList(tail), t1, AssignedExp(h), t);
        }
      }
    case Last(e) =>
      EvalExpPushes(e, t);
  }

  /** A name the statement never assigns looks up the same before and after it. */
  lemma ExecStmFrame(s: Stm, t: Table, y: string)
    requires ExecStm(s, t).result.Ok? && y !in AssignedStm(s)
    ensures Lookup(ExecStm(s, t).result.value, y) == Lookup(t, y)
  {
    ExecStmPushes(s, t);
    PrefixedLookup(ExecStm(s, t).result.value, AssignedStm(s), t, y);
  }

  /**
   After `id := e`, `id` holds the value of `e`, and every other name holds
   what it held once `e` had been evaluated.
   */
  lemma AssignBinds(id: string, e: Exp, t: Table, y: string)
    requires ExecStm(Assign(id, e), t).result.Ok?
    ensures EvalExp(e, t).result.Ok?
    ensures Lookup(ExecStm(Assign(id, e), t).result.value, id) == Some(EvalExp(e, t).result.value.0)
    ensures y != id ==>
      Lookup(ExecStm(Assign(id, e), t).result.value, y) == Lookup(EvalExp(e, t).result.value.1, y)
  {
  }

  /** Evaluating a name fails exactly when no binding of it is in scope. */
  lemma UnboundIdFails(x: string, t: Table)
    ensures EvalExp(Id(x), t).result == Err(Unbound(x)) <==> x !in Ids(t)
    ensures x in Ids(t) ==> EvalExp(Id(x), t).result.Ok?
  {
  }

  /** The total argument count of a sequence of prints. */
  function ArgTotal(ps: seq<ExpList>): nat {
    if ps == [] then 0 else ElementCount(ps[0]) + ArgTotal(ps[1..])
  }

  lemma {:induction false} ArgTotalConcat(a: seq<ExpList>, b: seq<ExpList>)
    ensures ArgTotal(a + b) == ArgTotal(a) + ArgTotal(b)
    decreases |a|
  {
    if a != [] {
      assert (a + b)[1..] == a[1..] + b;
      ArgTotalConcat(a[1..], b);
    } else {
      assert a + b == b;
    }
  }

  /** The number of lines written: the writes followed by a newline. */
  function LineCount(out: seq<Write>): nat {
    if out == [] then 0 else (if out[0].sep == '\n' then 1 else 0) + LineCount(out[1..])
  }

  lemma {:induction false} LineCountConcat(a: seq<Write>, b: seq<Write>)
    ensures LineCount(a + b) == LineCount(a) + LineCount(b)
    decreases |a|
  {
    if a != [] {
      assert (a + b)[1..] == a[1..] + b;
      LineCountConcat(a[1..], b);
    } else {
      assert a + b == b;
    }
  }

  /**
   A run that completes writes one value per argument of every print it
   contains, nested prints included, and ends one line per print.
   */
  lemma {:induction false} ExecStmOutput(s: Stm, t: Table)
    ensures ExecStm(s, t).result.Ok? ==>
      && |ExecStm(s, t).out| == ArgTotal(PrintsStm(s))
      && LineCount(ExecStm(s, t).out) == |PrintsStm(s)|
    decreases s
  {
    var run := ExecStm(s, t);
    if run.result.Ok? {
      match s
      case Compound(s1, s2) =>
        var r1 := ExecStm(s1, t);
        ExecStmOutput(s1, t);
        ExecStmOutput(s2, r1.result.value);
        ArgTotalConcat(PrintsStm(s1), PrintsStm(s2));
        LineCountConcat(r1.out, ExecStm(s2, r1.result.value).out);
      case Assign(_, e) =>
        EvalExpOutput(e, t);
      case Print(exps) =>
        EvalListOutput(exps, t);
        ArgTotalConcat([exps], PrintsExpList(exps));
        assert ArgTotal([exps]) == ElementCount(exps) by {
          assert [exps][1..] == [];
        }
    }
  }

  /** The output of a completed expression: the writes of the prints nested in it. */
  lemma {:induction false} EvalExpOutput(e: Exp, t: Table)
    ensures EvalExp(e, t).result.Ok? ==>
      && |EvalExp(e, t).out| == ArgTotal(PrintsExp(e))
      && LineCount(EvalExp(e, t).out) == |PrintsExp(e)|
    decreases e
  {
    var run := EvalExp(e, t);
    if run.result.Ok? {
      match e
      case Id(_) =>
      case Num(_) =>
      case Op(l, _, r) =>
        var rl := EvalExp(l, t);
        EvalExpOutput(l, t);
        EvalExpOutput(r, rl.result.value.1);
        ArgTotalConcat(PrintsExp(l), PrintsExp(r));
        LineCountConcat(rl.out, EvalExp(r, rl.result.value.1).out);
      case Eseq(s, e1) =>
        var rs := ExecStm(s, t);
        ExecStmOutput(s, t);
        EvalExpOutput(e1, rs.result.value);
        ArgTotalConcat(PrintsStm(s), PrintsExp(e1));
        LineCountConcat(rs.out, EvalExp(e1, rs.result.value).out);
    }
  }

  /**
   The output of a completed `print_exp_list`: one value per element plus
   the writes of the prints nested in the elements, one more line than
   those prints end, and last of all the list's result followed by a newline.
   */
  lemma {:induction false} EvalListOutput(exps: ExpList, t: Table)
    ensures EvalList(exps, t).result.Ok? ==>
      && |EvalList(exps, t).out| == ArgTotal(PrintsExpList(exps)) + ElementCount(exps)
      && LineCount(EvalList(exps, t).out) == |PrintsExpList(exps)| + 1
      && EvalList(exps, t).out[|EvalList(exps, t).out| - 1] == Write(EvalList(exps, t).result.value.0, '\n')
    decreases exps
  {
    var run := EvalList(exps, t);
    if run.result.Ok? {
      match exps
      case Pair(h, tail) =>
        var rh := EvalExp(h, t);
        var rt := EvalList(tail, rh.result.value.1);
        EvalExpOutput(h, t);
        EvalListOutput(tail, rh.result.value.1);
        ArgTotalConcat(PrintsExp(h), PrintsExpList(tail));
        LineCountConcat(rh.out + [Write(rh.result.value.0, ' ')], rt.out);
        LineCountConcat(rh.out, [Write(rh.result.value.0, ' ')]);
        assert LineCount([Write(rh.result.value.0, ' ')]) == 0 by {
          assert [Write(rh.result.value.0, ' ')][1..] == [];
        }
      case Last(e) =>
        var re := EvalExp(e, t);
        EvalExpOutput(e, t);
        LineCountConcat(re.out, [Write(re.result.value.0, '\n')]);
        assert LineCount([Write(re.result.value.0, '\n')]) == 1 by {
          assert [Write(re.result.value.0, '\n')][1..] == [];
        }
    }
  }

  /**
   A print whose arguments contain no nested print writes exactly one line:
   `ElementCount` values, each followed by a space except the last, which
   is the print's last value followed by a newline.
   */
  lemma {:induction false} PrintOneLine(exps: ExpList, t: Table)
    requires EvalList(exps, t).result.Ok? && PrintsExpList(exps) == []
    ensures |EvalList(exps, t).out| == ElementCount(exps)
    ensures forall i :: 0 <= i < |EvalList(exps, t).out| - 1 ==> EvalList(exps, t).out[i].sep == ' '
    ensures EvalList(exps, t).out[|EvalList(exps, t).out| - 1] == Write(EvalList(exps, t).result.value.0, '\n')
    decreases exps
  {
    match exps
    case Pair(h, tail) =>
      var rh := EvalExp(h, t);
      EvalExpOutput(h, t);
      assert ArgTotal(PrintsExp(h)) == 0;
      PrintOneLine(tail, rh.result.value.1);
      assert EvalList(exps, t).out == [Write(rh.result.value.0, ' ')] + EvalList(tail, rh.result.value.1).out;
    case Last(e) =>
      EvalExpOutput(e, t);
      assert ArgTotal(PrintsExp(e)) == 0;
  }

  /**
   When the arguments of a print neither print nor assign, every element
   is evaluated on the table the print started from, and the `i`-th value
   written is the value of the `i`-th element.
   */
  lemma {:induction false} PrintWritesElementValues(exps: ExpList, t: Table)
    requires EvalList(exps, t).result.Ok? && PrintsExpList(exps) == [] && AssignedList(exps) == []
    ensures |EvalList(exps, t).out| == |Elements(exps)|
    ensures forall i :: 0 <= i < |Elements(exps)| ==>
      && EvalExp(Elements(exps)[i], t).result.Ok?
      && EvalList(exps, t).out[i].value == EvalExp(Elements(exps)[i], t).result.value.0
    decreases exps
  {
    match exps
    case Pair(h, tail) =>
      var rh := EvalExp(h, t);
      EvalExpOutput(h, t);
      EvalExpPushes(h, t);
      assert ArgTotal(PrintsExp(h)) == 0;
      assert rh.result.value.1 == t;
      PrintWritesElementValues(tail, t);
      var out := EvalList(exps, t).out;
      assert out == [Write(rh.result.value.0, ' ')] + EvalList(tail, t).out;
      forall i | 0 <= i < |Elements(exps)|
        ensures EvalExp(Elements(exps)[i], t).result.Ok?
        ensures out[i].value == EvalExp(Elements(exps)[i], t).result.value.0
      {
        if i > 0 {
          assert Elements(exps)[i] == Elements(tail)[i - 1];
        }
      }
    case Last(e) =>
      EvalExpOutput(e, t);
      assert ArgTotal(PrintsExp(e)) == 0;
  }

  /**
   Left-to-right evaluation: in
   `(x := 1, x) - (x := 2, x)` the left operand's assignment happens first
   and the right operand then sees its own, so the value is 1 - 2 = -1.
   */
  lemma LeftOperandFirst(t: Table)
    ensures EvalExp(Op(Eseq(Assign("x", Num(1)), Id("x")), Minus, Eseq(Assign("x", Num(2)), Id("x"))), t).result
         == Ok((-1, Bind("x", 2, Bind("x", 1, t))))
  {
  }

  /** Division truncates toward zero: 7 / 2 == 3 and -7 / 2 == -3. */
  lemma DivTruncates(t: Table)
    ensures EvalExp(Op(Num(7), Div, Num(2)), t).result == Ok((3, t))
    ensures EvalExp(Op(Num(-7), Div, Num(2)), t).result == Ok((-3, t))
    ensures EvalExp(Op(Num(7), Div, Num(0)), t).result == Err(DivideByZero)
  {
  }
}
