/**
 The static analyser of main.c: the largest number of arguments passed to
 any `print` statement of a program, counting the prints nested inside
 `Eseq` expressions as well as the top-level ones.
 */
module MaxArgs {
  import opened Slp

  /** main.c `max` */
  function Max(a: int, b: int): (r: int)
    ensures r >= a && r >= b
    ensures r == a || r == b
  {
    if a > b then a else b
  }

  /** The elements of an expression list, in order. */
  function Elements(exps: ExpList): seq<Exp> {
    match exps
    case Last(e) => [e]
    case Pair(h, tail) => [h] + Elements(tail)
  }

  /** main.c `element_count`: the number of arguments of a print. */
  function ElementCount(exps: ExpList): (n: nat)
    ensures n >= 1
    ensures n == |Elements(exps)|
  {
    match exps
    case Last(_) => 1
    case Pair(_, tail) => 1 + ElementCount(tail)
  }

  /** main.c `max_args_stm` */
  function MaxArgsStm(s: Stm): nat
    decreases s
  {
    match s
    case Compound(s1, s2) => Max(MaxArgsStm(s1), MaxArgsStm(s2))
    case Assign(_, e) => MaxArgsExp(e)
    case Print(exps) => Max(ElementCount(exps), MaxArgsExpList(exps))
  }

  /** main.c `max_args_exp` */
  function MaxArgsExp(e: Exp): nat
    decreases e
  {
    match e
    case Id(_) => 0
    case Num(_) => 0
    case Op(l, _, r) => Max(MaxArgsExp(l), MaxArgsExp(r))
    case Eseq(s, e1) => Max(MaxArgsStm(s), MaxArgsExp(e1))
  }

  /** main.c `max_args_exp_list` */
  function MaxArgsExpList(exps: ExpList): nat
    decreases exps
  {
    match exps
    case Pair(h, tail) => Max(MaxArgsExp(h), MaxArgsExpList(tail))
    case Last(e) => MaxArgsExp(e)
  }

  /**
   The argument lists of every `Print` node in a tree, top-level ones and
   those nested inside `Eseq` expressions alike, in evaluation order of
   their subtrees (a print's own list comes before the prints nested in its
   arguments).
   */
  function PrintsStm(s: Stm): seq<ExpList>
    decreases s
  {
    match s
    case Compound(s1, s2) => PrintsStm(s1) + PrintsStm(s2)
    case Assign(_, e) => PrintsExp(e)
    case Print(exps) => [exps] + PrintsExpList(exps)
  }

  function PrintsExp(e: Exp): seq<ExpList>
    decreases e
  {
    match e
    case Id(_) => []
    case Num(_) => []
    case Op(l, _, r) => PrintsExp(l) + PrintsExp(r)
    case Eseq(s, e1) => PrintsStm(s) + PrintsExp(e1)
  }

  function PrintsExpList(exps: ExpList): seq<ExpList>
    decreases exps
  {
    match exps
    case Pair(h, tail) => PrintsExp(h) + PrintsExpList(tail)
    case Last(e) => PrintsExp(e)
  }

  /** `m` is the largest element count among `ps`, or 0 when `ps` is empty. */
  ghost predicate IsMaxCount(m: nat, ps: seq<ExpList>) {
    && (forall p :: p in ps ==> ElementCount(p) <= m)
    && (ps == [] <==> m == 0)
    && (ps != [] ==> exists p :: p in ps && ElementCount(p) == m)
  }

  lemma MaxOfParts(m1: nat, ps1: seq<ExpList>, m2: nat, ps2: seq<ExpList>)
    requires IsMaxCount(m1, ps1) && IsMaxCount(m2, ps2)
    ensures IsMaxCount(Max(m1, m2), ps1 + ps2)
  {
  }

  /**
   The analyser's result is an upper bound on the argument count of every
   print in the statement, nested ones included, and is attained by one of
   them; it is 0 exactly when the statement contains no print.
   */
  lemma {:induction false} MaxArgsStmIsMax(s: Stm)
    ensures IsMaxCount(MaxArgsStm(s), PrintsStm(s))
    decreases s
  {
    match s
    case Compound(s1, s2) =>
      MaxArgsStmIsMax(s1);
      MaxArgsStmIsMax(s2);
      MaxOfParts(MaxArgsStm(s1), PrintsStm(s1), MaxArgsStm(s2), PrintsStm(s2));
    case Assign(_, e) =>
      MaxArgsExpIsMax(e);
    case Print(exps) =>
      MaxArgsExpListIsMax(exps);
      assert IsMaxCount(ElementCount(exps), [exps]);
      MaxOfParts(ElementCount(exps), [exps], MaxArgsExpList(exps), PrintsExpList(exps));
  }

  /** The same bound-and-attained property for an expression. */
  lemma {:induction false} MaxArgsExpIsMax(e: Exp)
    ensures IsMaxCount(MaxArgsExp(e), PrintsExp(e))
    decreases e
  {
    match e
    case Id(_) =>
    case Num(_) =>
    case Op(l, _, r) =>
      MaxArgsExpIsMax(l);
      MaxArgsExpIsMax(r);
      MaxOfParts(MaxArgsExp(l), PrintsExp(l), MaxArgsExp(r), PrintsExp(r));
    case Eseq(s, e1) =>
      MaxArgsStmIsMax(s);
      MaxArgsExpIsMax(e1);
      MaxOfParts(MaxArgsStm(s), PrintsStm(s), MaxArgsExp(e1), PrintsExp(e1));
  }

  /** The same bound-and-attained property for an expression list. */
  lemma {:induction false} MaxArgsExpListIsMax(exps: ExpList)
    ensures IsMaxCount(MaxArgsExpList(exps), PrintsExpList(exps))
    decreases exps
  {
    match exps
    case Pair(h, tail) =>
      MaxArgsExpIsMax(h);
      MaxArgsExpListIsMax(tail);
      MaxOfParts(MaxArgsExp(h), PrintsExp(h), MaxArgsExpList(tail), PrintsExpList(tail));
    case Last(e) =>
      MaxArgsExpIsMax(e);
  }

  /** A print statement's result is at least its own argument count. */
  lemma PrintCoversOwnArgs(exps: ExpList)
    ensures MaxArgsStm(Print(exps)) >= ElementCount(exps) >= 1
  {
  }
}
