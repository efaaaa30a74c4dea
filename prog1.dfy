/**
 The example program of prog1.c:
   a := 5 + 3; b := (print(a, a - 1), 10 * a); print(b)
 */
module Prog1 {
  import opened Slp
  import opened Env
  import opened MaxArgs
  import opened Semantics

  function Prog(): Stm {
    Compound(
      Assign("a", Op(Num(5), Plus, Num(3))),
      Compound(
        Assign("b", Eseq(Print(Pair(Id("a"), Last(Op(Id("a"), Minus, Num(1))))),
                         Op(Num(10), Times, Id("a")))),
        Print(Last(Id("b")))))
  }

  /** The analyser reports 2, the arguments of `print(a, a - 1)`. */
  lemma ProgMaxArgs()
    ensures MaxArgsStm(Prog()) == 2
  {
  }

  /**
   Run from the empty table, the program prints "8 7" and then "80", and
   ends with b = 80 bound over a = 8.
   */
  lemma ProgRun()
    ensures RunProgram(Prog()) == Run(Ok(Bind("b", 80, Bind("a", 8, Empty))),
                                      [Write(8, ' '), Write(7, '\n'), Write(80, '\n')])
  {
  }
}
