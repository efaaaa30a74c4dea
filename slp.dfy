/**
 The abstract syntax of straight-line programs.

 The C header that declares these trees is not part of this model; the
 variants below are reconstructed from the fields main.c reads:
 `u.compound.stm1/stm2`, `u.assign.id/exp`, `u.print.exps`, `u.id`, `u.num`,
 `u.op.left/oper/right`, `u.eseq.stm/exp`, `u.pair.head/tail` and `u.last`.
 The `default:` branches of main.c's switches are unreachable here because
 every `match` over these datatypes is exhaustive.
 */
module Slp {

  /** C's `int`: a signed 32-bit integer. */
  newtype i32 = x: int | -0x8000_0000 <= x < 0x8000_0000

  predicate InI32Range(x: int) {
    -0x8000_0000 <= x < 0x8000_0000
  }

  /** A_PLUS, A_MINUS, A_TIMES, A_DIV */
  datatype BinOp = Plus | Minus | Times | Div

  /** Statements: A_COMPOUND_STM, A_ASSIGN_STM, A_PRINT_STM */
  datatype Stm =
    | Compound(stm1: Stm, stm2: Stm)
    | Assign(id: string, exp: Exp)
    | Print(exps: ExpList)

  /** Expressions: A_ID_EXP, A_NUM_EXP, A_OP_EXP, A_ESEQ_EXP */
  datatype Exp =
    | Id(name: string)
    | Num(num: i32)
    | Op(left: Exp, oper: BinOp, right: Exp)
    | Eseq(stm: Stm, exp: Exp)

  /** Expression lists: A_PAIR_EXP_LIST, A_LAST_EXP_LIST. Never empty. */
  datatype ExpList =
    | Pair(head: Exp, tail: ExpList)
    | Last(last: Exp)
}
