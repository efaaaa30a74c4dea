# Straight-line program interpreter and analyser, in Dafny

This project models the core of a small C program from the first chapter of a
compilers course. The program interprets and statically analyses
"straight-line programs". Their statements are sequencing (`Compound`),
assignment (`Assign`) and `Print` of an expression list. Their expressions are
names, numbers, binary operations and `Eseq`, which runs a statement and then
yields the value of an expression.

The model has seven modules:

- `Slp` (slp.dfy): the abstract syntax, rebuilt from the fields main.c uses.
  The header that declares it is not part of this model. C's `int` is the
  newtype `i32`.
- `Env` (table.dfy): the symbol table `Table`. It is a persistent list of
  bindings, newest first. `Update` pushes a binding on the front. `Lookup`
  returns the newest binding's value, or `None` where main.c would exit.
- `MaxArgs` (maxargs.dfy): `element_count`, `max` and the three `max_args_*`
  functions. It also has `Prints*`, which lists every `Print` node of a tree,
  the nested ones included. The analyser is proved against that list.
- `Semantics` (semantics.dfy): the evaluator as functions. `ExecStm`,
  `EvalExp` and `EvalList` each return a `Run`: the outcome of the call
  (`Ok` or a `Fault`) and the writes it made. Each C
  `printf("%d ", v)` / `printf("%d\n", v)` is one `Write(v, sep)`. A run that
  stops keeps the writes it made before stopping, as C's `exit` flushes
  standard output.
- `Interp` (interp.dfy): the evaluator as main.c writes it. The recursive
  methods reassign their `table`, `it` and `temp` locals in sequence and
  print to a `Console` object, which stands for standard output. Each
  method is proved to return what the matching `Semantics` function returns
  and to append exactly that function's writes to the console.
- `EvalProps` (eval_props.dfy): properties of evaluation. The table is
  threaded left to right and only grows. It ends with one binding per
  assignment run, the later ones on top. A completed run writes one value
  per print argument and one line per print. Evaluating a name fails exactly
  when the name is unbound. The module also has the left-to-right and
  truncating-division examples.
- `Prog1` (prog1.dfy): the fixture program of prog1.c. It is proved to
  analyse to 2 and to print `8 7` and then `80`.

Faults: `Unbound(name)` is main.c's "could not find name in table" exit.
`DivideByZero` and `Overflow` are the cases where C's `int` arithmetic is
undefined. Division truncates toward zero (`Semantics.Quot`), as C's `/`
does.

## Model

| member | source | states |
|---|---|---|
| `Env.Update` | main.c:63-65 | afterwards `id` looks up to the new value, every other name looks up as before, and the new binding is the newest |
| `Env.Lookup` | main.c:67-80 | lookup fails exactly when the key occurs nowhere in the table |
| `Env.LookupNewest` | main.c:67-80 | the value found is the one of the newest binding of the key, so newer bindings shadow older ones |
| `Env.LookupAsWrittenDiffers` | main.c:67-80 | the lookup as written dereferences NULL on the empty table. On a non-empty table it reports a miss exactly when `Lookup` fails and otherwise returns the same value |
| `MaxArgs.Max` | main.c:82-84 | the result is one of the two arguments and is at least both |
| `MaxArgs.ElementCount` | main.c:91-96 | the count is at least 1 and equals the number of elements of the list |
| `MaxArgs.MaxArgsStmIsMax` | main.c:98-122 | `max_args_stm` bounds the argument count of every print in the statement, nested ones inside `Eseq` included. It is attained by one of them, and it is 0 exactly when there is no print |
| `MaxArgs.MaxArgsExpIsMax` | main.c:124-149 | the same for an expression (names and numbers give 0) |
| `MaxArgs.MaxArgsExpListIsMax` | main.c:151-168 | the same for an expression list |
| `MaxArgs.PrintCoversOwnArgs` | main.c:111-115 | a print statement's result is at least its own element count |
| `Semantics.QuotTruncates` | main.c:233-234 | the quotient leaves a remainder smaller than the divisor in magnitude, and zero or of the dividend's sign (truncation toward zero) |
| `Semantics.Apply` | main.c:223-240 | `Div` by zero fails with `DivideByZero`. Otherwise the result is the exact `+`, `-`, `*` or truncating quotient when that fits in 32 bits, and `Overflow` when it does not |
| `Interp.Console.PrintInt` | main.c:265-271 | one `printf` appends exactly one value and its separator to the output |
| `Interp.InterpStm` | main.c:174-201 | returns `ExecStm`'s outcome and appends exactly its writes to the console |
| `Interp.InterpExp` | main.c:203-255 | returns `EvalExp`'s outcome and appends exactly its writes to the console |
| `Interp.PrintExpList` | main.c:258-280 | returns `EvalList`'s outcome and appends exactly its writes to the console |
| `Interp.RunInterp` | main.c:170-172 | runs the program from the empty table, reports the fault exactly when the run stops early, and appends the run's writes |
| `EvalProps.ExecStmPushes` | main.c:174-201 | a completed statement leaves the starting table underneath the result, with one binding per assignment run: compound runs `stm2` after `stm1`, and an assignment pushes its binding after its expression's |
| `EvalProps.EvalExpPushes` | main.c:203-255 | a completed expression's table is the starting table with the bindings of its assignments on top. The right operand's bindings are newer than the left's, and an `Eseq` expression's are newer than its statement's |
| `EvalProps.EvalListPushes` | main.c:258-280 | a completed print's table is the starting table with its elements' bindings on top, each element's above the previous element's |
| `EvalProps.ExecStmFrame` | main.c:174-201 | a name the statement never assigns looks up the same before and after it |
| `EvalProps.AssignBinds` | main.c:185-188 | after an assignment, its name holds the value of its expression. Every other name holds what it held after the expression |
| `EvalProps.UnboundIdFails` | main.c:206-207 | evaluating a name fails with `Unbound(name)` exactly when it is not bound, and succeeds otherwise |
| `EvalProps.ExecStmOutput` | main.c:174-201 | a completed statement writes as many values as its prints, nested ones included, have arguments, and ends one line per print |
| `EvalProps.EvalExpOutput` | main.c:203-255 | the same for an expression |
| `EvalProps.EvalListOutput` | main.c:258-280 | a completed print writes its element count plus the nested prints' values. It writes one line more than the nested prints, and it ends with its last value and a newline |
| `EvalProps.PrintOneLine` | main.c:258-280 | a print with no nested prints writes exactly `element_count` values on one line: a space after each value but the last, and the last value followed by a newline |
| `EvalProps.PrintWritesElementValues` | main.c:263-272 | when a print's arguments neither print nor assign, each element is evaluated on the starting table and the `i`-th value written is the `i`-th element's value |
| `EvalProps.LeftOperandFirst` | main.c:212-242 | `(x := 1, x) - (x := 2, x)` evaluates the left operand's assignment first and yields -1 |
| `EvalProps.DivTruncates` | main.c:233-234 | `7 / 2 = 3`, `-7 / 2 = -3`, and division by zero stops with `DivideByZero` |
| `Prog1.ProgMaxArgs` | prog1.c:4-46 | the analyser yields 2 on the fixture program |
| `Prog1.ProgRun` | prog1.c:4-46 | the fixture program prints `8 7`, then `80`, and ends with `b = 80` over `a = 8` |

## Findings

| source | as written | input that shows it | evidently intended | confidence | as-written member | corrected member |
|---|---|---|---|---|---|---|
| main.c:67-80 | `lookup` reads `table->id` before testing for the end of the list, and `interp` starts from a NULL table | the program `print(x)`: `lookup(NULL, "x")` dereferences NULL | report "could not find x in table" and exit, as for any other unbound name | high; not executed | `Env.LookupAsWrittenDiffers` | `Env.Lookup` |

The evaluator uses `Env.Lookup`, so an unbound name on the empty table is
the same `Unbound` fault as anywhere else.

## Left out

- `main` (main.c:282-288): it prints the analyser's result and then calls `interp`. That is standard-output plumbing around the modelled functions.
- The decimal text that `%d` produces: a `Write` holds the integer and its separator, not the characters.
- The text of the error message on standard error and the exit status: a run that stops returns its `Fault`, and `Unbound` carries the missing name.
- `malloc_checked`, `make_Table` and `make_IntAndTable` (main.c:48-61): heap allocation. They become datatype constructors and tuples.
- The `default:` branches that call `perror` and `exit`: they cannot be reached, because every `match` over the datatypes is exhaustive.
- Signed overflow and division by zero: C leaves them undefined. The model stops with `Overflow` or `DivideByZero` rather than choosing a wrap-around.
- `strcmp` is Dafny string equality.
- util.h declares only helpers and an unused `UBoolList`. prog1.c is fixture data, used only by the `Prog1` lemmas.
- EvalProps.PrintWritesElementValues: the values written are related to the elements one by one only when the arguments neither print nor assign. Otherwise each element reads the table the previous one left, and only `EvalList` itself says which.
- EvalProps.ExecStmOutput: the count of writes and lines is stated for completed runs only. For a run that stops early, only the `Semantics` functions say what was written.
