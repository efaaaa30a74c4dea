/**
 The environment of the interpreter (main.c `struct Table_`): a persistent
 association list of bindings, newest first. `update` only pushes a binding
 on the front; `lookup` scans from the newest binding to the oldest.
 */
module Env {
  import opened Slp

  datatype Option<T> = None | Some(value: T)

  /** `Empty` stands for C's NULL table. */
  datatype Table = Empty | Bind(id: string, value: i32, tail: Table)

  /** The names bound in `t`, newest first (a name may occur several times). */
  function Ids(t: Table): seq<string> {
    match t
    case Empty => []
    case Bind(id, _, tail) => [id] + Ids(tail)
  }

  /** main.c `update`: push `id |-> value`, shadowing every older binding of `id`. */
  function Update(t: Table, id: string, value: i32): (r: Table)
    ensures Lookup(r, id) == Some(value)
    ensures forall y :: y != id ==> Lookup(r, y) == Lookup(t, y)
    ensures Ids(r) == [id] + Ids(t)
  {
    Bind(id, value, t)
  }

  /**
   main.c `lookup`, with the miss reported as `None` instead of an exit:
   the value of the newest binding of `key`, if there is one.
   */
  function Lookup(t: Table, key: string): (r: Option<i32>)
    ensures r.None? <==> key !in Ids(t)
  {
    match t
    case Empty => None
    case Bind(id, value, tail) =>
      if id == key then Some(value) else Lookup(tail, key)
  }

  /**
   `Prefixed(t', ids, t)`: `t'` is `t` with bindings for `ids` pushed on top
   of it, `ids[0]` the newest. The older table `t` is shared, not copied.
   */
  predicate Prefixed(t': Table, ids: seq<string>, t: Table)
    decreases ids
  {
    if ids == [] then t' == t
    else t'.Bind? && t'.id == ids[0] && Prefixed(t'.tail, ids[1..], t)
  }

  lemma {:induction false} PrefixedTrans(t2: Table, a: seq<string>, t1: Table, b: seq<string>, t0: Table)
    requires Prefixed(t2, a, t1) && Prefixed(t1, b, t0)
    ensures Prefixed(t2, a + b, t0)
    decreases a
  {
    if a != [] {
      PrefixedTrans(t2.tail, a[1..], t1, b, t0);
      assert (a + b)[1..] == a[1..] + b;
    } else {
      assert a + b == b;
    }
  }

  /** Pushing bindings for `ids` changes the lookup of no name outside `ids`. */
  lemma {:induction false} PrefixedLookup(t': Table, ids: seq<string>, t: Table, y: string)
    requires Prefixed(t', ids, t) && y !in ids
    ensures Lookup(t', y) == Lookup(t, y)
    decreases ids
  {
    if ids != [] {
      assert y != ids[0];
      PrefixedLookup(t'.tail, ids[1..], t, y);
    }
  }

  /**
   Lookup finds the newest binding: the value returned is the one stored at
   the first position where `key` occurs.
   */
  lemma {:induction false} LookupNewest(t: Table, key: string, n: nat)
    requires n < |Ids(t)| && Ids(t)[n] == key && key !in Ids(t)[..n]
    ensures Lookup(t, key) == Some(ValueAt(t, n))
    decreases n
  {
    if n > 0 {
      assert Ids(t)[0] == Ids(t)[..n][0];
      assert Ids(t.tail)[..n - 1] == Ids(t)[1..n];
      LookupNewest(t.tail, key, n - 1);
    }
  }

  /** The value of the `n`-th newest binding. */
  function ValueAt(t: Table, n: nat): i32
    requires n < |Ids(t)|
  {
    if n == 0 then t.value else ValueAt(t.tail, n - 1)
  }

  /**
   What main.c's `lookup` does as written: it reads `table->id` before
   testing for the end of the list, so it dereferences NULL when called on
   the empty table, and only reports the missing name when the table it
   scans is non-empty.
   */
  datatype Probe = Hit(value: i32) | ReportMissing | NullDereference

  function LookupAsWritten(t: Table, key: string): Probe {
    match t
    case Empty => NullDereference
    case Bind(id, value, tail) =>
      if id == key then Hit(value)
      else if tail == Empty then ReportMissing
      else LookupAsWritten(tail, key)
  }

  /**
   On the empty table, which is where `interp` starts, the as-written
   lookup of any name crashes instead of reporting the name; on every other
   table it agrees with `Lookup`.
   */
  lemma {:induction false} LookupAsWrittenDiffers(t: Table, key: string)
    ensures t == Empty ==> LookupAsWritten(t, key) == NullDereference
    ensures t != Empty ==> LookupAsWritten(t, key) != NullDereference
    ensures t != Empty ==>
      (LookupAsWritten(t, key) == ReportMissing <==> Lookup(t, key).None?)
    ensures t != Empty && Lookup(t, key).Some? ==>
      LookupAsWritten(t, key) == Hit(Lookup(t, key).value)
  {
    match t
    case Empty =>
    case Bind(id, value, tail) =>
      if id != key && tail != Empty {
        LookupAsWrittenDiffers(tail, key);
      }
  }
}
