/** The in-memory operation log of one instance. */
module Store {
  import opened TextOps

  class MemoryInstanceStore<P(==)> {
    var ops: seq<StoredOp<P>>

    /** No (origin, sequence) pair is stored twice. */
    ghost predicate Valid()
      reads this
    {
      UniqueKeys(ops)
    }

    constructor (persisted: seq<StoredOp<P>>)
      requires UniqueKeys(persisted)
      ensures Valid() && ops == persisted
    {
      ops := persisted;
    }

    /** Stores an operation unless its identity is held; `appended` says which. */
    method Append(op: StoredOp<P>) returns (appended: bool)
      requires Valid()
      modifies this
      ensures Valid()
      ensures appended <==> !HasKey(old(ops), Key(op))
      ensures ops == if appended then old(ops) + [op] else old(ops)
    {
      appended := !HasKey(ops, Key(op));
      if appended { ops := ops + [op]; }
    }
  }
}
