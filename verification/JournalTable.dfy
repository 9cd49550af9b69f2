/** The shared containers of the journal (client/journal/journal_table.cpp, client/journal/mqueue.hpp). */
module JournalTables {
  import opened Types
  import opened Transactions
  import opened TransactionObjects

  /** The open transaction of each directory. Each method is one critical section. */
  class JournalTable {
    var entries: map<Ino, Transaction>

    ghost predicate Valid()
      reads this
    {
      forall d :: d in entries ==> entries[d].sIno == d
    }

    constructor ()
      ensures Valid() && entries == map[]
    {
      entries := map[];
    }

    /** get_entry under the shared lock: null when there is no open transaction. */
    method Find(ino: Ino) returns (tx: Transaction?)
      requires Valid()
      ensures (tx != null <==> ino in entries) && (tx != null ==> tx == entries[ino] && tx.sIno == ino)
    {
      tx := null;
      if ino in entries { tx := entries[ino]; }
    }

    /** get_entry under the unique lock: a transaction another thread inserted meanwhile is kept. */
    method Insert(ino: Ino) returns (tx: Transaction)
      requires Valid()
      modifies this
      ensures Valid() && ino in entries && tx == entries[ino]
      ensures ino in old(entries) ==> entries == old(entries)
      ensures ino !in old(entries) ==> entries == old(entries)[ino := tx] && fresh(tx) && tx.View() == NewTx(ino)
    {
      if ino in entries { return entries[ino]; }
      tx := new Transaction(ino);
      entries := entries[ino := tx];
    }

    /** replace_map: the whole table is handed over at once, so no transaction is in two tables. */
    method ReplaceMap() returns (taken: map<Ino, Transaction>)
      requires Valid()
      modifies this
      ensures Valid() && entries == map[] && taken == old(entries)
      ensures forall d :: d in taken ==> taken[d].sIno == d
    {
      taken := entries;
      entries := map[];
    }
  }

  /** A queue between two threads; what was issued and dispatched so far is observed. */
  class MQueue<T> {
    var q: seq<T>
    ghost var issued: seq<T>
    ghost var dispatched: seq<T>

    /** First in, first out: nothing is lost, repeated or overtaken. */
    ghost predicate Valid()
      reads this
    {
      issued == dispatched + q
    }

    constructor ()
      ensures Valid() && q == [] && issued == []
    {
      q, issued, dispatched := [], [], [];
    }

    method Issue(x: T)
      requires Valid()
      modifies this
      ensures Valid() && issued == old(issued) + [x] && dispatched == old(dispatched)
    {
      q, issued := q + [x], issued + [x];
    }

    /** One round of dispatch: on an empty queue the thread goes on waiting. */
    method Dispatch() returns (r: Option<T>)
      requires Valid()
      modifies this
      ensures Valid() && issued == old(issued)
      ensures old(q) == [] ==> r == None && dispatched == old(dispatched)
      ensures old(q) != [] ==>
        r == Some(old(issued)[|old(dispatched)|]) && dispatched == old(dispatched) + [r.value]
    {
      if q == [] { return None; }
      r := Some(q[0]);
      q, dispatched := q[1..], dispatched + [q[0]];
    }
  }
}
