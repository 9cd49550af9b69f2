/**
  The tables behind the lease protocol as the code keeps them, objects changed in place under their locks.
  Each method is one step of the protocol or, for acquire, the steps of one uninterrupted call; the readings
  of the clock are parameters.
 */
module ManagerLeases {
  import opened Types
  import opened LeaseProtocol

  /** lease_table::lease_entry of the manager. */
  class LeaseEntry {
    var due: nat
    var addr: Addr

    constructor (remote: Addr, now: nat)
      ensures due == now + LEASE_PERIOD && addr == remote
    {
      due, addr := now + LEASE_PERIOD, remote;
    }

    /** The lease changes hands only at or after its due time; any other answer reports the entry as it stands. */
    method Cas(remote: Addr, now1: nat, now2: nat) returns (ok: bool, latestDue: nat, leader: Addr)
      modifies this
      ensures old(due) <= now1 ==> due == now2 + LEASE_PERIOD && addr == remote
      ensures now1 < old(due) ==> due == old(due) && addr == old(addr)
      ensures (ok <==> addr == remote) && latestDue == due && leader == addr
    {
      if now1 >= due {
        due := now2 + LEASE_PERIOD;
        latestDue, addr, leader := due, remote, remote;
        ok := true;
      } else if addr == remote {
        latestDue, leader := due, remote;
        ok := true;
      } else {
        latestDue, leader := due, addr;
        ok := false;
      }
    }
  }

  class LeaseTable {
    var entries: map<Ino, LeaseEntry>

    ghost predicate Valid()
      reads this
    {
      forall i, j :: i in entries && j in entries && entries[i] == entries[j] ==> i == j
    }

    ghost function Contents(): map<Ino, Entry>
      reads this, entries.Values
    {
      map ino | ino in entries :: Entry(entries[ino].due, entries[ino].addr)
    }

    constructor ()
      ensures Valid() && Contents() == map[]
    {
      entries := map[];
    }

    /**
      The unique-lock half of acquire: a new entry, or a report of the entry inserted meanwhile, due or not. The
      caller's remote_addr comes back as it was; it is the leader's address exactly when the lease is granted.
     */
    method InsertOrReport(ino: Ino, remote: Addr, now: nat) returns (granted: bool, latestDue: nat, leader: Addr)
      requires Valid()
      modifies this
      ensures Valid() && forall i :: i in old(entries) ==> i in entries && entries[i] == old(entries[i])
      ensures Contents() ==
        if ino in old(entries) then old(Contents()) else old(Contents())[ino := Entry(now + LEASE_PERIOD, remote)]
      ensures (granted <==> Contents()[ino].addr == remote) && latestDue == Contents()[ino].due
      ensures leader == remote && (leader == Contents()[ino].addr <==> granted)
    {
      leader := remote;
      if ino !in entries {
        var e := new LeaseEntry(remote, now);
        entries := entries[ino := e];
        granted, latestDue := true, e.due;
      } else {
        granted, latestDue := entries[ino].addr == remote, entries[ino].due;
      }
    }

    /** acquire, uninterrupted: the lease changes hands exactly when it is free or due. */
    method Acquire(ino: Ino, remote: Addr, now1: nat, now2: nat) returns (granted: bool, latestDue: nat, leader: Addr)
      requires Valid()
      modifies this, entries.Values
      ensures Valid()
      ensures Contents() ==
        if ino in old(Contents()) && now1 < old(Contents())[ino].due then old(Contents())
        else old(Contents())[ino := Entry(now2 + LEASE_PERIOD, remote)]
      ensures (granted <==> Contents()[ino].addr == remote)
      ensures latestDue == Contents()[ino].due && leader == Contents()[ino].addr
    {
      if ino in entries {
        granted, latestDue, leader := entries[ino].Cas(remote, now1, now2);
      } else {
        granted, latestDue, leader := InsertOrReport(ino, remote, now2);
      }
    }
  }
}

module ClientLeases {
  import opened Types
  import opened LeaseProtocol

  /** lease_table_client::lease_entry. */
  class LeaseEntry {
    var due: nat
    var leader: bool

    constructor (newDue: nat, mine: bool)
      ensures due == newDue && leader == mine
    {
      due, leader := newDue, mine;
    }

    method SetInfo(newDue: nat, mine: bool)
      modifies this
      ensures LeaseRecord(due, leader) ==
        if newDue > old(due) then LeaseRecord(newDue, mine) else LeaseRecord(old(due), old(leader))
    {
      if newDue > due {
        due, leader := newDue, mine;
      }
    }
  }

  class LeaseTable {
    var entries: map<Ino, LeaseEntry>

    ghost predicate Valid()
      reads this
    {
      forall i, j :: i in entries && j in entries && entries[i] == entries[j] ==> i == j
    }

    ghost function Records(): Leases
      reads this, entries.Values
    {
      map ino | ino in entries :: LeaseRecord(entries[ino].due, entries[ino].leader)
    }

    constructor ()
      ensures Valid() && Records() == map[] && entries == map[]
    {
      entries := map[];
    }

    method Check(ino: Ino, now: nat) returns (valid: bool)
      ensures valid <==> ino in Records() && now < Records()[ino].due
    {
      if ino !in entries { return false; }
      valid := now < entries[ino].due;
    }

    method Mine(ino: Ino, now: nat) returns (mine: bool)
      ensures mine <==> ino in Records() && Records()[ino].leader && now < Records()[ino].due
    {
      if ino !in entries { return false; }
      mine := entries[ino].leader && now < entries[ino].due;
    }

    /** update, either lookup: the record with the larger due time wins, so reordered answers do no harm. */
    method Update(ino: Ino, newDue: nat, mine: bool)
      requires Valid()
      modifies this, entries.Values
      ensures Valid()
      ensures Records() ==
        if ino in old(Records()) && newDue <= old(Records())[ino].due then old(Records())
        else old(Records())[ino := LeaseRecord(newDue, mine)]
      ensures forall e :: e in entries.Values && e !in old(entries.Values) ==> fresh(e)
    {
      if ino in entries {
        entries[ino].SetInfo(newDue, mine);
      } else {
        Insert(ino, newDue, mine);
      }
    }

    /** The unique-lock half of update, for a lease not known yet. */
    method Insert(ino: Ino, newDue: nat, mine: bool)
      requires Valid() && ino !in entries
      modifies this
      ensures Valid() && Records() == old(Records())[ino := LeaseRecord(newDue, mine)]
      ensures forall e :: e in entries.Values && e !in old(entries.Values) ==> fresh(e)
    {
      var e := new LeaseEntry(newDue, mine);
      entries := entries[ino := e];
    }

    /** lease_client::acquire: a lease already held needs no request, any other answer is recorded. */
    method Acquire(ino: Ino, now: nat, answer: Answer) returns (granted: bool)
      requires Valid()
      modifies this, entries.Values
      ensures Valid()
      ensures var recs := old(Records());
        var mine := ino in recs && recs[ino].leader && now < recs[ino].due;
        && (granted <==> mine || answer.granted)
        && Records() == if mine || (ino in recs && answer.due <= recs[ino].due) then recs
                        else recs[ino := LeaseRecord(answer.due, answer.granted)]
      ensures forall e :: e in entries.Values && e !in old(entries.Values) ==> fresh(e)
    {
      var mine := Mine(ino, now);
      if mine { return true; }
      Update(ino, answer.due, answer.granted);
      granted := answer.granted;
    }
  }
}

module DirectoryTables {
  import opened Types
  import opened LeaseProtocol
  import opened DirectoryCache
  import ClientLeases

  /** directory_table, with the location of each cached table. */
  class DirectoryTable {
    const leases: ClientLeases.LeaseTable
    var tables: Tables

    constructor (l: ClientLeases.LeaseTable)
      ensures leases == l && tables == map[]
    {
      leases, tables := l, map[];
    }

    /** add_dentry_table. */
    method Add(ino: Ino, loc: Loc) returns (ret: int)
      modifies this
      ensures tables == if ino in old(tables) then old(tables) else old(tables)[ino := loc]
      ensures ret == if ino in old(tables) then -1 else 0
    {
      if ino in tables { return -1; }
      tables := tables[ino := loc];
      ret := 0;
    }

    /** delete_dentry_table. */
    method Delete(ino: Ino) returns (ret: int)
      modifies this
      ensures tables == old(tables) - {ino}
      ensures ret == if ino in old(tables) then 0 else -1
    {
      if ino !in tables { return -1; }
      tables := tables - {ino};
      ret := 0;
    }

    /** lease_dentry_table: the table is LOCAL exactly when the lease was granted. */
    method Lease(ino: Ino, now: nat, answer: Answer) returns (loc: Loc)
      requires leases.Valid()
      modifies this, leases, leases.entries.Values
      ensures leases.Valid()
      ensures var recs := old(leases.Records());
        var mine := ino in recs && recs[ino].leader && now < recs[ino].due;
        && (loc.LOCAL? <==> mine || answer.granted)
        && leases.Records() == if mine || (ino in recs && answer.due <= recs[ino].due) then recs
                               else recs[ino := LeaseRecord(answer.due, answer.granted)]
      ensures tables == if ino in old(tables) then old(tables) else old(tables)[ino := loc]
    {
      var granted := leases.Acquire(ino, now, answer);
      loc := if granted then LOCAL else REMOTE;
      var _ := Add(ino, loc);
    }

    /**
      get_dentry_table: None stands for not_leader. A table is handed out from the cache only under a valid
      lease; otherwise the cached one is dropped, and a local caller gets what the manager's answer says.
     */
    method Get(ino: Ino, remote: bool, now1: nat, now2: nat, answer: Answer) returns (r: Option<Loc>)
      requires leases.Valid()
      modifies this, leases, leases.entries.Values
      ensures leases.Valid()
      ensures var recs := old(leases.Records());
        var hit := ino in old(tables) && ino in recs && now1 < recs[ino].due;
        var mine := ino in recs && recs[ino].leader && now2 < recs[ino].due;
        && (hit ==> r == Some(old(tables)[ino]) && tables == old(tables) && leases.Records() == recs)
        && (!hit && remote ==> r == None && tables == old(tables) - {ino} && leases.Records() == recs)
        && (!hit && !remote ==>
              && r == Some(if mine || answer.granted then LOCAL else REMOTE)
              && tables == old(tables)[ino := r.value]
              && leases.Records() == if mine || (ino in recs && answer.due <= recs[ino].due) then recs
                                     else recs[ino := LeaseRecord(answer.due, answer.granted)])
    {
      if ino in tables {
        var valid := leases.Check(ino, now1);
        if valid { return Some(tables[ino]); }
        tables := tables - {ino};
      }
      if remote { return None; }
      var loc := Lease(ino, now2, answer);
      r := Some(loc);
    }
  }
}
