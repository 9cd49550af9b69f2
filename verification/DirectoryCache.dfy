/**
  The directory cache of each client on top of the lease protocol (client/in_memory/directory_table.cpp).
  A client caches a table per directory, LOCAL when it leads and REMOTE when another client does. Every
  entry point holds the client's directory_table_mutex throughout, a lease call to the manager included,
  so a client has at most one such call under way.
 */
module DirectoryCache {
  import opened Types
  import L = LeaseProtocol

  datatype Loc = LOCAL | REMOTE
  type Tables = map<Ino, Loc>

  /** The entry point in progress: about to call lease_client::acquire, or waiting for the manager's answer. */
  datatype Call =
    | Acquiring(ino: Ino, mkdir: bool)
    | Waiting(ino: Ino, mkdir: bool, request: L.Request)

  /** `overlooked` is observed only: an answer came for a table cached with the other location. */
  datatype State = State(
    lease: L.State, tables: map<L.Addr, Tables>, calls: map<L.Addr, Call>, overlooked: set<(L.Addr, Ino)>)

  predicate Init(s: State) {
    L.Init(s.lease) && s.tables == map[] && s.calls == map[] && s.overlooked == {}
  }

  function TablesOf(tables: map<L.Addr, Tables>, c: L.Addr): Tables { if c in tables then tables[c] else map[] }

  /** add_dentry_table: a table already cached stays. */
  function AddTable(t: Tables, ino: Ino, loc: Loc): Tables { if ino in t then t else t[ino := loc] }

  /** delete_dentry_table, and the erasure of an expired table. */
  function DropTable(t: Tables, ino: Ino): Tables { t - {ino} }

  /** A cached table may be handed out: its lease is valid. */
  predicate Hit(t: Tables, recs: L.Leases, ino: Ino, now: nat) { ino in t && L.IsValid(recs, ino, now) }

  function Added(tables: map<L.Addr, Tables>, c: L.Addr, ino: Ino, loc: Loc): map<L.Addr, Tables> {
    tables[c := AddTable(TablesOf(tables, c), ino, loc)]
  }

  function Erased(tables: map<L.Addr, Tables>, c: L.Addr, ino: Ino): map<L.Addr, Tables> {
    tables[c := DropTable(TablesOf(tables, c), ino)]
  }

  datatype Event =
    | Net(e: L.Event)
    | Get(c: L.Addr, ino: Ino, remote: bool)
    | Mkdir(c: L.Addr, ino: Ino)
    | Acquire(c: L.Addr)
    | Complete(c: L.Addr, response: L.Response)
    | Fail(c: L.Addr)
    | Delete(c: L.Addr, ino: Ino)

  predicate Enabled(s: State, e: Event) {
    match e
    case Net(n) => !n.Send? && !n.Deliver? && L.Enabled(s.lease, n)
    case Get(c, _, _) => c !in s.calls
    case Mkdir(c, _) => c !in s.calls
    case Delete(c, _) => c !in s.calls
    case Acquire(c) => c in s.calls && s.calls[c].Acquiring?
    case Complete(c, r) =>
      c in s.calls && s.calls[c].Waiting? && r in s.lease.responses && r.request == s.calls[c].request
    case Fail(c) => c in s.calls && s.calls[c].Waiting?
  }

  function Records(s: State, c: L.Addr): L.Leases { L.LeasesOf(s.lease.leases, c) }

  /**
    get_dentry_table: a hit needs a valid lease; an expired table goes, and only a local caller then asks for
    the lease.
   */
  function DoGet(s: State, c: L.Addr, ino: Ino, remote: bool): State {
    if Hit(TablesOf(s.tables, c), Records(s, c), ino, s.lease.now) then s
    else
      s.(tables := if ino in TablesOf(s.tables, c) then Erased(s.tables, c, ino) else s.tables,
         calls := if remote then s.calls else s.calls[c := Acquiring(ino, false)])
  }

  /** The start of lease_client::acquire: a lease already held needs no message. */
  function DoAcquire(s: State, c: L.Addr): State
    requires Enabled(s, Acquire(c))
  {
    var ino := s.calls[c].ino;
    if L.IsMine(Records(s, c), ino, s.lease.now) then
      s.(tables := Added(s.tables, c, ino, LOCAL), calls := s.calls - {c},
         overlooked := if ino in TablesOf(s.tables, c) then s.overlooked else s.overlooked - {(c, ino)})
    else
      s.(lease := L.Do(s.lease, L.Send(c, ino)),
         calls := s.calls[c := Waiting(ino, s.calls[c].mkdir, L.Request(s.lease.nextId, c, ino))])
  }

  /**
    The answer arrives: the record is updated, and the table is added, LOCAL if granted and REMOTE if not.
    lease_dentry_table_mkdir throws when the lease is refused, its record already updated.
   */
  function DoComplete(s: State, c: L.Addr, r: L.Response): State
    requires Enabled(s, Complete(c, r))
  {
    var ino, cached := s.calls[c].ino, TablesOf(s.tables, c);
    s.(lease := L.Do(s.lease, L.Deliver(r)),
       tables := if r.answer.granted then Added(s.tables, c, ino, LOCAL)
                 else if s.calls[c].mkdir then s.tables
                 else Added(s.tables, c, ino, REMOTE),
       calls := s.calls - {c},
       overlooked := if ino in cached && cached[ino].LOCAL? != r.answer.granted then s.overlooked + {(c, ino)}
                     else s.overlooked - {(c, ino)})
  }

  function Do(s: State, e: Event): State
    requires Enabled(s, e)
  {
    match e
    case Net(n) => s.(lease := L.Do(s.lease, n))
    case Get(c, ino, remote) => DoGet(s, c, ino, remote)
    case Mkdir(c, ino) => s.(calls := s.calls[c := Acquiring(ino, true)])
    case Delete(c, ino) => s.(tables := Erased(s.tables, c, ino))
    case Acquire(c) => DoAcquire(s, c)
    case Complete(c, r) => DoComplete(s, c, r)
    case Fail(c) => s.(calls := s.calls - {c})
  }

  predicate Reaches(s0: State, events: seq<Event>, s: State)
    decreases |events|
  {
    if events == [] then s == s0
    else Enabled(s0, events[0]) && Reaches(Do(s0, events[0]), events[1..], s)
  }

  // ---- What every step keeps ----

  ghost predicate IdsOk(l: L.State) {
    && (forall rq :: rq in l.requests ==> rq.id < l.nextId)
    && (forall h :: h in l.handlers ==> l.handlers[h].request.id < l.nextId)
    && (forall r :: r in l.responses ==> r.request.id < l.nextId)
  }

  /** Answers to the request a client waits for are no older than what the client knows. */
  ghost predicate Current(responses: set<L.Response>, recs: L.Leases, rq: L.Request) {
    forall r :: r in responses && r.request == rq && rq.ino in recs ==> recs[rq.ino].due <= r.answer.due
  }

  ghost predicate CallOk(s: State, c: L.Addr) {
    c in s.calls ==>
      var call := s.calls[c];
      && (!call.mkdir ==> call.ino !in TablesOf(s.tables, c))
      && (call.Waiting? ==>
            && call.request.client == c && call.request.ino == call.ino && call.request.id < s.lease.nextId
            && Current(s.lease.responses, Records(s, c), call.request))
  }

  /** A cached table's location is what the record says, unless an answer was overlooked. */
  ghost predicate Agrees(s: State, c: L.Addr, ino: Ino) {
    var cached, recs := TablesOf(s.tables, c), Records(s, c);
    ino in cached ==> ino in recs && ((cached[ino].LOCAL? <==> recs[ino].leader) <==> (c, ino) !in s.overlooked)
  }

  ghost predicate Inv(s: State) {
    && L.Inv(s.lease) && IdsOk(s.lease)
    && (forall c :: CallOk(s, c))
    && (forall c, ino :: Agrees(s, c, ino))
  }

  /** The manager's entry has the largest due time any claim can carry. */
  lemma EntryIsLatest(l: L.State, c: L.Addr, ino: Ino)
    requires L.Inv(l) && ino in L.LeasesOf(l.leases, c)
    ensures ino in l.entries && L.LeasesOf(l.leases, c)[ino].due <= l.entries[ino].due
  {
    var gs, rec := L.GrantsOf(l.grants, ino), l.leases[c][ino];
    assert L.EntryOk(l.entries, gs, ino, l.now);
    assert L.Backed(gs, c, rec.due, rec.leader);
    var i :| 0 <= i < |gs| && gs[i].due == rec.due;
    L.DueIdentifiesHolder(gs, l.now, i, |gs| - 1);
  }

  /** A new answer carries the due time of the entry it was read from. */
  lemma AnswersAreLatest(l: L.State, n: L.Event, r: L.Response)
    requires L.Inv(l) && L.Enabled(l, n) && IdsOk(l)
    requires r in L.Do(l, n).responses && r !in l.responses
    ensures r.request.ino in L.Do(l, n).entries && r.answer.due == L.Do(l, n).entries[r.request.ino].due
    ensures r.request.id < l.nextId
  {
  }

  lemma NetIds(l: L.State, n: L.Event)
    requires L.Inv(l) && IdsOk(l) && L.Enabled(l, n)
    ensures IdsOk(L.Do(l, n))
  {
    forall r | r in L.Do(l, n).responses && r !in l.responses ensures r.request.id < l.nextId {
      AnswersAreLatest(l, n, r);
    }
  }

  lemma NetKeepsCall(s: State, n: L.Event, c: L.Addr)
    requires L.Inv(s.lease) && IdsOk(s.lease) && Enabled(s, Net(n)) && CallOk(s, c)
    ensures CallOk(Do(s, Net(n)), c)
  {
    var l' := L.Do(s.lease, n);
    L.StepKeeps(s.lease, n);
    assert l'.leases == s.lease.leases && l'.nextId == s.lease.nextId;
    if c in s.calls && s.calls[c].Waiting? {
      StillCurrent(s.lease, n, c, s.calls[c].request);
    }
  }

  /** Whatever the manager answers meanwhile is no older than what the client knows. */
  lemma StillCurrent(l: L.State, n: L.Event, c: L.Addr, rq: L.Request)
    requires L.Inv(l) && IdsOk(l) && L.Enabled(l, n) && !n.Send? && !n.Deliver?
    requires Current(l.responses, L.LeasesOf(l.leases, c), rq)
    ensures Current(L.Do(l, n).responses, L.LeasesOf(l.leases, c), rq)
  {
    var l', recs := L.Do(l, n), L.LeasesOf(l.leases, c);
    L.StepKeeps(l, n);
    forall r | r in l'.responses && r.request == rq && rq.ino in recs ensures recs[rq.ino].due <= r.answer.due {
      if r !in l.responses {
        AnswersAreLatest(l, n, r);
        EntryIsLatest(l', c, rq.ino);
      }
    }
  }

  lemma NetKeeps(s: State, n: L.Event)
    requires Inv(s) && Enabled(s, Net(n))
    ensures Inv(Do(s, Net(n)))
  {
    L.StepKeeps(s.lease, n);
    NetIds(s.lease, n);
    var s' := Do(s, Net(n));
    forall c ensures CallOk(s', c) { assert CallOk(s, c); NetKeepsCall(s, n, c); }
    forall c, ino ensures Agrees(s', c, ino) { assert Agrees(s, c, ino); }
  }

  lemma GetKeeps(s: State, c: L.Addr, ino: Ino, remote: bool)
    requires Inv(s) && c !in s.calls
    ensures Inv(DoGet(s, c, ino, remote))
  {
    var s' := DoGet(s, c, ino, remote);
    forall d ensures CallOk(s', d) { assert CallOk(s, d); }
    forall d, i ensures Agrees(s', d, i) { assert Agrees(s, d, i); }
  }

  lemma SendKeeps(s: State, c: L.Addr)
    requires Inv(s) && Enabled(s, Acquire(c)) && !L.IsMine(Records(s, c), s.calls[c].ino, s.lease.now)
    ensures Inv(DoAcquire(s, c))
  {
    var s' := DoAcquire(s, c);
    L.StepKeeps(s.lease, L.Send(c, s.calls[c].ino));
    forall d ensures CallOk(s', d) { assert CallOk(s, d); }
    forall d, i ensures Agrees(s', d, i) { assert Agrees(s, d, i); }
  }

  lemma MineKeeps(s: State, c: L.Addr)
    requires Inv(s) && Enabled(s, Acquire(c)) && L.IsMine(Records(s, c), s.calls[c].ino, s.lease.now)
    ensures Inv(DoAcquire(s, c))
  {
    var s' := DoAcquire(s, c);
    forall d ensures CallOk(s', d) { assert CallOk(s, d); }
    forall d, i ensures Agrees(s', d, i) { assert Agrees(s, d, i); }
  }

  /** After the answer, the record says leader exactly when the lease was granted: an equal due time has one holder. */
  lemma RecordIsAnswer(s: State, c: L.Addr, r: L.Response)
    requires Inv(s) && Enabled(s, Complete(c, r))
    ensures var recs, ino := Records(DoComplete(s, c, r), c), s.calls[c].ino;
      ino in recs && recs[ino] == L.LeaseRecord(r.answer.due, r.answer.granted)
  {
    assert CallOk(s, c);
    var ino := s.calls[c].ino;
    if ino in Records(s, c) && Records(s, c)[ino].due == r.answer.due {
      var gs, rec := L.GrantsOf(s.lease.grants, ino), s.lease.leases[c][ino];
      assert L.EntryOk(s.lease.entries, gs, ino, s.lease.now);
      var i :| 0 <= i < |gs| && gs[i].due == rec.due && (rec.leader <==> gs[i].holder == c);
      var j :| 0 <= j < |gs| && gs[j].due == r.answer.due && (r.answer.granted <==> gs[j].holder == c);
      L.DueIdentifiesHolder(gs, s.lease.now, i, j);
    }
  }

  lemma CompleteAgrees(s: State, s': State, c: L.Addr, r: L.Response, d: L.Addr, i: Ino)
    requires CallOk(s, c) && Agrees(s, d, i) && Enabled(s, Complete(c, r)) && s' == DoComplete(s, c, r)
    requires var recs, ino := Records(s', c), s.calls[c].ino;
      ino in recs && recs[ino] == L.LeaseRecord(r.answer.due, r.answer.granted)
    ensures Agrees(s', d, i)
  {
  }

  lemma CompleteCalls(s: State, s': State, c: L.Addr, r: L.Response, d: L.Addr)
    requires CallOk(s, c) && CallOk(s, d) && Enabled(s, Complete(c, r)) && s' == DoComplete(s, c, r)
    ensures CallOk(s', d)
  {
  }

  lemma CompleteKeeps(s: State, c: L.Addr, r: L.Response)
    requires Inv(s) && Enabled(s, Complete(c, r))
    ensures Inv(DoComplete(s, c, r))
  {
    var s' := DoComplete(s, c, r);
    L.StepKeeps(s.lease, L.Deliver(r));
    RecordIsAnswer(s, c, r);
    assert CallOk(s, c);
    forall d ensures CallOk(s', d) {
      assert CallOk(s, d);
      CompleteCalls(s, s', c, r, d);
    }
    forall d, i ensures Agrees(s', d, i) {
      assert Agrees(s, d, i);
      CompleteAgrees(s, s', c, r, d, i);
    }
  }

  lemma StepKeeps(s: State, e: Event)
    requires Inv(s) && Enabled(s, e)
    ensures Inv(Do(s, e))
  {
    match e {
      case Net(n) => NetKeeps(s, n);
      case Get(c, ino, remote) => GetKeeps(s, c, ino, remote);
      case Acquire(c) =>
        if L.IsMine(Records(s, c), s.calls[c].ino, s.lease.now) { MineKeeps(s, c); } else { SendKeeps(s, c); }
      case Complete(c, r) => CompleteKeeps(s, c, r);
      case _ =>
        var s' := Do(s, e);
        forall d ensures CallOk(s', d) { assert CallOk(s, d); }
        forall d, i ensures Agrees(s', d, i) { assert Agrees(s, d, i); }
    }
  }

  lemma {:induction false} RunKeeps(s0: State, events: seq<Event>, s: State)
    requires Inv(s0) && Reaches(s0, events, s)
    ensures Inv(s)
    decreases |events|
  {
    if events != [] {
      StepKeeps(s0, events[0]);
      RunKeeps(Do(s0, events[0]), events[1..], s);
    }
  }

  lemma InitInv(s: State)
    requires Init(s)
    ensures Inv(s)
  {
    L.InitInv(s.lease);
  }

  // ---- Theorems ----

  /**
    In every reachable state a cached table is LOCAL exactly when the record says leader, unless an answer was
    overlooked.
   */
  lemma LocalIffLeader(s0: State, events: seq<Event>, s: State, c: L.Addr, ino: Ino)
    requires Init(s0) && Reaches(s0, events, s) && ino in TablesOf(s.tables, c)
    ensures ino in Records(s, c)
    ensures (TablesOf(s.tables, c)[ino].LOCAL? <==> Records(s, c)[ino].leader) <==> (c, ino) !in s.overlooked
  {
    InitInv(s0);
    RunKeeps(s0, events, s);
    assert Agrees(s, c, ino);
  }

  /** Directories are made under inode numbers the client does not cache yet. */
  predicate FreshMkdirs(s0: State, events: seq<Event>)
    decreases |events|
  {
    events != [] && Enabled(s0, events[0]) ==>
      && (events[0].Mkdir? ==> events[0].ino !in TablesOf(s0.tables, events[0].c))
      && FreshMkdirs(Do(s0, events[0]), events[1..])
  }

  /** Then a call in progress never finds its table cached. */
  ghost predicate Uncached(s: State) {
    s.overlooked == {} && forall c :: c in s.calls ==> s.calls[c].ino !in TablesOf(s.tables, c)
  }

  lemma {:induction false} FreshNeverOverlooks(s0: State, events: seq<Event>, s: State)
    requires Uncached(s0) && Reaches(s0, events, s) && FreshMkdirs(s0, events)
    ensures Uncached(s)
    decreases |events|
  {
    if events != [] {
      FreshNeverOverlooks(Do(s0, events[0]), events[1..], s);
    }
  }

  /** What get_dentry_table hands out on a hit. */
  predicate Handed(s: State, c: L.Addr, ino: Ino, loc: Loc) {
    Hit(TablesOf(s.tables, c), Records(s, c), ino, s.lease.now) && TablesOf(s.tables, c)[ino] == loc
  }

  /** Single leader through the cache: at one instant at most one client is handed a LOCAL table for a directory. */
  lemma SingleLeader(s0: State, events: seq<Event>, s: State, c1: L.Addr, c2: L.Addr, ino: Ino)
    requires Init(s0) && Reaches(s0, events, s) && FreshMkdirs(s0, events)
    requires Handed(s, c1, ino, LOCAL) && Handed(s, c2, ino, LOCAL)
    ensures c1 == c2
  {
    InitInv(s0);
    RunKeeps(s0, events, s);
    FreshNeverOverlooks(s0, events, s);
    assert Agrees(s, c1, ino) && Agrees(s, c2, ino);
    var gs := L.GrantsOf(s.lease.grants, ino);
    assert L.EntryOk(s.lease.entries, gs, ino, s.lease.now);
    L.OneRunningClaim(gs, s.lease.now, c1, Records(s, c1)[ino].due, c2, Records(s, c2)[ino].due);
  }

  /** A cached table of either location under a running record is handed out as it is; nothing else is. */
  lemma HandedExactly(s: State, c: L.Addr, ino: Ino, remote: bool)
    requires c !in s.calls
    ensures var cached, recs, s' := TablesOf(s.tables, c), Records(s, c), Do(s, Get(c, ino, remote));
      if ino in cached && ino in recs && s.lease.now < recs[ino].due then
        s' == s && Handed(s, c, ino, cached[ino])
      else
        && TablesOf(s'.tables, c) == cached - {ino} && !Handed(s, c, ino, LOCAL) && !Handed(s, c, ino, REMOTE)
        && s'.lease == s.lease && (forall d :: d != c ==> TablesOf(s'.tables, d) == TablesOf(s.tables, d))
        && s'.calls == if remote then s.calls else s.calls[c := Acquiring(ino, false)]
  {
  }

  // ---- Uninterrupted calls ----

  lemma {:induction false} OneMore(s0: State, events: seq<Event>, s: State, e: Event)
      returns (longer: seq<Event>, s': State)
    requires Reaches(s0, events, s) && Enabled(s, e)
    ensures s' == Do(s, e) && Reaches(s0, longer, s')
    decreases |events|
  {
    longer, s' := events + [e], Do(s, e);
    if events != [] {
      var tail, _ := OneMore(Do(s0, events[0]), events[1..], s, e);
      longer := [events[0]] + tail;
      assert longer[1..] == tail;
    } else {
      assert longer[1..] == [];
    }
  }

  /** What the manager and the network do happens beside the caches. */
  lemma {:induction false} NetRun(s0: State, events: seq<Event>, s: State, es: seq<L.Event>, l: L.State)
      returns (longer: seq<Event>)
    requires Reaches(s0, events, s) && L.Reaches(s.lease, es, l)
    requires forall e :: e in es ==> !e.Send? && !e.Deliver?
    ensures Reaches(s0, longer, s.(lease := l))
    decreases |es|
  {
    longer := events;
    if es != [] {
      var s1;
      longer, s1 := OneMore(s0, events, s, Net(es[0]));
      longer := NetRun(s0, longer, s1, es[1..], l);
    }
  }

  /** The lease is the caller's by its own record. */
  predicate Leads(s: State, c: L.Addr, ino: Ino) {
    ino in Records(s, c) && Records(s, c)[ino].leader && s.lease.now < Records(s, c)[ino].due
  }

  /** The other clients' caches and records are as they were. */
  ghost predicate OthersSame(s: State, s': State, c: L.Addr) {
    forall d :: d != c ==> TablesOf(s'.tables, d) == TablesOf(s.tables, d) && Records(s', d) == Records(s, d)
  }

  /** The whole of lease_client::acquire and what its caller makes of it, for a caller with `cached` in its cache. */
  ghost predicate Leased(s: State, s': State, c: L.Addr, ino: Ino, mkdir: bool, cached: Tables) {
    var e, recs := L.Settled(s.lease.entries, ino, c, s.lease.now), Records(s, c);
    var granted := Leads(s, c, ino) || e.addr == c;
    && s'.lease.now == s.lease.now && s'.lease.handlers == s.lease.handlers && OthersSame(s, s', c)
    && s'.lease.entries == (if Leads(s, c, ino) then s.lease.entries else s.lease.entries[ino := e])
    && Records(s', c) == (if Leads(s, c, ino) then recs else recs[ino := L.LeaseRecord(e.due, e.addr == c)])
    && TablesOf(s'.tables, c) == if ino in cached || (mkdir && !granted) then cached
                                 else cached[ino := if granted then LOCAL else REMOTE]
  }

  lemma SendAlone(s: State, c: L.Addr, ino: Ino, mkdir: bool)
    requires c in s.calls && s.calls[c] == Acquiring(ino, mkdir) && !Leads(s, c, ino)
    ensures var rq := L.Request(s.lease.nextId, c, ino);
      && Enabled(s, Acquire(c))
      && Do(s, Acquire(c)) == s.(
           lease := s.lease.(requests := s.lease.requests + {rq}, nextId := s.lease.nextId + 1),
           calls := s.calls[c := Waiting(ino, mkdir, rq)])
  {
  }

  lemma MineAlone(s: State, c: L.Addr, ino: Ino, mkdir: bool)
    requires c in s.calls && s.calls[c] == Acquiring(ino, mkdir) && Leads(s, c, ino)
    ensures Enabled(s, Acquire(c)) && Leased(s, Do(s, Acquire(c)), c, ino, mkdir, TablesOf(s.tables, c))
    ensures Do(s, Acquire(c)).calls == s.calls - {c}
  {
  }

  lemma CompleteAlone(s: State, c: L.Addr, ino: Ino, mkdir: bool, rq: L.Request, a: L.Answer)
    requires Inv(s) && c in s.calls && s.calls[c] == Waiting(ino, mkdir, rq) && L.Response(rq, a) in s.lease.responses
    ensures Enabled(s, Complete(c, L.Response(rq, a)))
    ensures var s', cached := Do(s, Complete(c, L.Response(rq, a))), TablesOf(s.tables, c);
      && s'.calls == s.calls - {c} && OthersSame(s, s', c) && s'.lease == s.lease.(leases := s'.lease.leases)
      && Records(s', c) == Records(s, c)[ino := L.LeaseRecord(a.due, a.granted)]
      && TablesOf(s'.tables, c) == if ino in cached || (mkdir && !a.granted) then cached
                                   else cached[ino := if a.granted then LOCAL else REMOTE]
  {
    assert CallOk(s, c);
    RecordIsAnswer(s, c, L.Response(rq, a));
  }

  /** The request is sent and served by manager thread `h`. */
  lemma Asked(s0: State, events: seq<Event>, s: State, c: L.Addr, ino: Ino, mkdir: bool, h: nat)
      returns (longer: seq<Event>, s': State)
    requires Reaches(s0, events, s) && c in s.calls && s.calls[c] == Acquiring(ino, mkdir) && !Leads(s, c, ino)
    requires h !in s.lease.handlers && !L.Locked(s.lease.handlers, ino)
    ensures Reaches(s0, longer, s')
    ensures var rq, e := L.Request(s.lease.nextId, c, ino), L.Settled(s.lease.entries, ino, c, s.lease.now);
      && s'.tables == s.tables && s'.calls == s.calls[c := Waiting(ino, mkdir, rq)]
      && s'.lease.now == s.lease.now && s'.lease.handlers == s.lease.handlers && s'.lease.leases == s.lease.leases
      && s'.lease.entries == s.lease.entries[ino := e]
      && L.Response(rq, L.Answer(e.addr == c, e.due)) in s'.lease.responses
  {
    var s1, es, l;
    SendAlone(s, c, ino, mkdir);
    longer, s1 := OneMore(s0, events, s, Acquire(c));
    es, l := L.AcquireAlone(s1.lease, h, L.Request(s.lease.nextId, c, ino));
    longer := NetRun(s0, longer, s1, es, l);
    s' := s1.(lease := l);
  }

  /** lease_client::acquire called by `c`, with no other call for the directory inside cas. */
  lemma LeaseAlone(s0: State, events: seq<Event>, s: State, c: L.Addr, ino: Ino, mkdir: bool, h: nat)
      returns (longer: seq<Event>, s': State)
    requires Init(s0) && Reaches(s0, events, s) && c in s.calls && s.calls[c] == Acquiring(ino, mkdir)
    requires h !in s.lease.handlers && !L.Locked(s.lease.handlers, ino)
    ensures Reaches(s0, longer, s')
    ensures s'.calls == s.calls - {c} && Leased(s, s', c, ino, mkdir, TablesOf(s.tables, c))
  {
    if Leads(s, c, ino) {
      MineAlone(s, c, ino, mkdir);
      longer, s' := OneMore(s0, events, s, Acquire(c));
    } else {
      var s1;
      var e := L.Settled(s.lease.entries, ino, c, s.lease.now);
      var rq, a := L.Request(s.lease.nextId, c, ino), L.Answer(e.addr == c, e.due);
      longer, s1 := Asked(s0, events, s, c, ino, mkdir, h);
      InitInv(s0);
      RunKeeps(s0, longer, s1);
      CompleteAlone(s1, c, ino, mkdir, rq, a);
      longer, s' := OneMore(s0, longer, s1, Complete(c, L.Response(rq, a)));
      Overwritten(s.calls, c, Waiting(ino, mkdir, rq));
    }
  }

  lemma Overwritten(calls: map<L.Addr, Call>, c: L.Addr, a: Call)
    ensures calls[c := a] - {c} == calls - {c}
  {
  }

  /**
    get_dentry_table of a local caller, end to end, while nobody is inside cas for the directory: a cached table
    under a running record is handed out and nothing changes; otherwise the caller ends up with a LOCAL table
    exactly when the lease was its own, free, or due, and the manager, the record and the cache agree on it.
   */
  lemma GetAlone(s0: State, events: seq<Event>, s: State, c: L.Addr, ino: Ino, h: nat)
      returns (longer: seq<Event>, s': State)
    requires Init(s0) && Reaches(s0, events, s) && c !in s.calls
    requires h !in s.lease.handlers && !L.Locked(s.lease.handlers, ino)
    ensures Reaches(s0, longer, s') && s'.calls == s.calls
    ensures var cached, recs := TablesOf(s.tables, c), Records(s, c);
      if ino in cached && ino in recs && s.lease.now < recs[ino].due then s' == s
      else Leased(s, s', c, ino, false, cached - {ino})
  {
    var s1;
    HandedExactly(s, c, ino, false);
    longer, s1 := OneMore(s0, events, s, Get(c, ino, false));
    if s1.calls == s.calls {
      s' := s1;
    } else {
      Overwritten(s.calls, c, Acquiring(ino, false));
      NotCalling(s.calls, c);
      longer, s' := LeaseAlone(s0, longer, s1, c, ino, false, h);
    }
  }

  lemma NotCalling(calls: map<L.Addr, Call>, c: L.Addr)
    requires c !in calls
    ensures calls - {c} == calls
  {
  }

  /**
    lease_dentry_table_mkdir, end to end: a refusal throws and leaves the cache as it is, and so does a table
    that is cached already.
   */
  lemma MkdirAlone(s0: State, events: seq<Event>, s: State, c: L.Addr, ino: Ino, h: nat)
      returns (longer: seq<Event>, s': State)
    requires Init(s0) && Reaches(s0, events, s) && c !in s.calls
    requires h !in s.lease.handlers && !L.Locked(s.lease.handlers, ino)
    ensures Reaches(s0, longer, s') && s'.calls == s.calls
    ensures Leased(s, s', c, ino, true, TablesOf(s.tables, c))
  {
    var s1;
    longer, s1 := OneMore(s0, events, s, Mkdir(c, ino));
    Overwritten(s.calls, c, Acquiring(ino, true));
    NotCalling(s.calls, c);
    longer, s' := LeaseAlone(s0, longer, s1, c, ino, true, h);
  }

  // ---- A directory made under a number that is cached already ----

  /** `c` leads the directory, up to the time its lease is due. */
  lemma FirstLeads(s0: State, c: L.Addr, ino: Ino) returns (events: seq<Event>, s: State)
    requires Init(s0)
    ensures Reaches(s0, events, s) && s.lease.handlers == map[] && s.calls == map[]
    ensures TablesOf(s.tables, c) == map[ino := LOCAL] && ino in Records(s, c)
    ensures forall d :: d != c ==> TablesOf(s.tables, d) == map[] && Records(s, d) == map[]
    ensures ino in s.lease.entries && s.lease.entries[ino] == L.Entry(s.lease.now, c)
  {
    var s1;
    events, s1 := GetAlone(s0, [], s0, c, ino, 0);
    events, s := OneMore(s0, events, s1, Net(L.Tick(L.LEASE_PERIOD)));
  }

  /** When that lease is due, `d` takes it over. */
  lemma SecondLeads(s0: State, c: L.Addr, d: L.Addr, ino: Ino) returns (events: seq<Event>, s: State)
    requires Init(s0) && c != d
    ensures Reaches(s0, events, s) && s.lease.handlers == map[] && s.calls == map[]
    ensures TablesOf(s.tables, c) == map[ino := LOCAL] && TablesOf(s.tables, d) == map[ino := LOCAL]
    ensures var due := s.lease.now + L.LEASE_PERIOD;
      && ino in s.lease.entries && s.lease.entries[ino] == L.Entry(due, d)
      && ino in Records(s, d) && Records(s, d)[ino] == L.LeaseRecord(due, true)
    ensures !Leads(s, c, ino)
  {
    var s1;
    events, s1 := FirstLeads(s0, c, ino);
    InitInv(s0);
    RunKeeps(s0, events, s1);
    EntryIsLatest(s1.lease, c, ino);
    events, s := GetAlone(s0, events, s1, d, ino, 0);
  }

  /**
    Without FreshMkdirs two leaders are possible: when `c` then calls lease_dentry_table_mkdir for that number,
    the refusal renews its record and leaves the expired LOCAL table cached, so both clients are handed one.
   */
  lemma MkdirOverCachedTable(s0: State, c: L.Addr, d: L.Addr, ino: Ino) returns (events: seq<Event>, s: State)
    requires Init(s0) && c != d
    ensures Reaches(s0, events, s) && Handed(s, c, ino, LOCAL) && Handed(s, d, ino, LOCAL)
  {
    var s1;
    events, s1 := SecondLeads(s0, c, d, ino);
    events, s := MkdirAlone(s0, events, s1, c, ino, 0);
  }
}
