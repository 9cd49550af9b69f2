/**
  The lease protocol: one manager, many clients, a network that delays, reorders and duplicates
  (manager/lease/lease_table.cpp, client/lease/lease_table_client.cpp, client/lease/lease_client.cpp).
  Time is one global clock that never runs back. Each step below is one critical section or one
  reading of the clock; anything may happen between two steps.
 */
module LeaseProtocol {
  import opened Types

  /** A client, known by its address. */
  type Addr = string

  /** LEASE_PERIOD_MS in nanoseconds, the tick of the system clock. */
  const LEASE_PERIOD: nat := 200000000 * 1000000

  /** A manager entry: who holds the lease, and until when. */
  datatype Entry = Entry(due: nat, addr: Addr)

  /** The entry of a lease given to `c` at `now`. */
  function NewLease(c: Addr, now: nat): Entry { Entry(now + LEASE_PERIOD, c) }

  /** What acquire answers: whether it returned 0, and the due time. */
  datatype Answer = Answer(granted: bool, due: nat)

  /** The answer read off an entry that is left as it stands. */
  function Held(e: Entry, c: Addr): Answer { Answer(e.addr == c, e.due) }

  /** A client's record of a lease. */
  datatype LeaseRecord = LeaseRecord(due: nat, leader: bool)
  type Leases = map<Ino, LeaseRecord>

  /** lease_table_client::update: only a larger due time replaces what is known. */
  function Updated(m: Leases, ino: Ino, due: nat, mine: bool): Leases {
    if ino in m && due <= m[ino].due then m else m[ino := LeaseRecord(due, mine)]
  }

  predicate IsValid(m: Leases, ino: Ino, now: nat) { ino in m && now < m[ino].due }
  predicate IsMine(m: Leases, ino: Ino, now: nat) { ino in m && m[ino].leader && now < m[ino].due }

  datatype Request = Request(id: nat, client: Addr, ino: Ino)
  datatype Response = Response(request: Request, answer: Answer)

  /** A manager thread in lease_table::acquire: after its first lookup, or inside cas, holding the entry's lock. */
  datatype Handler = Found(request: Request) | NotFound(request: Request) | Renewing(request: Request)

  /** is_mine took this record from the table and has yet to read the clock. */
  datatype Glance = Glance(client: Addr, ino: Ino, seen: LeaseRecord)

  /** A lease that was given out; observed, never read by a step. */
  datatype Grant = Grant(at: nat, due: nat, holder: Addr)

  datatype State = State(
    now: nat, entries: map<Ino, Entry>, nextId: nat, requests: set<Request>, handlers: map<nat, Handler>,
    responses: set<Response>, leases: map<Addr, Leases>, glances: set<Glance>, grants: map<Ino, seq<Grant>>)

  predicate Init(s: State) {
    && s.entries == map[] && s.nextId == 0 && s.requests == {} && s.handlers == map[]
    && s.responses == {} && s.leases == map[] && s.glances == {} && s.grants == map[]
  }

  function LeasesOf(m: map<Addr, Leases>, c: Addr): Leases { if c in m then m[c] else map[] }
  function GrantsOf(m: map<Ino, seq<Grant>>, ino: Ino): seq<Grant> { if ino in m then m[ino] else [] }

  datatype Event =
    | Tick(ticks: nat)
    | Send(client: Addr, ino: Ino)
    | Lookup(h: nat, request: Request)
    | Serve(h: nat)
    | Renew(h: nat)
    | Deliver(response: Response)
    | Look(client: Addr, ino: Ino)

  /** Some thread is inside cas for `ino` and holds that entry's lock. */
  predicate Locked(handlers: map<nat, Handler>, ino: Ino) {
    exists h :: h in handlers && handlers[h].Renewing? && handlers[h].request.ino == ino
  }

  predicate Enabled(s: State, e: Event) {
    match e
    case Tick(_) => true
    case Send(c, ino) => !IsMine(LeasesOf(s.leases, c), ino, s.now)
    case Lookup(h, rq) => h !in s.handlers && rq in s.requests
    case Serve(h) =>
      && h in s.handlers && !s.handlers[h].Renewing?
      && !Locked(s.handlers, s.handlers[h].request.ino)
      && (s.handlers[h].Found? ==> s.handlers[h].request.ino in s.entries)
    case Renew(h) => h in s.handlers && s.handlers[h].Renewing?
    case Deliver(r) => r in s.responses
    case Look(c, ino) => ino in LeasesOf(s.leases, c)
  }

  /** The thread answers from the entry as it stands. */
  function Reply(s: State, h: nat): State
    requires h in s.handlers && s.handlers[h].request.ino in s.entries
  {
    var rq := s.handlers[h].request;
    s.(handlers := s.handlers - {h}, responses := s.responses + {Response(rq, Held(s.entries[rq.ino], rq.client))})
  }

  /** The thread gives the lease to its client for a period from now. */
  function Give(s: State, h: nat): State
    requires h in s.handlers
  {
    var rq, due := s.handlers[h].request, s.now + LEASE_PERIOD;
    s.(entries := s.entries[rq.ino := NewLease(rq.client, s.now)],
       handlers := s.handlers - {h},
       responses := s.responses + {Response(rq, Answer(true, due))},
       grants := s.grants[rq.ino := GrantsOf(s.grants, rq.ino) + [Grant(s.now, due, rq.client)]])
  }

  /**
    The second half of lease_table::acquire. The entry found earlier is compared with the clock; without
    one, an entry is inserted, or the one another thread inserted meanwhile is reported, due or not.
   */
  function DoServe(s: State, h: nat): State
    requires Enabled(s, Serve(h))
  {
    var rq := s.handlers[h].request;
    if s.handlers[h].NotFound? && rq.ino !in s.entries then Give(s, h)
    else if s.handlers[h].Found? && s.now >= s.entries[rq.ino].due then s.(handlers := s.handlers[h := Renewing(rq)])
    else Reply(s, h)
  }

  function Do(s: State, e: Event): State
    requires Enabled(s, e)
  {
    match e
    case Tick(ticks) => s.(now := s.now + ticks)
    case Send(c, ino) => s.(requests := s.requests + {Request(s.nextId, c, ino)}, nextId := s.nextId + 1)
    case Lookup(h, rq) => s.(handlers := s.handlers[h := if rq.ino in s.entries then Found(rq) else NotFound(rq)])
    case Serve(h) => DoServe(s, h)
    case Renew(h) => Give(s, h)
    case Deliver(r) =>
      var c := r.request.client;
      s.(leases := s.leases[c := Updated(LeasesOf(s.leases, c), r.request.ino, r.answer.due, r.answer.granted)])
    case Look(c, ino) => s.(glances := s.glances + {Glance(c, ino, LeasesOf(s.leases, c)[ino])})
  }

  predicate Reaches(s0: State, events: seq<Event>, s: State)
    decreases |events|
  {
    if events == [] then s == s0
    else Enabled(s0, events[0]) && Reaches(Do(s0, events[0]), events[1..], s)
  }

  // ---- What every step keeps ----

  /** Each grant is made once the one before it is due, so due times strictly increase. */
  ghost predicate Chained(gs: seq<Grant>, now: nat) {
    && (forall i :: 0 <= i < |gs| ==> gs[i].due == gs[i].at + LEASE_PERIOD && gs[i].at <= now)
    && (forall i, j :: 0 <= i < j < |gs| ==> gs[i].due <= gs[j].at)
  }

  /** The entry is the last grant. */
  ghost predicate EntryOk(entries: map<Ino, Entry>, gs: seq<Grant>, ino: Ino, now: nat) {
    && (ino in entries <==> gs != [])
    && (ino in entries ==> entries[ino] == Entry(gs[|gs| - 1].due, gs[|gs| - 1].holder))
    && Chained(gs, now)
  }

  ghost predicate EntriesOk(entries: map<Ino, Entry>, grants: map<Ino, seq<Grant>>, now: nat) {
    forall ino :: EntryOk(entries, GrantsOf(grants, ino), ino, now)
  }

  /** `due` belongs to a grant, and that grant is `c`'s exactly when `mine` says so. */
  ghost predicate Backed(gs: seq<Grant>, c: Addr, due: nat, mine: bool) {
    exists i :: 0 <= i < |gs| && gs[i].due == due && (mine <==> gs[i].holder == c)
  }

  ghost predicate Claims(
    responses: set<Response>, leases: map<Addr, Leases>, glances: set<Glance>, grants: map<Ino, seq<Grant>>)
  {
    && (forall r :: r in responses ==>
          Backed(GrantsOf(grants, r.request.ino), r.request.client, r.answer.due, r.answer.granted))
    && (forall c, ino :: c in leases && ino in leases[c] ==>
          Backed(GrantsOf(grants, ino), c, leases[c][ino].due, leases[c][ino].leader))
    && (forall g :: g in glances ==> Backed(GrantsOf(grants, g.ino), g.client, g.seen.due, g.seen.leader))
  }

  /** A thread inside cas saw the lease due, is alone with it, and entries are never removed. */
  ghost predicate HandlersOk(handlers: map<nat, Handler>, entries: map<Ino, Entry>, now: nat) {
    && (forall h :: h in handlers && !handlers[h].NotFound? ==> handlers[h].request.ino in entries)
    && (forall h :: h in handlers && handlers[h].Renewing? ==> entries[handlers[h].request.ino].due <= now)
    && (forall h, k | h in handlers && k in handlers && handlers[h].Renewing? && handlers[k].Renewing? ::
          handlers[h].request.ino == handlers[k].request.ino ==> h == k)
  }

  ghost predicate Inv(s: State) {
    && EntriesOk(s.entries, s.grants, s.now)
    && Claims(s.responses, s.leases, s.glances, s.grants)
    && HandlersOk(s.handlers, s.entries, s.now)
  }

  lemma BackedLonger(gs: seq<Grant>, g: Grant, c: Addr, due: nat, mine: bool)
    requires Backed(gs, c, due, mine)
    ensures Backed(gs + [g], c, due, mine)
  {
    var i :| 0 <= i < |gs| && gs[i].due == due && (mine <==> gs[i].holder == c);
    assert (gs + [g])[i] == gs[i];
  }

  /** One more grant leaves every earlier claim backed. */
  lemma ClaimsLonger(s: State, ino: Ino, g: Grant)
    requires Claims(s.responses, s.leases, s.glances, s.grants)
    ensures Claims(s.responses, s.leases, s.glances, s.grants[ino := GrantsOf(s.grants, ino) + [g]])
  {
    var gs, grants := GrantsOf(s.grants, ino), s.grants[ino := GrantsOf(s.grants, ino) + [g]];
    forall c, due, mine | Backed(gs, c, due, mine) ensures Backed(GrantsOf(grants, ino), c, due, mine) {
      BackedLonger(gs, g, c, due, mine);
    }
    forall ino2 | ino2 != ino ensures GrantsOf(grants, ino2) == GrantsOf(s.grants, ino2) {}
  }

  lemma ChainedLonger(gs: seq<Grant>, now: nat, g: Grant)
    requires Chained(gs, now) && g.at == now && g.due == now + LEASE_PERIOD
    requires gs != [] ==> gs[|gs| - 1].due <= now
    ensures Chained(gs + [g], now)
  {
    forall k | 0 <= k < |gs| ensures gs[k].due <= now {
      if k < |gs| - 1 { assert gs[k].due <= gs[|gs| - 1].at; }
    }
  }

  /** The old lease, if any, is due, so the new grant extends the chain. */
  lemma EntriesGiven(s: State, ino: Ino, g: Grant)
    requires EntriesOk(s.entries, s.grants, s.now) && g.at == s.now && g.due == s.now + LEASE_PERIOD
    requires ino in s.entries ==> s.entries[ino].due <= s.now
    ensures EntriesOk(s.entries[ino := Entry(g.due, g.holder)], s.grants[ino := GrantsOf(s.grants, ino) + [g]], s.now)
  {
    var entries, grants := s.entries[ino := Entry(g.due, g.holder)], s.grants[ino := GrantsOf(s.grants, ino) + [g]];
    forall i ensures EntryOk(entries, GrantsOf(grants, i), i, s.now) {
      assert EntryOk(s.entries, GrantsOf(s.grants, i), i, s.now);
      if i == ino { ChainedLonger(GrantsOf(s.grants, ino), s.now, g); }
    }
  }

  lemma GiveKeeps(s: State, h: nat)
    requires Inv(s) && h in s.handlers
    requires var ino := s.handlers[h].request.ino;
      && (ino in s.entries ==> s.entries[ino].due <= s.now)
      && (forall k :: k in s.handlers && k != h && s.handlers[k].Renewing? ==> s.handlers[k].request.ino != ino)
    ensures Inv(Give(s, h))
  {
    var rq, s' := s.handlers[h].request, Give(s, h);
    var g := Grant(s.now, s.now + LEASE_PERIOD, rq.client);
    var grants, answer := s.grants[rq.ino := GrantsOf(s.grants, rq.ino) + [g]], Response(rq, Answer(true, g.due));
    assert s'.grants == grants && s'.responses == s.responses + {answer};
    assert s'.entries == s.entries[rq.ino := Entry(g.due, g.holder)];
    EntriesGiven(s, rq.ino, g);
    ClaimsGiven(s, rq.ino, g, answer, grants);
    HandlersGiven(s.handlers, s.entries, s.now, h, Entry(g.due, g.holder));
  }

  lemma ClaimsGiven(s: State, ino: Ino, g: Grant, r: Response, grants: map<Ino, seq<Grant>>)
    requires Claims(s.responses, s.leases, s.glances, s.grants)
    requires grants == s.grants[ino := GrantsOf(s.grants, ino) + [g]] && r.request.ino == ino
    requires r.answer == Answer(true, g.due) && g.holder == r.request.client
    ensures Claims(s.responses + {r}, s.leases, s.glances, grants)
  {
    ClaimsLonger(s, ino, g);
    LastGrant(s.grants, ino, g);
    NewAnswer(s.responses, s.leases, s.glances, grants, r, |GrantsOf(s.grants, ino)|);
  }

  lemma LastGrant(grants: map<Ino, seq<Grant>>, ino: Ino, g: Grant)
    ensures var gs := GrantsOf(grants[ino := GrantsOf(grants, ino) + [g]], ino);
      |gs| == |GrantsOf(grants, ino)| + 1 && gs[|gs| - 1] == g
  {
  }

  /** An answer read off a grant is backed by it. */
  lemma NewAnswer(
      responses: set<Response>, leases: map<Addr, Leases>, glances: set<Glance>, grants: map<Ino, seq<Grant>>,
      r: Response, i: nat)
    requires Claims(responses, leases, glances, grants)
    requires var gs := GrantsOf(grants, r.request.ino);
      i < |gs| && gs[i].due == r.answer.due && (r.answer.granted <==> gs[i].holder == r.request.client)
    ensures Claims(responses + {r}, leases, glances, grants)
  {
  }

  lemma HandlersGiven(handlers: map<nat, Handler>, entries: map<Ino, Entry>, now: nat, h: nat, e: Entry)
    requires HandlersOk(handlers, entries, now) && h in handlers
    requires forall k :: k in handlers && k != h && handlers[k].Renewing? ==>
      handlers[k].request.ino != handlers[h].request.ino
    ensures HandlersOk(handlers - {h}, entries[handlers[h].request.ino := e], now)
  {
  }

  lemma ReplyKeeps(s: State, h: nat)
    requires Inv(s) && h in s.handlers && s.handlers[h].request.ino in s.entries
    ensures Inv(Reply(s, h))
  {
    var rq := s.handlers[h].request;
    var gs := GrantsOf(s.grants, rq.ino);
    assert EntryOk(s.entries, gs, rq.ino, s.now);
    NewAnswer(s.responses, s.leases, s.glances, s.grants, Response(rq, Held(s.entries[rq.ino], rq.client)), |gs| - 1);
  }

  lemma TickKeeps(s: State, ticks: nat)
    requires Inv(s)
    ensures Inv(s.(now := s.now + ticks))
  {
    forall ino ensures EntryOk(s.entries, GrantsOf(s.grants, ino), ino, s.now + ticks) {
      assert EntryOk(s.entries, GrantsOf(s.grants, ino), ino, s.now);
    }
  }

  lemma ServeKeeps(s: State, h: nat)
    requires Inv(s) && Enabled(s, Serve(h))
    ensures Inv(DoServe(s, h))
  {
    var rq := s.handlers[h].request;
    if s.handlers[h].NotFound? && rq.ino !in s.entries {
      GiveKeeps(s, h);
    } else if !(s.handlers[h].Found? && s.now >= s.entries[rq.ino].due) {
      ReplyKeeps(s, h);
    }
  }

  lemma LookupKeeps(s: State, h: nat, rq: Request)
    requires Inv(s) && Enabled(s, Lookup(h, rq))
    ensures Inv(Do(s, Lookup(h, rq)))
  {
  }

  lemma DeliverKeeps(s: State, r: Response)
    requires Inv(s) && Enabled(s, Deliver(r))
    ensures Inv(Do(s, Deliver(r)))
  {
  }

  lemma LookKeeps(s: State, c: Addr, ino: Ino)
    requires Inv(s) && Enabled(s, Look(c, ino))
    ensures Inv(Do(s, Look(c, ino)))
  {
  }

  lemma StepKeeps(s: State, e: Event)
    requires Inv(s) && Enabled(s, e)
    ensures Inv(Do(s, e))
  {
    match e {
      case Tick(ticks) => TickKeeps(s, ticks);
      case Send(_, _) =>
      case Lookup(h, rq) => LookupKeeps(s, h, rq);
      case Serve(h) => ServeKeeps(s, h);
      case Renew(h) => GiveKeeps(s, h);
      case Deliver(r) => DeliverKeeps(s, r);
      case Look(c, ino) => LookKeeps(s, c, ino);
    }
  }

  lemma InitInv(s: State)
    requires Init(s)
    ensures Inv(s)
  {
  }

  lemma {:induction false} RunKeeps(s0: State, events: seq<Event>, s: State)
    requires Inv(s0) && Reaches(s0, events, s)
    ensures Inv(s)
    decreases |events|
  {
    if events != [] {
      StepKeeps(s0, events[0]);
      RunKeeps(Do(s0, events[0]), events[1..], s);
    }
  }

  // ---- Theorems ----

  /** Due times strictly increase, so a due time identifies its grant and with it its holder. */
  lemma DueIdentifiesHolder(gs: seq<Grant>, now: nat, i: nat, j: nat)
    requires Chained(gs, now) && i < |gs| && j < |gs|
    ensures i < j <==> gs[i].due < gs[j].due
    ensures i == j <==> gs[i].due == gs[j].due
  {
    if j < i { assert gs[j].due <= gs[i].at; }
    if i < j { assert gs[i].due <= gs[j].at; }
  }

  /** Of two claims backed by the same grants and both still running, at most one client's is a claim to lead. */
  lemma OneRunningClaim(gs: seq<Grant>, now: nat, c1: Addr, due1: nat, c2: Addr, due2: nat)
    requires Chained(gs, now) && Backed(gs, c1, due1, true) && Backed(gs, c2, due2, true)
    requires now < due1 && now < due2
    ensures c1 == c2
  {
    var i :| 0 <= i < |gs| && gs[i].due == due1 && gs[i].holder == c1;
    var j :| 0 <= j < |gs| && gs[j].due == due2 && gs[j].holder == c2;
    assert i == j;
  }

  /** Lease mutual exclusion over whole runs: at no instant do the records of two clients both say that they lead. */
  lemma MutualExclusion(s0: State, events: seq<Event>, s: State, c1: Addr, c2: Addr, ino: Ino)
    requires Init(s0) && Reaches(s0, events, s)
    requires var m := LeasesOf(s.leases, c1); ino in m && m[ino].leader && s.now < m[ino].due
    requires var m := LeasesOf(s.leases, c2); ino in m && m[ino].leader && s.now < m[ino].due
    ensures c1 == c2
  {
    InitInv(s0);
    RunKeeps(s0, events, s);
    assert EntryOk(s.entries, GrantsOf(s.grants, ino), ino, s.now);
    OneRunningClaim(GrantsOf(s.grants, ino), s.now, c1, s.leases[c1][ino].due, c2, s.leases[c2][ino].due);
  }

  /**
    The same for is_mine as it runs, a record read first and the clock later: two calls that read the clock
    at one instant and both return true were made by one client, however old the records they took.
   */
  lemma NoTwoCallsBothMine(s0: State, events: seq<Event>, s: State, g1: Glance, g2: Glance)
    requires Init(s0) && Reaches(s0, events, s)
    requires g1 in s.glances && g2 in s.glances && g1.ino == g2.ino
    requires g1.seen.leader && s.now < g1.seen.due && g2.seen.leader && s.now < g2.seen.due
    ensures g1.client == g2.client
  {
    InitInv(s0);
    RunKeeps(s0, events, s);
    assert EntryOk(s.entries, GrantsOf(s.grants, g1.ino), g1.ino, s.now);
    OneRunningClaim(GrantsOf(s.grants, g1.ino), s.now, g1.client, g1.seen.due, g2.client, g2.seen.due);
  }

  /** And for the answers themselves, delivered or still under way, once or many times. */
  lemma NoTwoRunningGrants(s0: State, events: seq<Event>, s: State, r1: Response, r2: Response)
    requires Init(s0) && Reaches(s0, events, s)
    requires r1 in s.responses && r2 in s.responses && r1.request.ino == r2.request.ino
    requires r1.answer.granted && r2.answer.granted && s.now < r1.answer.due && s.now < r2.answer.due
    ensures r1.request.client == r2.request.client
  {
    InitInv(s0);
    RunKeeps(s0, events, s);
    var ino := r1.request.ino;
    assert EntryOk(s.entries, GrantsOf(s.grants, ino), ino, s.now);
    OneRunningClaim(GrantsOf(s.grants, ino), s.now, r1.request.client, r1.answer.due, r2.request.client, r2.answer.due);
  }

  // ---- Uninterrupted calls ----

  /** Carrying out `e` and then `es`. */
  lemma ReachesThen(s: State, e: Event, s1: State, es: seq<Event>, s2: State)
    requires Enabled(s, e) && s1 == Do(s, e) && Reaches(s1, es, s2)
    ensures Reaches(s, [e] + es, s2)
  {
    assert ([e] + es)[1..] == es;
  }

  /** Entry of `ino` after a call of `c` at one instant: a lease still running stays, any other passes to `c`. */
  function Settled(entries: map<Ino, Entry>, ino: Ino, c: Addr, now: nat): Entry {
    if ino in entries && now < entries[ino].due then entries[ino] else Entry(now + LEASE_PERIOD, c)
  }

  /** The manager after it served request `rq` in one go. */
  ghost predicate Served(s: State, rq: Request, s': State) {
    var e := Settled(s.entries, rq.ino, rq.client, s.now);
    && s'.now == s.now && s'.nextId == s.nextId && s'.requests == s.requests && s'.handlers == s.handlers
    && s'.leases == s.leases && s'.glances == s.glances
    && s'.entries == s.entries[rq.ino := e]
    && s'.responses == s.responses + {Response(rq, Answer(e.addr == rq.client, e.due))}
  }

  lemma HandlerDone(handlers: map<nat, Handler>, h: nat, a: Handler, b: Handler)
    requires h !in handlers
    ensures handlers[h := a] - {h} == handlers && handlers[h := a][h := b] == handlers[h := b]
  {
  }

  lemma LookedUp(s: State, h: nat, rq: Request, a: Handler)
    requires h !in s.handlers && rq in s.requests && !Locked(s.handlers, rq.ino)
    requires a == if rq.ino in s.entries then Found(rq) else NotFound(rq)
    ensures Enabled(s, Lookup(h, rq)) && Do(s, Lookup(h, rq)) == s.(handlers := s.handlers[h := a])
    ensures Enabled(s.(handlers := s.handlers[h := a]), Serve(h))
  {
  }

  /**
    acquire served by one thread while nobody is inside cas for the directory: whatever the other threads and
    the network are doing, the lease passes to the caller exactly when it is free or due, otherwise it is
    reported as it stands, and the answer sent says which.
   */
  lemma AcquireAlone(s: State, h: nat, rq: Request) returns (events: seq<Event>, s': State)
    requires h !in s.handlers && rq in s.requests && !Locked(s.handlers, rq.ino)
    ensures Reaches(s, events, s') && Served(s, rq, s')
    ensures forall e :: e in events ==> !e.Send? && !e.Deliver?
  {
    var a := if rq.ino in s.entries then Found(rq) else NotFound(rq);
    var s1 := s.(handlers := s.handlers[h := a]);
    LookedUp(s, h, rq, a);
    HandlerDone(s.handlers, h, a, Renewing(rq));
    var s2 := DoServe(s1, h);
    if a.Found? && s.entries[rq.ino].due <= s.now {
      assert s2 == s.(handlers := s.handlers[h := Renewing(rq)]);
      HandlerDone(s.handlers, h, Renewing(rq), a);
      s' := Give(s2, h);
      assert Reaches(s', [], s');
      ReachesThen(s2, Renew(h), s', [], s');
      ReachesThen(s1, Serve(h), s2, [Renew(h)] + [], s');
      events := [Lookup(h, rq)] + ([Serve(h)] + ([Renew(h)] + []));
    } else {
      s' := s2;
      assert Reaches(s', [], s');
      ReachesThen(s1, Serve(h), s', [], s');
      events := [Lookup(h, rq)] + ([Serve(h)] + []);
    }
    ReachesThen(s, Lookup(h, rq), s1, events[1..], s');
  }

  /** An answer that arrives: a larger due time replaces the client's record, and nothing else changes anywhere. */
  lemma AnswerRecorded(s: State, r: Response)
    requires r in s.responses
    ensures Enabled(s, Deliver(r))
    ensures var c, ino, s' := r.request.client, r.request.ino, Do(s, Deliver(r));
      var was := LeasesOf(s.leases, c);
      && s' == s.(leases := s'.leases) && (forall d :: d != c ==> LeasesOf(s'.leases, d) == LeasesOf(s.leases, d))
      && LeasesOf(s'.leases, c) == if ino in was && r.answer.due <= was[ino].due then was
                                   else was[ino := LeaseRecord(r.answer.due, r.answer.granted)]
  {
  }
}
