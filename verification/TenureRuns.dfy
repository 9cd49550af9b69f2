/** The table changes of a file system operation are a run of its client's tenures. */
module TenureRuns {
  import opened Types
  import opened Transactions
  import P = Pipeline
  import Proof = PipelineProof
  import opened EntryMarks
  import opened Tenure
  import opened LocalOps

  // ---- Putting runs together ----

  lemma Then(s: State, e: Event, s1: State, es: seq<Event>, s2: State)
    requires Enabled(s, e) && s1 == Do(s, e) && (e.Local? ==> Sensible(e.op, s.tables[e.d].inodes))
    requires Reaches(s1, es, s2) && AllSensible(s1, es)
    ensures Reaches(s, [e] + es, s2) && AllSensible(s, [e] + es)
  {
    assert ([e] + es)[1..] == es;
  }

  lemma {:induction false} Joined(s: State, es: seq<Event>, s1: State, fs: seq<Event>, s2: State)
    requires Reaches(s, es, s1) && AllSensible(s, es) && Reaches(s1, fs, s2) && AllSensible(s1, fs)
    ensures Reaches(s, es + fs, s2) && AllSensible(s, es + fs)
    decreases |es|
  {
    if es == [] {
      assert es + fs == fs;
    } else {
      Joined(Do(s, es[0]), es[1..], s1, fs, s2);
      assert (es + fs)[1..] == es[1..] + fs;
    }
  }

  /** Steps of the journal that begin no call are steps of the client. */
  lemma Step(s: State, e: P.Event, p': P.State) returns (es: seq<Event>)
    requires !e.Begin? && P.Enabled(s.p, e) && p' == P.Do(s.p, e)
    ensures Reaches(s, es, s.(p := p')) && AllSensible(s, es)
  {
    es := [Other(e)] + [];
    Then(s, Other(e), s.(p := p'), [], s.(p := p'));
  }

  // ---- One journal call, start to end ----

  /** Thread `th` is about to merge its call into the open transaction of `d`. */
  ghost predicate Holds(p: P.State, th: nat, c: P.Call) {
    && th in p.threads && c.dir in p.table && p.table[c.dir] < |p.txs|
    && p.threads[th] == P.Holding(c, p.table[c.dir])
  }

  /** Nothing but thread `th` and the open transactions differ. */
  ghost predicate OnlyFetched(p: P.State, p': P.State, th: nat) {
    p'.threads - {th} == p.threads - {th} && p'.base == p.base && p'.seen == p.seen
  }

  /** get_entry finds the open transaction of the directory, or inserts one. */
  lemma Found(p: P.State, th: nat, c: P.Call)
    requires Proof.TableOk(p.txs, p.table) && th in p.threads && p.threads[th] == P.Looking(c)
    ensures P.CanFind(p, th) && OnlyFetched(p, P.DoFind(p, th), th)
    ensures c.dir in p.table ==> Holds(P.DoFind(p, th), th, c)
    ensures c.dir !in p.table ==> P.DoFind(p, th).threads[th] == P.Missed(c) && c.dir !in P.DoFind(p, th).table
  {
  }

  lemma Inserted(p: P.State, th: nat, c: P.Call)
    requires th in p.threads && p.threads[th] == P.Missed(c) && c.dir !in p.table
    ensures P.CanInsert(p, th) && OnlyFetched(p, P.DoInsert(p, th), th) && Holds(P.DoInsert(p, th), th, c)
  {
  }

  /** get_entry with nothing in between. */
  lemma Fetch(s: State, th: nat, c: P.Call) returns (es: seq<Event>, s': State)
    requires Proof.TableOk(s.p.txs, s.p.table) && th in s.p.threads && s.p.threads[th] == P.Looking(c)
    ensures Reaches(s, es, s') && AllSensible(s, es) && s'.tables == s.tables
    ensures Holds(s'.p, th, c) && OnlyFetched(s.p, s'.p, th)
  {
    var p1 := P.DoFind(s.p, th);
    Found(s.p, th, c);
    es := Step(s, P.Find(th), p1);
    s' := s.(p := p1);
    if c.dir !in s.p.table {
      Inserted(p1, th, c);
      var fs := Step(s', P.Insert(th), P.DoInsert(p1, th));
      Joined(s, es, s', fs, s.(p := P.DoInsert(p1, th)));
      es, s' := es + fs, s.(p := P.DoInsert(p1, th));
    }
  }

  /** The call of thread `th` merges, and the journal has caught up. */
  lemma Merge(s: State, th: nat, c: P.Call) returns (es: seq<Event>, s': State)
    requires Inv(s) && Kept(s.p, c.dir) && Holds(s.p, th, c)
    requires c.op.Structural() && Sensible(c.op, Kids(Known(s.p, c.dir)))
    ensures Reaches(s, es, s') && AllSensible(s, es) && s'.tables == s.tables
    ensures P.History(s'.p, c.dir) == P.History(s.p, c.dir) + [c.op]
    ensures s'.p.threads == s.p.threads - {th} && s'.p.base == s.p.base
  {
    assert MarksOk(s.p, c.dir);
    SensibleMerges(s.p, th);
    var m := Merged(s.p.txs[s.p.threads[th].tx], c.op);
    var p' := P.Landed(s.p, th, m);
    assert p' == P.DoApply(s.p, th);
    NotRefused(s.p, th, c, m);
    es := Step(s, P.Apply(th), p');
    s' := s.(p := p');
  }

  lemma NotRefused(p: P.State, th: nat, c: P.Call, m: Transactions.Merge)
    requires Proof.TableOk(p.txs, p.table) && Holds(p, th, c) && c.op.Structural()
    requires m == Merged(p.txs[p.threads[th].tx], c.op) && m.outcome != EntryError
    ensures var p' := P.Landed(p, th, m);
      && P.History(p', c.dir) == P.History(p, c.dir) + [c.op]
      && p'.threads == p.threads - {th} && p'.base == p.base
  {
    assert m.outcome.Effective();
  }

  /** A client about to work on a led directory: nothing else is under way on it. */
  ghost predicate Ready(s: State, th: nat, d: Ino) {
    Inv(s) && d in s.tables && P.MutexFree(s.p, d) && th !in s.p.threads && Kept(s.p, d)
  }

  /** The table change, with its call under way. */
  lemma Begun(s: State, th: nat, d: Ino, op: Op) returns (c: P.Call, s': State)
    requires Ready(s, th, d) && TableOp(op) && Sensible(op, s.tables[d].inodes)
    ensures Enabled(s, Local(th, d, op)) && s' == Do(s, Local(th, d, op)) && Inv(s')
    ensures c.dir == d && c.op == op && s'.p.threads == s.p.threads[th := P.Looking(c)] && s'.p.base == s.p.base
    ensures s'.p.seen.history == s.p.seen.history && Sensible(op, Kids(Known(s.p, d))) && Known(s.p, d).Present?
  {
    s' := Do(s, Local(th, d, op));
    StepKeeps(s, Local(th, d, op));
    c := P.Call(|s.p.seen.calls|, d, op);
    assert TableOk(s, d);
    assert forall t :: !Proof.StructuralOn(s.p.threads, t, d);
  }

  /** One table change and its journal call, run to its end with nothing in between. */
  lemma OneOp(s: State, th: nat, d: Ino, op: Op) returns (events: seq<Event>, s': State)
    requires Ready(s, th, d) && TableOp(op) && Sensible(op, s.tables[d].inodes)
    ensures Reaches(s, events, s') && AllSensible(s, events) && Ready(s', th, d)
    ensures s'.tables == s.tables[d := Changed(s.tables[d], op)]
    ensures P.History(s'.p, d) == P.History(s.p, d) + [op]
  {
    var c, s1 := Begun(s, th, d, op);
    var es, s2 := Fetch(s1, th, c);
    RunKeeps(s1, es, s2);
    assert Kept(s2.p, d) && Known(s2.p, d) == Known(s.p, d);
    var fs;
    fs, s' := Merge(s2, th, c);
    Joined(s1, es, s2, fs, s');
    RunKeeps(s1, es + fs, s');
    Then(s, Local(th, d, op), s1, es + fs, s');
    events := [Local(th, d, op)] + (es + fs);
    Gone(s.p.threads, s1.p.threads, s2.p.threads, s'.p.threads, th, P.Looking(c));
    OneMoreLegal(P.Based(s.p, d), P.History(s.p, d), op);
  }

  lemma Gone(m: map<nat, P.Pc>, m1: map<nat, P.Pc>, m2: map<nat, P.Pc>, m3: map<nat, P.Pc>, th: nat, pc: P.Pc)
    requires th !in m && m1 == m[th := pc] && m2 - {th} == m1 - {th} && m3 == m2 - {th}
    ensures m3 == m
  {
    assert m1 - {th} == m;
  }

  lemma Overwritten(m: map<Ino, Table>, d: Ino, t: Table, t': Table)
    ensures m[d := t][d := t'] == m[d := t'] && (d in m && m[d] == t' ==> m[d := t'] == m)
  {
  }

  lemma OneByOne(h: seq<Op>, ops: seq<Op>)
    requires ops != []
    ensures (h + [ops[0]]) + ops[1..] == h + ops
  {
  }

  lemma OneMoreLegal(b: Dir, h: seq<Op>, op: Op)
    requires LegalRun(b, h) && Legal(op, Fold(b, h))
    ensures LegalRun(b, h + [op])
  {
    assert (h + [op])[..|h|] == h;
  }

  /**
    Whatever steps an operation takes on a table, there is a run of the client that takes them: each creates
    an absent name or deletes a present one, the table ends as the operation leaves it, and the journal's
    history is longer by exactly the operation's calls. So what holds in all runs holds for the operations.
   */
  lemma {:induction false} StepsAreRuns(s: State, th: nat, d: Ino, ops: seq<Op>, t': Table)
      returns (events: seq<Event>, s': State)
    requires Ready(s, th, d) && Steps(s.tables[d], ops, t')
    ensures Reaches(s, events, s') && AllSensible(s, events) && Ready(s', th, d)
    ensures s'.tables == s.tables[d := t'] && P.History(s'.p, d) == P.History(s.p, d) + ops
    decreases |ops|
  {
    if ops == [] {
      events, s' := [], s;
      Overwritten(s.tables, d, t', t');
    } else {
      var es, s1 := OneOp(s, th, d, ops[0]);
      var fs;
      fs, s' := StepsAreRuns(s1, th, d, ops[1..], t');
      Joined(s, es, s1, fs, s');
      events := es + fs;
      OneByOne(P.History(s.p, d), ops);
      Overwritten(s.tables, d, s1.tables[d], t');
    }
  }
}
