/** What a turn of the pool's support task gets done, over every run. */
module ConnectionPoolProgress {
  import opened Basics
  import opened ConnectionPool
  import opened ConnectionPoolProofs
  import opened ConnectionPoolRuns

  lemma {:induction false} ClearedIsStopped(limit: nat, es: seq<Event>)
    ensures var s := Exec(Init(limit), es); s.queues.cleared ==> s.stopped
  {
    if es != [] {
      ClearedIsStopped(limit, es[..|es| - 1]);
      ClearedStep(Exec(Init(limit), es[..|es| - 1]), es[|es| - 1]);
    }
  }

  lemma ClearedStep(s: State, e: Event)
    ensures Apply(s, e).queues.cleared ==> s.queues.cleared || e.DropPool?
    ensures s.stopped || e.DropPool? ==> Apply(s, e).stopped
  {
    match e
    case Support(order, usable) =>
      if Enabled(s, e) && !(s.task.Parked? && (s.stopSignal || s.stopped)) {
        ServeKeysClear(s.conns, s.queues, order, usable);
      }
    case _ =>
  }

  lemma {:induction false} ServeKeyClears(c: Conns, q: Queues, k: Key, usable: ConnId -> bool)
    requires k in q.waiters
    ensures ServeKey(c, q, k, usable).1.cleared == q.cleared
    decreases |q.waiters[k]|
  {
    var line := q.waiters[k];
    if line != [] {
      if line[0] in q.canceled {
        ServeKeyClears(c, PopFront(q, k), k, usable);
      } else {
        var (o, c1) := AcquireFor(c, k, usable, line[0]);
        if !o.NotAvailable? {
          ServeKeyClears(c1, ServeFront(q, k), k, usable);
        }
      }
    }
  }

  lemma {:induction false} ServeKeysClear(c: Conns, q: Queues, order: seq<Key>, usable: ConnId -> bool)
    requires forall k :: k in order ==> k in q.waiters
    ensures ServeKeys(c, q, order, usable).1.cleared == q.cleared
    decreases |order|
  {
    if order != [] {
      ServeKeyClears(c, q, order[0], usable);
      var (c1, q1) := ServeKey(c, q, order[0], usable);
      ServeKeysClear(c1, q1, order[1..], usable);
    }
  }

  /**
    Progress: whenever the support task of a pool with a limit runs, every live waiter is then served, or a dial is
    open for its key, or the limit is reached.
  */
  lemma SupportMakesProgress(limit: nat, es: seq<Event>, order: seq<Key>, usable: ConnId -> bool, k: Key, w: WaiterId)
    requires limit > 0
    requires var s := Exec(Init(limit), es);
      Enabled(s, Support(order, usable)) && !s.stopped && !s.stopSignal && Live(s.queues, k, w)
    ensures var t := Exec(Init(limit), es + [Support(order, usable)]);
      || w in Lookup(t.queues.served, k)
      || (exists d :: d in t.conns.dials && d.key == k)
      || |t.conns.held| >= limit
  {
    ExecKeeps(limit, es);
    ClearedIsStopped(limit, es);
    ExecStep(Init(limit), es, Support(order, usable));
    var s := Exec(Init(limit), es);
    SupportSettles(s, order, usable);
    var t := SupportPass(s, order, usable);
    assert LineOk(Line(s.queues, k), k, s.queues.arrived);
    assert w in Line(s.queues, k);
    if w !in Lookup(t.queues.served, k) {
      assert Live(t.queues, k, w);
    }
  }

  // ---------------------------------------------------------------- a turn for every key

  /** Nothing is in use and no dial is open. */
  ghost predicate Resting(s: State) {
    s.conns.held == map[] && s.conns.dials == {} && !s.stopped && !s.stopSignal
  }

  /** Between `s` and `t` a waiter of `k` was served, or a dial was opened for it. */
  ghost predicate Reached(s: State, t: State, k: Key) {
    || (exists w :: w in Lookup(t.queues.served, k) && w !in Lookup(s.queues.served, k))
    || (exists d :: d in t.conns.dials && d.key == k)
  }

  /** A turn of a resting pool reaches every key that has a live waiter. */
  ghost predicate TurnReachesAll(limit: nat, es: seq<Event>, order: seq<Key>, usable: ConnId -> bool) {
    var s := Exec(Init(limit), es);
    Resting(s) && Enabled(s, Support(order, usable)) ==>
      forall k, w :: Live(s.queues, k, w) ==> Reached(s, SupportPass(s, order, usable), k)
  }

  lemma {:induction false} ServedGrows(c: Conns, q: Queues, k: Key, usable: ConnId -> bool)
    requires k in q.waiters
    ensures Lookup(q.served, k) <= Lookup(ServeKey(c, q, k, usable).1.served, k)
    decreases |q.waiters[k]|
  {
    var line := q.waiters[k];
    if line != [] {
      if line[0] in q.canceled {
        ServedGrows(c, PopFront(q, k), k, usable);
      } else {
        var (o, c1) := AcquireFor(c, k, usable, line[0]);
        if !o.NotAvailable? {
          ServedGrows(c1, ServeFront(q, k), k, usable);
        }
      }
    }
  }

  lemma {:induction false} FrontServed(c: Conns, q: Queues, k: Key, usable: ConnId -> bool, w: WaiterId)
    returns (v: WaiterId)
    requires k in q.waiters && w in q.waiters[k] && w !in q.canceled
    requires c.acquired < c.limit && k !in c.connecting
    ensures v in q.waiters[k] && v in Lookup(ServeKey(c, q, k, usable).1.served, k)
    decreases |q.waiters[k]|
  {
    var line := q.waiters[k];
    if line[0] in q.canceled {
      assert w in line[1..];
      v := FrontServed(c, PopFront(q, k), k, usable, w);
    } else {
      v := line[0];
      var c1 := AcquireFor(c, k, usable, v).1;
      ServedGrows(c1, ServeFront(q, k), k, usable);
      var before, after := Lookup(ServeFront(q, k).served, k), Lookup(ServeKey(c, q, k, usable).1.served, k);
      assert before[|before| - 1] == v && after[|before| - 1] == v;
    }
  }

  lemma NotYetServed(q: Queues, k: Key, v: WaiterId)
    requires LineOk(Line(q, k), k, q.arrived) && v in Lookup(q.waiters, k)
    ensures v !in Lookup(q.served, k)
  {
    var served, waiting := Lookup(q.served, k), Lookup(q.waiters, k);
    var j :| 0 <= j < |waiting| && waiting[j] == v;
    assert Line(q, k)[|served| + j] == v;
    assert forall i :: 0 <= i < |served| ==> Line(q, k)[i] == served[i];
  }

  lemma OneQueueReached(s: State, order: seq<Key>, usable: ConnId -> bool, k: Key, w: WaiterId)
    requires Resting(s) && Enabled(s, Support(order, usable)) && Live(s.queues, k, w) && s.queues.waiters.Keys <= {k}
    requires s.conns.limit > 0 && s.conns.acquired == 0 && k !in s.conns.connecting
    requires LineOk(Line(s.queues, k), k, s.queues.arrived)
    ensures Reached(s, SupportPass(s, order, usable), k)
  {
    OneInOrder(order, k);
    var v := FrontServed(s.conns, s.queues, k, usable, w);
    NotYetServed(s.queues, k, v);
    ServeOne(s.conns, s.queues, k, usable);
  }

  lemma OneInOrder(order: seq<Key>, k: Key)
    requires k in order && (forall l :: l in order ==> l == k)
    requires forall i, j :: 0 <= i < j < |order| ==> order[i] != order[j]
    ensures order == [k]
  {
    assert order[0] in order && order[|order| - 1] in order;
  }

  lemma ServeOne(c: Conns, q: Queues, k: Key, usable: ConnId -> bool)
    requires k in q.waiters
    ensures ServeKeys(c, q, [k], usable) == ServeKey(c, q, k, usable)
  {
    assert [k][0] == k && [k][1..] == [];
  }

  lemma OneKeyReached(limit: nat, es: seq<Event>, order: seq<Key>, usable: ConnId -> bool, keys: set<Key>)
    requires limit > 0 && |keys| <= 1 && Only(es, keys)
    ensures TurnReachesAll(limit, es, order, usable)
  {
    var s := Exec(Init(limit), es);
    if Resting(s) && Enabled(s, Support(order, usable)) {
      ExecKeeps(limit, es);
      ExecWithin(limit, es, keys);
      forall k, w | Live(s.queues, k, w) ensures Reached(s, SupportPass(s, order, usable), k) {
        OnlyMember(keys, k);
        assert k !in s.conns.connecting;
        OneQueueReached(s, order, usable, k, w);
      }
    }
  }

  lemma OnlyMember(keys: set<Key>, k: Key)
    requires |keys| <= 1 && k in keys
    ensures keys == {k}
  {
    assert |keys - {k}| == 0;
  }

  // ---------------------------------------------------------------- one key takes the whole turn

  /** `n` callers of `a`. */
  function Callers(a: Key, n: nat, usable: ConnId -> bool): seq<Event> {
    if n == 0 then [] else Callers(a, n - 1, usable) + [Call(a, usable)]
  }

  /** The first `n` connections are given back. */
  function Releases(n: nat): seq<Event> {
    if n == 0 then [] else Releases(n - 1) + [Release(n - 1, false)]
  }

  /** All connections are in use for `a`; then one caller of `b` and as many of `a` queue, and all are given back. */
  function CrowdedRun(limit: nat, a: Key, b: Key, usable: ConnId -> bool): seq<Event> {
    Fill(a, limit, usable) + [Call(b, usable)] + Callers(a, limit, usable) + Releases(limit)
  }

  ghost predicate ConnsInUse(c: Conns, limit: nat, a: Key, r: nat, n: nat) {
    && c.limit == limit && c.acquired == n - r && c.connecting == {} && c.dials == {}
    && (forall id :: id in c.held <==> r <= id < n) && (forall id :: id in c.held ==> c.held[id] == a)
    && c.nextConn == n && |Lookup(c.idle, a)| == r && c.idle.Keys <= {a}
  }

  /** Nobody was served yet and nothing is dialled; connections `r` to `n - 1` are in use for `a`. */
  ghost predicate InUse(s: State, limit: nat, a: Key, r: nat, n: nat) {
    && ConnsInUse(s.conns, limit, a, r, n)
    && s.queues.canceled == {} && s.queues.served == map[]
    && s.task.NotStarted? && !s.stopped && !s.stopSignal
  }

  /** One caller waits for `b` and `m` for `a`. */
  ghost predicate Crowd(s: State, a: Key, b: Key, m: nat) {
    && s.queues.waiters.Keys <= {a, b} && |Lookup(s.queues.waiters, a)| == m && |Lookup(s.queues.waiters, b)| == 1
    && NonEmptyQueues(s.queues)
  }

  ghost predicate Crowded(s: State, limit: nat, a: Key, b: Key, m: nat, r: nat) {
    InUse(s, limit, a, r, limit) && Crowd(s, a, b, m)
  }

  lemma RoundInUse(s: State, limit: nat, n: nat, a: Key, usable: ConnId -> bool)
    requires InUse(s, limit, a, 0, n) && Quiet(s, limit, n) && n < limit
    ensures var t := Apply(Apply(s, Call(a, usable)), DialOk(Dial(a, n))); InUse(t, limit, a, 0, n + 1)
  {
    CallDials(s, a, usable);
    var s1 := Apply(s, Call(a, usable));
    DialEnds(s1, Dial(a, n));
    OneMoreInUse(s.conns, limit, n, a);
  }

  lemma OneMoreInUse(c: Conns, limit: nat, n: nat, a: Key)
    requires ConnsInUse(c, limit, a, 0, n)
    ensures ConnsInUse(Consume(OpenDial(c, a, n), Dial(a, n)), limit, a, 0, n + 1)
  {
    assert {Dial(a, n)} - {Dial(a, n)} == {} && {a} - {a} == {};
  }

  lemma {:induction false} FillInUse(limit: nat, a: Key, n: nat, usable: ConnId -> bool)
    requires n <= limit
    ensures InUse(Exec(Init(limit), Fill(a, n, usable)), limit, a, 0, n)
  {
    if n > 0 {
      FillInUse(limit, a, n - 1, usable);
      FillEnds(limit, a, n - 1, usable);
      RoundsInUse(limit, Fill(a, n - 1, usable), n - 1, a, usable);
    }
  }

  lemma RoundsInUse(limit: nat, es: seq<Event>, n: nat, a: Key, usable: ConnId -> bool)
    requires var s := Exec(Init(limit), es); InUse(s, limit, a, 0, n) && Quiet(s, limit, n)
    requires n < limit
    ensures InUse(Exec(Init(limit), es + [Call(a, usable)] + [DialOk(Dial(a, n))]), limit, a, 0, n + 1)
  {
    ExecTwo(Init(limit), es, Call(a, usable), DialOk(Dial(a, n)));
    RoundInUse(Exec(Init(limit), es), limit, n, a, usable);
  }

  /** With all in use a caller queues. */
  lemma CallerQueues(s: State, limit: nat, a: Key, k: Key, usable: ConnId -> bool)
    requires InUse(s, limit, a, 0, limit) && limit > 0
    ensures var t := Apply(s, Call(k, usable));
      && InUse(t, limit, a, 0, limit)
      && t.queues.waiters == s.queues.waiters[k := Lookup(s.queues.waiters, k) + [s.queues.nextWaiter]]
  {}

  lemma CrowdGrows(s: State, limit: nat, a: Key, b: Key, n: nat, usable: ConnId -> bool)
    requires Crowded(s, limit, a, b, n, 0) && limit > 0 && a != b
    ensures Crowded(Apply(s, Call(a, usable)), limit, a, b, n + 1, 0)
  {
    CallerQueues(s, limit, a, a, usable);
  }

  lemma CallerStep(s0: State, es: seq<Event>, limit: nat, a: Key, b: Key, n: nat, usable: ConnId -> bool)
    requires Crowded(Exec(s0, es), limit, a, b, n, 0) && limit > 0 && a != b
    ensures Crowded(Exec(s0, es + [Call(a, usable)]), limit, a, b, n + 1, 0)
  {
    ExecStep(s0, es, Call(a, usable));
    CrowdGrows(Exec(s0, es), limit, a, b, n, usable);
  }

  lemma {:induction false} CallersQueue(
        s0: State, es: seq<Event>, limit: nat, a: Key, b: Key, n: nat, usable: ConnId -> bool)
    requires Crowded(Exec(s0, es), limit, a, b, 0, 0) && limit > 0 && a != b
    ensures Crowded(Exec(s0, es + Callers(a, n, usable)), limit, a, b, n, 0)
  {
    if n == 0 {
      assert es + [] == es;
    } else {
      CallersQueue(s0, es, limit, a, b, n - 1, usable);
      var before := es + Callers(a, n - 1, usable);
      assert before + [Call(a, usable)] == es + Callers(a, n, usable);
      CallerStep(s0, before, limit, a, b, n - 1, usable);
    }
  }

  lemma NothingToClean(q: Queues)
    requires q.canceled == {} && NonEmptyQueues(q)
    ensures Cleanup(q) == q
  {
    assert CleanWaiters(q.waiters, {}) == q.waiters;
  }

  lemma GivesBack(s: State, limit: nat, a: Key, r: nat, n: nat)
    requires InUse(s, limit, a, r, n) && r < n && NonEmptyQueues(s.queues)
    ensures var t := Apply(s, Release(r, false)); InUse(t, limit, a, r + 1, n) && t.queues == s.queues
  {
    NothingToClean(s.queues);
  }

  lemma ReleaseStep(s0: State, es: seq<Event>, limit: nat, a: Key, b: Key, n: nat)
    requires Crowded(Exec(s0, es), limit, a, b, limit, n) && n < limit
    ensures Crowded(Exec(s0, es + [Release(n, false)]), limit, a, b, limit, n + 1)
  {
    ExecStep(s0, es, Release(n, false));
    GivesBack(Exec(s0, es), limit, a, n, limit);
  }

  lemma {:induction false} ReleasesGiveBack(s0: State, es: seq<Event>, limit: nat, a: Key, b: Key, n: nat)
    requires Crowded(Exec(s0, es), limit, a, b, limit, 0) && n <= limit
    ensures Crowded(Exec(s0, es + Releases(n)), limit, a, b, limit, n)
  {
    if n == 0 {
      assert es + [] == es;
    } else {
      ReleasesGiveBack(s0, es, limit, a, b, n - 1);
      var before := es + Releases(n - 1);
      assert before + [Release(n - 1, false)] == es + Releases(n);
      ReleaseStep(s0, before, limit, a, b, n - 1);
    }
  }

  lemma FirstWaits(s0: State, es: seq<Event>, limit: nat, a: Key, b: Key, usable: ConnId -> bool)
    requires InUse(Exec(s0, es), limit, a, 0, limit) && Quiet(Exec(s0, es), limit, limit) && limit > 0 && a != b
    ensures Crowded(Exec(s0, es + [Call(b, usable)]), limit, a, b, 0, 0)
  {
    ExecStep(s0, es, Call(b, usable));
    CallerQueues(Exec(s0, es), limit, a, b, usable);
  }

  lemma CrowdedRunRests(limit: nat, a: Key, b: Key, usable: ConnId -> bool)
    requires limit > 0 && a != b
    ensures Crowded(Exec(Init(limit), CrowdedRun(limit, a, b, usable)), limit, a, b, limit, limit)
  {
    var es := Fill(a, limit, usable);
    FillInUse(limit, a, limit, usable);
    FillEnds(limit, a, limit, usable);
    FirstWaits(Init(limit), es, limit, a, b, usable);
    CallersQueue(Init(limit), es + [Call(b, usable)], limit, a, b, limit, usable);
    ReleasesGiveBack(Init(limit), es + [Call(b, usable)] + Callers(a, limit, usable), limit, a, b, limit);
  }

  /** A queue with an idle connection for every waiter takes them all. */
  lemma {:induction false} TakesAll(c: Conns, q: Queues, a: Key, b: Key, usable: ConnId -> bool)
    requires a in q.waiters && q.canceled == {} && a != b && forall id :: usable(id)
    requires c.limit > 0 && |q.waiters[a]| == |Lookup(c.idle, a)| == c.limit - c.acquired
    ensures var (c', q') := ServeKey(c, q, a, usable);
      && c'.acquired == c'.limit && c'.limit == c.limit && c'.dials == c.dials
      && q'.canceled == {}
      && Lookup(q'.waiters, b) == Lookup(q.waiters, b) && Lookup(q'.served, b) == Lookup(q.served, b)
    decreases |q.waiters[a]|
  {
    if q.waiters[a] != [] {
      var c1 := AcquireFor(c, a, usable, q.waiters[a][0]).1;
      TakesAll(c1, ServeFront(q, a), a, b, usable);
    }
  }

  lemma NoneLeft(c: Conns, q: Queues, b: Key, usable: ConnId -> bool)
    requires b in q.waiters && q.canceled == {} && c.limit > 0 && c.acquired == c.limit
    ensures ServeKey(c, q, b, usable) == (c, q)
  {}

  lemma CrowdedKeys(c: Conns, q: Queues, a: Key, b: Key, usable: ConnId -> bool)
    requires a in q.waiters && b in q.waiters && q.canceled == {} && a != b && forall id :: usable(id)
    requires c.limit > 0 && |q.waiters[a]| == |Lookup(c.idle, a)| == c.limit - c.acquired
    ensures var (c', q') := ServeKeys(c, q, [a, b], usable);
      c'.dials == c.dials && Lookup(q'.served, b) == Lookup(q.served, b)
  {
    TakesAll(c, q, a, b, usable);
    var (c1, q1) := ServeKey(c, q, a, usable);
    NoneLeft(c1, q1, b, usable);
    ServeOne(c1, q1, b, usable);
    assert [a, b][0] == a && [a, b][1..] == [b];
  }

  lemma CrowdedTurn(s: State, limit: nat, a: Key, b: Key, usable: ConnId -> bool)
    requires limit > 0 && a != b && Crowded(s, limit, a, b, limit, limit) && forall id :: usable(id)
    ensures Resting(s) && Enabled(s, Support([a, b], usable))
    ensures !Reached(s, SupportPass(s, [a, b], usable), b) && Live(s.queues, b, s.queues.waiters[b][0])
  {
    assert s.conns.held == map[];
    CrowdedKeys(s.conns, s.queues, a, b, usable);
  }

  lemma {:induction false} CallersOnly(a: Key, n: nat, usable: ConnId -> bool, keys: set<Key>)
    requires a in keys
    ensures Only(Callers(a, n, usable), keys)
  {
    if n > 0 {
      CallersOnly(a, n - 1, usable, keys);
    }
  }

  lemma {:induction false} ReleasesOnly(n: nat, keys: set<Key>)
    ensures Only(Releases(n), keys)
  {
    if n > 0 {
      ReleasesOnly(n - 1, keys);
    }
  }

  lemma CrowdedRunOnly(limit: nat, a: Key, b: Key, usable: ConnId -> bool, keys: set<Key>)
    requires a in keys && b in keys
    ensures Only(CrowdedRun(limit, a, b, usable), keys)
  {
    FillOnly(a, limit, usable, keys);
    CallersOnly(a, limit, usable, keys);
    ReleasesOnly(limit, keys);
  }

  /**
    From a pool in which nothing is in use, a turn of the support task reaches every key that has a waiter in every
    run over `keys` if and only if `keys` has at most one member: with two, one queue can take every connection the
    limit allows before the other is looked at.
  */
  lemma TurnReachesAllIffOneKey(limit: nat, keys: set<Key>)
    requires limit > 0
    ensures (forall es, order, usable :: Only(es, keys) ==> TurnReachesAll(limit, es, order, usable)) <==> |keys| <= 1
  {
    if |keys| <= 1 {
      forall es, order, usable | Only(es, keys) ensures TurnReachesAll(limit, es, order, usable) {
        OneKeyReached(limit, es, order, usable, keys);
      }
    } else {
      var a :| a in keys;
      assert |keys - {a}| == |keys| - 1;
      var b :| b in keys - {a};
      var usable: ConnId -> bool := _ => true;
      var es := CrowdedRun(limit, a, b, usable);
      CrowdedRunRests(limit, a, b, usable);
      CrowdedTurn(Exec(Init(limit), es), limit, a, b, usable);
      CrowdedRunOnly(limit, a, b, usable, keys);
      assert !TurnReachesAll(limit, es, [a, b], usable);
    }
  }
}
