/** The promises of the connection pool, over every run. */
module ConnectionPoolRuns {
  import opened Basics
  import opened ConnectionPool
  import opened ConnectionPoolProofs

  /**
    In use plus idle plus being dialled never exceed the limit for any key, a key has at most
    one open dial, and the counter of acquired connections is exactly the number of live guards.
  */
  lemma PerKeyBound(limit: nat, es: seq<Event>, k: Key)
    requires limit > 0
    ensures var c := Exec(Init(limit), es).conns;
      && |HeldFor(c.held, k)| + |Lookup(c.idle, k)| + (if exists d :: d in c.dials && d.key == k then 1 else 0) <= limit
      && (forall d, e :: d in c.dials && e in c.dials && d.key == e.key ==> d == e)
      && c.acquired == |c.held|
  {
    ExecKeeps(limit, es);
    var c := Exec(Init(limit), es).conns;
    assert Total(c, k) <= limit;
  }

  /** A connection has at most one holder, and an idle one has none and sits in one place of one deque. */
  lemma ConnectionsAreExclusive(limit: nat, es: seq<Event>, k: Key, l: Key, i: nat, j: nat)
    requires var c := Exec(Init(limit), es).conns; i < |Lookup(c.idle, k)| && j < |Lookup(c.idle, l)|
    ensures var c := Exec(Init(limit), es).conns;
      && Lookup(c.idle, k)[i] !in c.held
      && (Lookup(c.idle, k)[i] == Lookup(c.idle, l)[j] ==> k == l && i == j)
  {
    ExecKeeps(limit, es);
  }

  /**
    Waiters of one key are served in order of arrival: those served and then those still queued
    form an increasing line, and a waiter that is in neither part had left before.
  */
  lemma ServedInOrder(limit: nat, es: seq<Event>, k: Key)
    ensures var q := Exec(Init(limit), es).queues;
      && Increasing(Lookup(q.served, k) + Lookup(q.waiters, k))
      && (!q.cleared ==> forall w :: w in q.arrived && q.arrived[w] == k ==>
            w in Lookup(q.served, k) || w in Lookup(q.waiters, k) || w in q.canceled)
  {
    ExecKeeps(limit, es);
    var q := Exec(Init(limit), es).queues;
    assert LineOk(Line(q, k), k, q.arrived);
  }

  lemma ExecStep(s: State, es: seq<Event>, e: Event)
    ensures Exec(s, es + [e]) == Apply(Exec(s, es), e)
  {
    assert (es + [e])[..|es|] == es;
  }

  /** A caller of `k` that finds nothing idle and no dial open starts a dial. */
  lemma CallDials(s: State, k: Key, usable: ConnId -> bool)
    requires k !in s.conns.idle && k !in s.conns.connecting
    requires s.conns.limit == 0 || s.conns.acquired < s.conns.limit
    ensures Apply(s, Call(k, usable)) ==
      s.(conns := OpenDial(s.conns, k, s.queues.nextWaiter), queues := s.queues.(nextWaiter := s.queues.nextWaiter + 1))
  {}

  /** A caller of `k` that finds nothing idle and a dial open waits. */
  lemma CallQueues(s: State, k: Key, usable: ConnId -> bool)
    requires k !in s.conns.idle && k in s.conns.connecting
    requires s.conns.limit == 0 || s.conns.acquired < s.conns.limit
    ensures Apply(s, Call(k, usable)) ==
      s.(queues := Enqueue(s.queues.(nextWaiter := s.queues.nextWaiter + 1), k, s.queues.nextWaiter))
  {}

  /** With limit 0: the support task parks, one caller dials, a second one queues behind it, the dial ends. */
  function SleepingRun(k: Key, usable: ConnId -> bool): seq<Event> {
    [Support([], usable)] + [Call(k, usable)] + [Call(k, usable)] + [DialOk(Dial(k, 0))]
  }

  lemma BehindDial(k: Key, usable: ConnId -> bool)
    ensures Exec(Init(0), [Support([], usable)] + [Call(k, usable)] + [Call(k, usable)]) ==
      State(Conns(0, 0, map[], {k}, {Dial(k, 0)}, map[], 0), Queues(map[k := [1]], {}, 2, map[], map[1 := k], false),
            Parked, false, false, false)
  {
    var e0, e1 := Support([], usable), Call(k, usable);
    ExecStep(Init(0), [], e0);
    var s1 := Exec(Init(0), [e0]);
    assert [] + [e0] == [e0];
    assert s1 == Init(0).(task := Parked) by {
      assert Cleanup(Init(0).queues).waiters == map[];
    }
    ExecStep(Init(0), [e0], e1);
    CallDials(s1, k, usable);
    ExecStep(Init(0), [e0] + [e1], e1);
    var s2 := Apply(s1, e1);
    CallQueues(s2, k, usable);
    assert s2.conns.dials == {Dial(k, 0)} && s2.conns.connecting == {k};
    var q := Apply(s2, e1).queues;
    assert q.waiters[k] == [1] && q.waiters == map[k := [1]] && q.arrived == map[1 := k];
  }

  lemma SleepingRunEnds(k: Key, usable: ConnId -> bool)
    ensures !NoLostWakeup(Exec(Init(0), SleepingRun(k, usable)))
  {
    var es := [Support([], usable)] + [Call(k, usable)] + [Call(k, usable)];
    BehindDial(k, usable);
    var s := Exec(Init(0), es);
    ExecStep(Init(0), es, DialOk(Dial(k, 0)));
    var t := Apply(s, DialOk(Dial(k, 0)));
    assert t == Connected(s, Dial(k, 0));
    assert CleanWaiters(s.queues.waiters, {}) == map[k := [1]];
    assert Live(t.queues, k, 1);
    assert k !in t.conns.connecting;
  }

  /**
    No lost wakeup: whenever the support task is parked with no wake pending, a queue with a live waiter
    has a reason to wait.  Every run has this exactly when a limit is set; with limit 0 the guard
    `acquired < limit` of `check_availibility` never holds, and a waiter behind a dial stays asleep.
  */
  lemma NoLostWakeupIffLimited(limit: nat)
    ensures (forall es :: NoLostWakeup(Exec(Init(limit), es))) <==> limit > 0
  {
    if limit > 0 {
      forall es ensures NoLostWakeup(Exec(Init(limit), es)) {
        ExecKeeps(limit, es);
      }
    } else {
      SleepingRunEnds(7, _ => true);
    }
  }

  // ---------------------------------------------------------------- the limit over all keys

  /** Every call of the run is for a key of `keys`. */
  predicate Only(es: seq<Event>, keys: set<Key>) {
    forall i :: 0 <= i < |es| && es[i].Call? ==> es[i].key in keys
  }

  ghost predicate ConnsWithin(c: Conns, keys: set<Key>) {
    && (forall conn :: conn in c.held ==> c.held[conn] in keys)
    && (forall d :: d in c.dials ==> d.key in keys)
  }

  ghost predicate Within(s: State, keys: set<Key>) {
    ConnsWithin(s.conns, keys) && s.queues.waiters.Keys <= keys
  }

  lemma AcquireForWithin(c: Conns, k: Key, usable: ConnId -> bool, w: WaiterId, keys: set<Key>)
    requires ConnsWithin(c, keys) && k in keys
    ensures ConnsWithin(AcquireFor(c, k, usable, w).1, keys)
  {}

  lemma {:induction false} ServeKeyWithin(c: Conns, q: Queues, k: Key, usable: ConnId -> bool, keys: set<Key>)
    requires ConnsWithin(c, keys) && k in q.waiters && k in keys
    ensures ConnsWithin(ServeKey(c, q, k, usable).0, keys)
    decreases |q.waiters[k]|
  {
    var line := q.waiters[k];
    if line == [] {
    } else if line[0] in q.canceled {
      ServeKeyWithin(c, PopFront(q, k), k, usable, keys);
    } else {
      AcquireForWithin(c, k, usable, line[0], keys);
      var (o, c1) := AcquireFor(c, k, usable, line[0]);
      if !o.NotAvailable? {
        ServeKeyWithin(c1, ServeFront(q, k), k, usable, keys);
      }
    }
  }

  lemma {:induction false} ServeKeysWithin(c: Conns, q: Queues, order: seq<Key>, usable: ConnId -> bool, keys: set<Key>)
    requires ConnsWithin(c, keys) && q.waiters.Keys <= keys && forall k :: k in order ==> k in q.waiters
    ensures var (c', q') := ServeKeys(c, q, order, usable); ConnsWithin(c', keys) && q'.waiters.Keys <= keys
    decreases |order|
  {
    if order != [] {
      ServeKeyWithin(c, q, order[0], usable, keys);
      var (c1, q1) := ServeKey(c, q, order[0], usable);
      ServeKeysWithin(c1, q1, order[1..], usable, keys);
    }
  }

  lemma ApplyWithin(s: State, e: Event, keys: set<Key>)
    requires Within(s, keys) && (e.Call? ==> e.key in keys)
    ensures Within(Apply(s, e), keys)
  {
    if Enabled(s, e) {
      match e
      case Call(k, usable) => AcquireForWithin(s.conns, k, usable, s.queues.nextWaiter, keys);
      case Support(order, usable) => ServeKeysWithin(s.conns, s.queues, order, usable, keys);
      case _ =>
    }
  }

  lemma {:induction false} ExecWithin(limit: nat, es: seq<Event>, keys: set<Key>)
    requires Only(es, keys)
    ensures Within(Exec(Init(limit), es), keys)
  {
    if es != [] {
      ExecWithin(limit, es[..|es| - 1], keys);
      ApplyWithin(Exec(Init(limit), es[..|es| - 1]), es[|es| - 1], keys);
    }
  }

  /** With one key, the per-key bound is the bound. */
  lemma OneKeyBound(limit: nat, es: seq<Event>, keys: set<Key>)
    requires limit > 0 && |keys| <= 1 && Only(es, keys)
    ensures Exec(Init(limit), es).conns.acquired <= limit
  {
    ExecKeeps(limit, es);
    ExecWithin(limit, es, keys);
    var c := Exec(Init(limit), es).conns;
    if keys == {} {
      assert c.held.Keys == {};
    } else {
      var k :| k in keys;
      assert forall l :: l in keys ==> l == k by {
        assert |keys - {k}| == 0;
      }
      assert HeldFor(c.held, k) == c.held.Keys;
      assert Total(c, k) <= limit;
    }
  }

  lemma DialEnds(s: State, d: Dial)
    requires d in s.conns.dials && !s.stopped && s.queues.waiters == map[] && s.queues.canceled == {}
    ensures Apply(s, DialOk(d)) == s.(conns := Consume(s.conns, d))
  {
    assert Cleanup(s.queues).waiters == map[];
  }

  /** `n` times: a caller of `a` dials and gets its connection. */
  function Fill(a: Key, n: nat, usable: ConnId -> bool): seq<Event> {
    if n == 0 then [] else Fill(a, n - 1, usable) + [Call(a, usable)] + [DialOk(Dial(a, n - 1))]
  }

  /** Nobody waits and no dial is open; `n` connections are in use. */
  ghost predicate Quiet(s: State, limit: nat, n: nat) {
    && s.conns.limit == limit && s.conns.acquired == n
    && s.conns.idle == map[] && s.conns.connecting == {} && s.conns.dials == {}
    && s.queues.waiters == map[] && s.queues.canceled == {} && s.queues.nextWaiter == n
    && !s.stopped
  }

  lemma Round(s: State, limit: nat, n: nat, a: Key, usable: ConnId -> bool)
    requires Quiet(s, limit, n) && n < limit
    ensures Quiet(Apply(Apply(s, Call(a, usable)), DialOk(Dial(a, n))), limit, n + 1)
  {
    CallDials(s, a, usable);
    DialEnds(Apply(s, Call(a, usable)), Dial(a, n));
  }

  lemma FillStep(s0: State, es: seq<Event>, limit: nat, n: nat, a: Key, usable: ConnId -> bool)
    requires Quiet(Exec(s0, es), limit, n) && n < limit
    ensures Quiet(Exec(s0, es + [Call(a, usable)] + [DialOk(Dial(a, n))]), limit, n + 1)
  {
    ExecTwo(s0, es, Call(a, usable), DialOk(Dial(a, n)));
    Round(Exec(s0, es), limit, n, a, usable);
  }

  lemma FillNone(limit: nat)
    ensures Quiet(Exec(Init(limit), []), limit, 0)
  {}

  lemma {:induction false} FillEnds(limit: nat, a: Key, n: nat, usable: ConnId -> bool)
    requires n <= limit
    ensures Quiet(Exec(Init(limit), Fill(a, n, usable)), limit, n)
  {
    if n == 0 {
      FillNone(limit);
    } else {
      FillEnds(limit, a, n - 1, usable);
      FillStep(Init(limit), Fill(a, n - 1, usable), limit, n - 1, a, usable);
    }
  }

  lemma ExecTwo(s: State, es: seq<Event>, e: Event, f: Event)
    ensures Exec(s, es + [e] + [f]) == Apply(Apply(Exec(s, es), e), f)
  {
    ExecStep(s, es, e);
    ExecStep(s, es + [e], f);
  }

  /** Both keys pass the limit check before either dial is counted. */
  lemma Overrun(s: State, limit: nat, a: Key, b: Key, usable: ConnId -> bool)
    requires limit > 0 && a != b && Quiet(s, limit, limit - 1)
    ensures var t := Apply(Apply(s, Call(a, usable)), Call(b, usable));
      Apply(Apply(t, DialOk(Dial(a, limit - 1))), DialOk(Dial(b, limit))).conns.acquired == limit + 1
  {
    CallDials(s, a, usable);
    var s1 := Apply(s, Call(a, usable));
    CallDials(s1, b, usable);
    var s2 := Apply(s1, Call(b, usable));
    DialEnds(s2, Dial(a, limit - 1));
    DialEnds(Apply(s2, DialOk(Dial(a, limit - 1))), Dial(b, limit));
  }

  lemma ExecFour(s: State, es: seq<Event>, e: seq<Event>)
    requires |e| == 4
    ensures Exec(s, es + e) == Apply(Apply(Apply(Apply(Exec(s, es), e[0]), e[1]), e[2]), e[3])
  {
    ExecStep(s, es, e[0]);
    ExecStep(s, es + [e[0]], e[1]);
    ExecStep(s, es + [e[0]] + [e[1]], e[2]);
    ExecStep(s, es + [e[0]] + [e[1]] + [e[2]], e[3]);
    assert es + e == es + [e[0]] + [e[1]] + [e[2]] + [e[3]];
  }

  lemma OverrunEnds(limit: nat, a: Key, b: Key, usable: ConnId -> bool) returns (es: seq<Event>)
    requires limit > 0 && a != b
    ensures es == Fill(a, limit - 1, usable)
        + [Call(a, usable), Call(b, usable), DialOk(Dial(a, limit - 1)), DialOk(Dial(b, limit))]
    ensures Exec(Init(limit), es).conns.acquired == limit + 1
  {
    var e := [Call(a, usable), Call(b, usable), DialOk(Dial(a, limit - 1)), DialOk(Dial(b, limit))];
    var es0 := Fill(a, limit - 1, usable);
    FillEnds(limit, a, limit - 1, usable);
    Overrun(Exec(Init(limit), es0), limit, a, b, usable);
    ExecFour(Init(limit), es0, e);
    es := es0 + e;
  }

  lemma {:induction false} FillOnly(a: Key, n: nat, usable: ConnId -> bool, keys: set<Key>)
    requires a in keys
    ensures Only(Fill(a, n, usable), keys)
  {
    if n > 0 {
      FillOnly(a, n - 1, usable, keys);
    }
  }

  /**
    The limit is documented as the total number of simultaneous connections.  Calls for `keys` keep to
    it in every run exactly when `keys` has at most one member: dials are not counted by the check.
  */
  lemma TotalLimitIffOneKey(limit: nat, keys: set<Key>)
    requires limit > 0
    ensures (forall es :: Only(es, keys) ==> Exec(Init(limit), es).conns.acquired <= limit) <==> |keys| <= 1
  {
    if |keys| <= 1 {
      forall es | Only(es, keys) ensures Exec(Init(limit), es).conns.acquired <= limit {
        OneKeyBound(limit, es, keys);
      }
    } else {
      var a :| a in keys;
      assert |keys - {a}| == |keys| - 1;
      var b :| b in keys - {a};
      var usable: ConnId -> bool := _ => true;
      var es := OverrunEnds(limit, a, b, usable);
      FillOnly(a, limit - 1, usable, keys);
      assert Only(es, keys);
    }
  }
}
