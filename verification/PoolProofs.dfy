/** What every event of the connection pool keeps, and what follows for every run. */
module ConnectionPoolProofs {
  import opened Basics
  import opened ConnectionPool

  // ---------------------------------------------------------------- connections

  /** The connection found is the most recently used one that is usable; those used later are discarded. */
  lemma {:induction false} PopUsablePrefix(conns: seq<ConnId>, usable: ConnId -> bool)
    ensures var (found, rest) := PopUsable(conns, usable);
      && (found.None? ==> rest == [] && forall i :: 0 <= i < |conns| ==> !usable(conns[i]))
      && (found.Some? ==>
            && |rest| < |conns| && rest == conns[..|rest|] && found.value == conns[|rest|] && usable(found.value)
            && forall i :: |rest| < i < |conns| ==> !usable(conns[i]))
  {
    if conns != [] && !usable(conns[|conns| - 1]) {
      PopUsablePrefix(conns[..|conns| - 1], usable);
    }
  }

  lemma HeldForGrant(held: map<ConnId, Key>, k: Key, conn: ConnId, l: Key)
    requires conn !in held
    ensures |HeldFor(held[conn := k], l)| == |HeldFor(held, l)| + if l == k then 1 else 0
  {
    assert HeldFor(held[conn := k], l) == HeldFor(held, l) + if l == k then {conn} else {};
  }

  lemma HeldForDrop(held: map<ConnId, Key>, conn: ConnId, l: Key)
    requires conn in held
    ensures |HeldFor(held - {conn}, l)| == |HeldFor(held, l)| - if l == held[conn] then 1 else 0
  {
    assert HeldFor(held - {conn}, l) == HeldFor(held, l) - if l == held[conn] then {conn} else {};
  }

  lemma HeldForWithin(held: map<ConnId, Key>, k: Key)
    ensures |HeldFor(held, k)| <= |held|
  {
    assert |held.Keys| == |HeldFor(held, k)| + |held.Keys - HeldFor(held, k)|;
  }

  /** A connection id that no holder and no deque has. */
  ghost predicate Loose(c: Conns, conn: ConnId) {
    && conn < c.nextConn && conn !in c.held
    && (forall l, i :: l in c.idle && 0 <= i < |c.idle[l]| ==> c.idle[l][i] != conn)
  }

  ghost predicate HasRoom(c: Conns, k: Key) {
    c.limit > 0 ==> Total(c, k) < c.limit
  }

  /** Discarding the back of a deque keeps the invariant. */
  lemma ShrinkIdle(c: Conns, k: Key, n: nat)
    requires ConnInv(c) && k in c.idle && n <= |c.idle[k]|
    ensures ConnInv(c.(idle := c.idle[k := c.idle[k][..n]]))
  {
    var t := c.(idle := c.idle[k := c.idle[k][..n]]);
    assert forall l :: Total(t, l) <= Total(c, l);
    ShrinkExclusive(c.held, c.idle, c.nextConn, k, n);
  }

  lemma ShrinkExclusive(held: map<ConnId, Key>, idle: map<Key, seq<ConnId>>, nextConn: ConnId, k: Key, n: nat)
    requires Exclusive(held, idle, nextConn) && k in idle && n <= |idle[k]|
    ensures Exclusive(held, idle[k := idle[k][..n]], nextConn)
  {
    var t := idle[k := idle[k][..n]];
    assert forall l :: l in t ==> l in idle && |t[l]| <= |idle[l]|;
    assert forall l, i :: l in t && 0 <= i < |t[l]| ==> t[l][i] == idle[l][i];
  }

  lemma GrantKeeps(c: Conns, k: Key, conn: ConnId)
    requires ConnInv(c) && Loose(c, conn) && HasRoom(c, k)
    ensures ConnInv(Grant(c, k, conn))
  {
    var t := Grant(c, k, conn);
    forall l ensures Total(t, l) == Total(c, l) + if l == k then 1 else 0 {
      HeldForGrant(c.held, k, conn, l);
    }
    assert t.held.Keys == c.held.Keys + {conn};
  }

  lemma OpenDialKeeps(c: Conns, k: Key, w: WaiterId)
    requires ConnInv(c) && k !in c.connecting && Lookup(c.idle, k) == []
    requires c.limit > 0 ==> c.acquired < c.limit
    ensures ConnInv(OpenDial(c, k, w))
  {
    var t := OpenDial(c, k, w);
    HeldForWithin(c.held, k);
    assert forall l :: l != k ==> Total(t, l) == Total(c, l);
    forall l | l in t.connecting ensures exists d :: d in t.dials && d.key == l {
      if l == k {
        assert Dial(k, w) in t.dials && Dial(k, w).key == k;
      } else {
        var d :| d in c.dials && d.key == l;
        assert d in t.dials;
      }
    }
  }

  lemma CloseDialKeeps(c: Conns, d: Dial)
    requires ConnInv(c) && d in c.dials
    ensures ConnInv(CloseDial(c, d)) && HasRoom(CloseDial(c, d), d.key)
  {
    var t := CloseDial(c, d);
    forall k | k in t.connecting ensures exists e :: e in t.dials && e.key == k {
      var e :| e in c.dials && e.key == k;
      assert e in t.dials;
    }
    assert forall l :: Total(t, l) == Total(c, l) - if l == d.key then 1 else 0;
  }

  lemma ConsumeKeeps(c: Conns, d: Dial)
    requires ConnInv(c) && d in c.dials
    ensures ConnInv(Consume(c, d))
  {
    CloseDialKeeps(c, d);
    var t := CloseDial(c, d).(nextConn := c.nextConn + 1);
    assert forall l :: Total(t, l) == Total(CloseDial(c, d), l);
    GrantKeeps(t, d.key, c.nextConn);
  }

  lemma ReturnKeeps(c: Conns, conn: ConnId, keep: bool)
    requires ConnInv(c) && conn in c.held
    ensures c.acquired > 0
    ensures ConnInv(Return(c, conn, keep))
  {
    var k := c.held[conn];
    var t := c.(acquired := c.acquired - 1, held := c.held - {conn});
    forall l ensures Total(t, l) == Total(c, l) - if l == k then 1 else 0 {
      HeldForDrop(c.held, conn, l);
    }
    assert t.held.Keys == c.held.Keys - {conn};
    if keep {
      var u := Return(c, conn, keep);
      assert forall l :: Total(u, l) == Total(t, l) + if l == k then 1 else 0;
    }
  }

  /** What the answer of `acquire` tells its caller. */
  ghost predicate Takeable(o: Acquire, c: Conns, k: Key) {
    match o
    case NotAvailable => MustWait(c, k)
    case Available => (c.limit > 0 ==> c.acquired < c.limit) && k !in c.connecting && Lookup(c.idle, k) == []
    case Acquired(conn) => Loose(c, conn) && HasRoom(c, k)
  }

  /** A reason to wait is not taken away. */
  ghost predicate WaitsStay(c: Conns, t: Conns) {
    t.limit == c.limit && forall l :: MustWait(c, l) ==> MustWait(t, l)
  }

  lemma TryAcquireKeeps(c: Conns, k: Key, usable: ConnId -> bool)
    requires ConnInv(c)
    ensures var (o, t) := TryAcquire(c, k, usable); ConnInv(t) && Takeable(o, t, k) && WaitsStay(c, t)
  {
    if !(c.limit > 0 && c.acquired >= c.limit) {
      PopUsablePrefix(Lookup(c.idle, k), usable);
      var rest := PopUsable(Lookup(c.idle, k), usable).1;
      if k in c.idle {
        ShrinkIdle(c, k, |rest|);
        assert c.limit > 0 ==> Total(c, k) <= c.limit;
      }
    }
  }

  lemma SettleKeeps(o: Acquire, c: Conns, k: Key, w: WaiterId)
    requires ConnInv(c) && Takeable(o, c, k)
    ensures ConnInv(Settle(o, c, k, w)) && WaitsStay(c, Settle(o, c, k, w))
    ensures o.NotAvailable? ==> MustWait(Settle(o, c, k, w), k)
  {
    match o
    case NotAvailable =>
    case Acquired(conn) => GrantKeeps(c, k, conn);
    case Available => OpenDialKeeps(c, k, w);
  }

  lemma AcquireForKeeps(c: Conns, k: Key, usable: ConnId -> bool, w: WaiterId)
    requires ConnInv(c)
    ensures var (o, t) := AcquireFor(c, k, usable, w);
      ConnInv(t) && WaitsStay(c, t) && (o.NotAvailable? ==> MustWait(t, k))
  {
    TryAcquireKeeps(c, k, usable);
    var (o, t) := TryAcquire(c, k, usable);
    SettleKeeps(o, t, k, w);
  }

  // ---------------------------------------------------------------- queues

  /** `line'` is `line` without some waiters whose callers are gone. */
  ghost predicate Trimmed(line: seq<WaiterId>, line': seq<WaiterId>, canceled: set<WaiterId>) {
    && (Increasing(line) ==> Increasing(line'))
    && (forall w :: w in line' ==> w in line)
    && (forall w :: w in line ==> w in line' || w in canceled)
  }

  lemma TrimSegment(a: seq<WaiterId>, q: seq<WaiterId>, n: nat, canceled: set<WaiterId>)
    requires n <= |q| && forall i :: 0 <= i < n ==> q[i] in canceled
    ensures Trimmed(a + q, a + q[n..], canceled)
  {
    var l, r := a + q, a + q[n..];
    assert forall i :: 0 <= i < |r| ==> r[i] == l[if i < |a| then i else i + n];
    forall i | 0 <= i < |l| ensures l[i] in r || l[i] in canceled {
      if i >= |a| + n {
        assert r[i - n] == l[i];
      } else if i < |a| {
        assert r[i] == l[i];
      }
    }
  }

  lemma TrimKeeps(q: Queues, t: Queues)
    requires QueueInv(q) && t == q.(waiters := t.waiters, served := t.served)
    requires forall k :: Trimmed(Line(q, k), Line(t, k), q.canceled)
    ensures QueueInv(t)
  {
    forall k ensures LineOk(Line(t, k), k, t.arrived) {
      assert Trimmed(Line(q, k), Line(t, k), q.canceled);
      assert LineOk(Line(q, k), k, q.arrived);
    }
    forall w | w in t.arrived && !t.cleared ensures w in Line(t, t.arrived[w]) || w in t.canceled {
      assert Trimmed(Line(q, q.arrived[w]), Line(t, q.arrived[w]), q.canceled);
    }
  }

  lemma LineAfterArrival(line: seq<WaiterId>, l: Key, arrived: map<WaiterId, Key>, k: Key, w: WaiterId)
    requires LineOk(line, l, arrived) && forall v :: v in arrived ==> v < w
    ensures LineOk(line, l, arrived[w := k])
    ensures LineOk(line + [w], l, arrived[w := l])
  {
    assert forall i :: 0 <= i < |line| ==> line[i] in arrived;
  }

  lemma LineEnqueue(q: Queues, k: Key, w: WaiterId, l: Key)
    ensures Line(Enqueue(q, k, w), l) == if l == k then Line(q, l) + [w] else Line(q, l)
  {}

  lemma EnqueueKeeps(q: Queues, k: Key, w: WaiterId)
    requires QueueInv(q) && w < q.nextWaiter && forall v :: v in q.arrived ==> v < w
    ensures QueueInv(Enqueue(q, k, w))
  {
    var t := Enqueue(q, k, w);
    forall l ensures LineOk(Line(t, l), l, t.arrived) {
      LineEnqueue(q, k, w, l);
      LineAfterArrival(Line(q, l), l, q.arrived, k, w);
    }
    forall v | v in t.arrived && !t.cleared ensures v in Line(t, t.arrived[v]) || v in t.canceled {
      LineEnqueue(q, k, w, t.arrived[v]);
    }
  }

  lemma PopCanceledKeeps(q: Queues, k: Key)
    requires QueueInv(q) && k in q.waiters && q.waiters[k] != [] && q.waiters[k][0] in q.canceled
    ensures QueueInv(PopFront(q, k))
  {
    var t := PopFront(q, k);
    forall l ensures Trimmed(Line(q, l), Line(t, l), q.canceled) {
      TrimSegment(Lookup(q.served, l), Lookup(q.waiters, l), if l == k then 1 else 0, q.canceled);
    }
    TrimKeeps(q, t);
  }

  lemma ServeFrontKeeps(q: Queues, k: Key)
    requires QueueInv(q) && k in q.waiters && q.waiters[k] != []
    ensures QueueInv(ServeFront(q, k))
  {
    var t := ServeFront(q, k);
    forall l ensures Line(q, l) == Line(t, l) && Trimmed(Line(q, l), Line(t, l), q.canceled) {}
    TrimKeeps(q, t);
  }

  lemma {:induction false} DropCanceledSuffix(q: seq<WaiterId>, canceled: set<WaiterId>)
    ensures var r := DropCanceled(q, canceled);
      && |r| <= |q| && r == q[|q| - |r|..]
      && (forall i :: 0 <= i < |q| - |r| ==> q[i] in canceled)
      && (r != [] ==> r[0] !in canceled)
  {
    if q != [] && q[0] in canceled {
      DropCanceledSuffix(q[1..], canceled);
    }
  }

  lemma CleanupTrims(q: Queues, k: Key)
    ensures Trimmed(Line(q, k), Line(Cleanup(q), k), q.canceled)
    ensures forall w :: Live(Cleanup(q), k, w) ==> Live(q, k, w)
  {
    var line := Lookup(q.waiters, k);
    var line' := DropCanceled(line, q.canceled);
    DropCanceledSuffix(line, q.canceled);
    assert Lookup(Cleanup(q).waiters, k) == line';
    TrimSegment(Lookup(q.served, k), line, |line| - |line'|, q.canceled);
  }

  /** After a cleanup every queue that is left has a live waiter in front, and only dead ones are gone. */
  lemma CleanupKeeps(q: Queues)
    requires QueueInv(q)
    ensures QueueInv(Cleanup(q)) && NonEmptyQueues(Cleanup(q))
    ensures forall k, w :: Live(Cleanup(q), k, w) ==> Live(q, k, w)
  {
    forall k ensures Trimmed(Line(q, k), Line(Cleanup(q), k), q.canceled) {
      CleanupTrims(q, k);
    }
    forall k, w | Live(Cleanup(q), k, w) ensures Live(q, k, w) {
      CleanupTrims(q, k);
    }
    TrimKeeps(q, Cleanup(q));
  }

  // ---------------------------------------------------------------- the support task

  ghost predicate SettledKey(c: Conns, q: Queues, k: Key) {
    forall w :: Live(q, k, w) ==> MustWait(c, k)
  }

  /** The queues of keys outside `order` are left alone. */
  ghost predicate OthersStay(q: Queues, t: Queues, order: seq<Key>) {
    && t == q.(waiters := t.waiters, served := t.served)
    && (forall l :: l !in order ==> Lookup(t.waiters, l) == Lookup(q.waiters, l))
  }

  lemma {:induction false} ServeKeyKeeps(c: Conns, q: Queues, k: Key, usable: ConnId -> bool)
    requires ConnInv(c) && QueueInv(q) && k in q.waiters
    ensures var (c', q') := ServeKey(c, q, k, usable);
      ConnInv(c') && QueueInv(q') && WaitsStay(c, c') && OthersStay(q, q', [k]) && SettledKey(c', q', k)
    decreases |q.waiters[k]|
  {
    var line := q.waiters[k];
    if line == [] {
    } else if line[0] in q.canceled {
      PopCanceledKeeps(q, k);
      ServeKeyKeeps(c, PopFront(q, k), k, usable);
    } else {
      AcquireForKeeps(c, k, usable, line[0]);
      var (o, c1) := AcquireFor(c, k, usable, line[0]);
      if !o.NotAvailable? {
        ServeFrontKeeps(q, k);
        ServeKeyKeeps(c1, ServeFront(q, k), k, usable);
      }
    }
  }

  lemma {:induction false} ServeKeysKeeps(c: Conns, q: Queues, order: seq<Key>, usable: ConnId -> bool)
    requires ConnInv(c) && QueueInv(q) && forall k :: k in order ==> k in q.waiters
    requires forall i, j :: 0 <= i < j < |order| ==> order[i] != order[j]
    ensures var (c', q') := ServeKeys(c, q, order, usable);
      && ConnInv(c') && QueueInv(q') && WaitsStay(c, c') && OthersStay(q, q', order)
      && (forall k :: k in order ==> SettledKey(c', q', k))
    decreases |order|
  {
    if order != [] {
      var k := order[0];
      ServeKeyKeeps(c, q, k, usable);
      var (c1, q1) := ServeKey(c, q, k, usable);
      ServeKeysKeeps(c1, q1, order[1..], usable);
      var (c', q') := ServeKeys(c1, q1, order[1..], usable);
      assert k !in order[1..];
      assert forall w :: Live(q', k, w) ==> Live(q1, k, w);
      assert forall l :: l !in order ==> l !in [k] && l !in order[1..];
    }
  }

  /** After a pass of the support task every live waiter has a reason to wait. */
  lemma SupportSettles(s: State, order: seq<Key>, usable: ConnId -> bool)
    requires Inv(s) && Enabled(s, Support(order, usable)) && !(s.task.Parked? && (s.stopSignal || s.stopped))
    ensures var t := SupportPass(s, order, usable);
      ConnInv(t.conns) && QueueInv(t.queues) && NonEmptyQueues(t.queues) && AllMustWait(t.conns, t.queues)
      && t.queues == s.queues.(waiters := t.queues.waiters, served := t.queues.served) && t.conns.limit == s.conns.limit
  {
    ServeKeysKeeps(s.conns, s.queues, order, usable);
    var (c1, q1) := ServeKeys(s.conns, s.queues, order, usable);
    CleanupKeeps(q1);
    forall k, w | Live(Cleanup(q1), k, w) ensures MustWait(c1, k) {
      assert Live(q1, k, w);
      assert k !in order ==> Lookup(q1.waiters, k) == Lookup(s.queues.waiters, k);
      assert SettledKey(c1, q1, k);
    }
  }

  lemma SupportKeeps(s: State, order: seq<Key>, usable: ConnId -> bool)
    requires Inv(s) && Enabled(s, Support(order, usable))
    ensures Inv(SupportPass(s, order, usable))
    ensures SupportPass(s, order, usable).conns.limit == s.conns.limit
  {
    if !(s.task.Parked? && (s.stopSignal || s.stopped)) {
      SupportSettles(s, order, usable);
    }
  }

  // ---------------------------------------------------------------- events

  /** Whoever frees something and then calls `check_availibility` leaves no waiter asleep. */
  lemma CheckKeeps(s: State)
    requires ConnInv(s.conns) && QueueInv(s.queues)
    ensures Inv(CheckAvailability(s))
  {
    CleanupKeeps(s.queues);
    var q := Cleanup(s.queues);
    forall k, w | Live(q, k, w) ensures |q.waiters| > 0 {
      assert k in q.waiters;
    }
  }

  lemma ConnectedKeeps(s: State, d: Dial)
    requires Inv(s) && d in s.conns.dials
    ensures Inv(Connected(s, d))
  {
    if s.stopped {
      CloseDialKeeps(s.conns, d);
      CheckKeeps(s.(conns := CloseDial(s.conns, d)));
    } else {
      ConsumeKeeps(s.conns, d);
      var s1 := s.(conns := Consume(s.conns, d));
      if d.waiter in s.queues.canceled {
        ReturnKeeps(s1.conns, s.conns.nextConn, true);
        CheckKeeps(s1.(conns := Return(s1.conns, s.conns.nextConn, true)));
        CheckKeeps(GiveBack(s1, s.conns.nextConn, true));
      } else {
        CheckKeeps(s1);
      }
    }
  }

  /** Fields that the line of a key does not depend on. */
  lemma SameLinesKeep(q: Queues, t: Queues)
    requires QueueInv(q) && t == q.(nextWaiter := t.nextWaiter, canceled := t.canceled)
    requires q.nextWaiter <= t.nextWaiter && q.canceled <= t.canceled
    ensures QueueInv(t)
  {
    assert forall k :: Line(t, k) == Line(q, k);
  }

  lemma EnqueueWaits(c: Conns, q: Queues, k: Key, w: WaiterId)
    requires AllMustWait(c, q) && MustWait(c, k)
    ensures AllMustWait(c, Enqueue(q, k, w))
  {
    assert forall l, v :: l != k && Live(Enqueue(q, k, w), l, v) ==> Live(q, l, v);
  }

  lemma AdmitKeeps(s: State, k: Key, o: Acquire, c: Conns)
    requires Inv(s) && ConnInv(c) && WaitsStay(s.conns, c) && (o.NotAvailable? ==> MustWait(c, k))
    ensures Inv(Admit(s, k, o, c))
  {
    var w := s.queues.nextWaiter;
    var q := s.queues.(nextWaiter := w + 1);
    SameLinesKeep(s.queues, q);
    assert forall l, v :: Live(q, l, v) ==> Live(s.queues, l, v);
    if o.NotAvailable? {
      EnqueueKeeps(q, k, w);
      if AllMustWait(c, q) {
        EnqueueWaits(c, q, k, w);
      }
    }
  }

  lemma NewCallKeeps(s: State, k: Key, usable: ConnId -> bool)
    requires Inv(s)
    ensures Inv(NewCall(s, k, usable))
  {
    AcquireForKeeps(s.conns, k, usable, s.queues.nextWaiter);
    var (o, c) := AcquireFor(s.conns, k, usable, s.queues.nextWaiter);
    AdmitKeeps(s, k, o, c);
  }

  lemma DropPoolKeeps(q: Queues)
    requires QueueInv(q)
    ensures QueueInv(q.(waiters := map[], cleared := true))
  {
    var t := q.(waiters := map[], cleared := true);
    forall k ensures LineOk(Line(t, k), k, t.arrived) {
      assert LineOk(Line(q, k), k, q.arrived);
      assert Line(t, k) == Line(q, k)[..|Lookup(q.served, k)|];
    }
  }

  lemma ApplyKeeps(s: State, e: Event)
    requires Inv(s)
    ensures Inv(Apply(s, e))
  {
    if Enabled(s, e) {
      match e
      case Call(k, usable) => NewCallKeeps(s, k, usable);
      case Cancel(w) =>
        var q := s.queues.(canceled := s.queues.canceled + {w});
        SameLinesKeep(s.queues, q);
        assert forall k, v :: Live(q, k, v) ==> Live(s.queues, k, v);
      case Release(conn, close) =>
        ReturnKeeps(s.conns, conn, !close);
        CheckKeeps(s.(conns := Return(s.conns, conn, !close)));
      case DropConn(conn) =>
        ReturnKeeps(s.conns, conn, false);
        CheckKeeps(s.(conns := Return(s.conns, conn, false)));
      case DialOk(d) => ConnectedKeeps(s, d);
      case DialErr(d) =>
        CloseDialKeeps(s.conns, d);
        CheckKeeps(s.(conns := CloseDial(s.conns, d)));
      case Support(order, usable) => SupportKeeps(s, order, usable);
      case Shutdown =>
      case DropPool => DropPoolKeeps(s.queues);
    }
  }

  lemma ApplyLimit(s: State, e: Event)
    requires Inv(s)
    ensures Apply(s, e).conns.limit == s.conns.limit
  {
    match e
    case Support(order, usable) =>
      if Enabled(s, e) {
        SupportKeeps(s, order, usable);
      }
    case _ =>
  }

  lemma InitKeeps(limit: nat)
    ensures Inv(Init(limit))
  {
    var s := Init(limit);
    assert forall k :: HeldFor(s.conns.held, k) == {};
    assert forall k :: Total(s.conns, k) == 0;
    assert forall k :: Line(s.queues, k) == [];
  }

  /** Every state of every run of a pool satisfies the invariant. */
  lemma {:induction false} ExecKeeps(limit: nat, es: seq<Event>)
    ensures Inv(Exec(Init(limit), es)) && Exec(Init(limit), es).conns.limit == limit
  {
    if es == [] {
      InitKeeps(limit);
    } else {
      var s := Exec(Init(limit), es[..|es| - 1]);
      ExecKeeps(limit, es[..|es| - 1]);
      ApplyKeeps(s, es[|es| - 1]);
      ApplyLimit(s, es[|es| - 1]);
    }
  }
}
