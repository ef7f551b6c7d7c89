/** What becomes of every connection of the pool and of every caller, over every run. */
module ConnectionPoolCustody {
  import opened Basics
  import opened ConnectionPool
  import opened ConnectionPoolProofs
  import opened ConnectionPoolRuns

  // ---------------------------------------------------------------- connections that are closed

  /** The connection is in nobody's hand and in no deque, and its number was given out before. */
  ghost predicate Gone(c: Conns, id: ConnId) {
    id < c.nextConn && id !in c.held && forall k :: id !in Lookup(c.idle, k)
  }

  lemma AcquireGone(c: Conns, k: Key, usable: ConnId -> bool, w: WaiterId, id: ConnId)
    requires Gone(c, id)
    ensures Gone(AcquireFor(c, k, usable, w).1, id)
  {
    var line := Lookup(c.idle, k);
    PopUsablePrefix(line, usable);
    var (found, rest) := PopUsable(line, usable);
    assert id !in line && (forall x :: x in rest ==> x in line) && (found.Some? ==> found.value in line);
    var c' := AcquireFor(c, k, usable, w).1;
    forall l ensures id !in Lookup(c'.idle, l) {
      assert id !in Lookup(c.idle, l);
    }
  }

  lemma {:induction false} ServeKeyGone(c: Conns, q: Queues, k: Key, usable: ConnId -> bool, id: ConnId)
    requires Gone(c, id) && k in q.waiters
    ensures Gone(ServeKey(c, q, k, usable).0, id)
    decreases |q.waiters[k]|
  {
    var line := q.waiters[k];
    if line == [] {
    } else if line[0] in q.canceled {
      ServeKeyGone(c, PopFront(q, k), k, usable, id);
    } else {
      AcquireGone(c, k, usable, line[0], id);
      var (o, c1) := AcquireFor(c, k, usable, line[0]);
      if !o.NotAvailable? {
        ServeKeyGone(c1, ServeFront(q, k), k, usable, id);
      }
    }
  }

  lemma {:induction false} ServeKeysGone(c: Conns, q: Queues, order: seq<Key>, usable: ConnId -> bool, id: ConnId)
    requires Gone(c, id) && forall k :: k in order ==> k in q.waiters
    ensures Gone(ServeKeys(c, q, order, usable).0, id)
    decreases |order|
  {
    if order != [] {
      ServeKeyGone(c, q, order[0], usable, id);
      var (c1, q1) := ServeKey(c, q, order[0], usable);
      ServeKeysGone(c1, q1, order[1..], usable, id);
    }
  }

  lemma ReturnGone(c: Conns, conn: ConnId, keep: bool, id: ConnId)
    requires conn in c.held && Gone(c, id)
    ensures Gone(Return(c, conn, keep), id)
  {
    var c' := Return(c, conn, keep);
    forall l ensures id !in Lookup(c'.idle, l) {
      assert id !in Lookup(c.idle, l);
    }
  }

  lemma ConnectedGone(s: State, d: Dial, id: ConnId)
    requires Gone(s.conns, id)
    ensures Gone(Connected(s, d).conns, id)
  {
    if !s.stopped && d.waiter in s.queues.canceled {
      ReturnGone(Consume(s.conns, d), s.conns.nextConn, true, id);
    }
  }

  lemma ApplyGone(s: State, e: Event, id: ConnId)
    requires Gone(s.conns, id)
    ensures Gone(Apply(s, e).conns, id)
  {
    if Enabled(s, e) {
      match e
      case Call(k, usable) => AcquireGone(s.conns, k, usable, s.queues.nextWaiter, id);
      case Release(conn, close) => ReturnGone(s.conns, conn, !close, id);
      case DropConn(conn) => ReturnGone(s.conns, conn, false, id);
      case DialOk(d) => ConnectedGone(s, d, id);
      case Support(order, usable) => ServeKeysGone(s.conns, s.queues, order, usable, id);
      case _ =>
    }
  }

  /** The event ends the use of a connection and closes it. */
  predicate Closes(s: State, e: Event, id: ConnId) {
    id in s.conns.held && (e == Release(id, true) || e == DropConn(id))
  }

  lemma ClosingIsGone(s: State, e: Event, id: ConnId)
    requires ConnInv(s.conns) && Closes(s, e, id)
    ensures Gone(Apply(s, e).conns, id)
  {
    ClosedIsGone(s.conns, id);
    assert Apply(s, e).conns == Return(s.conns, id, false);
  }

  lemma ClosedIsGone(c: Conns, id: ConnId)
    requires ConnInv(c) && id in c.held
    ensures Gone(Return(c, id, false), id)
  {}

  /**
    A connection that is released to be closed, or dropped, is never seen again: in no later state of the run does
    anybody hold it or is it waiting in a deque.
  */
  lemma {:induction false} ClosedForGood(limit: nat, es: seq<Event>, i: nat, id: ConnId)
    requires i < |es| && Closes(Exec(Init(limit), es[..i]), es[i], id)
    ensures Gone(Exec(Init(limit), es).conns, id)
    decreases |es|
  {
    var n := |es| - 1;
    if i == n {
      ExecKeeps(limit, es[..n]);
      ClosingIsGone(Exec(Init(limit), es[..n]), es[n], id);
    } else {
      assert es[..n][..i] == es[..i];
      ClosedForGood(limit, es[..n], i, id);
      ApplyGone(Exec(Init(limit), es[..n]), es[n], id);
    }
  }

  // ---------------------------------------------------------------- connections that are kept

  /** The deques and holders of `c'` are those of `c`, but for the deque of `k`. */
  ghost predicate OnlyIdleOf(c: Conns, c': Conns, k: Key) {
    forall l :: l != k ==> Lookup(c'.idle, l) == Lookup(c.idle, l)
  }

  /** A connection that is released to be kept is the last of its key's deque, and nobody holds it. */
  lemma KeptIsLast(s: State, id: ConnId)
    requires id in s.conns.held
    ensures var (c, c', k) := (s.conns, Apply(s, Release(id, false)).conns, s.conns.held[id]);
      && Lookup(c'.idle, k) == Lookup(c.idle, k) + [id] && OnlyIdleOf(c, c', k)
      && c'.held == c.held - {id}
  {}

  /**
    A dial that connects gives its connection, which is a new one, to the caller it was made for; if that caller is
    gone it is the last of its key's deque, and if the pool is stopped it is nowhere.
  */
  lemma DialledLands(s: State, d: Dial)
    requires ConnInv(s.conns) && d in s.conns.dials
    ensures var (c, c', id) := (s.conns, Apply(s, DialOk(d)).conns, s.conns.nextConn);
      if s.stopped then c'.held == c.held && c'.idle == c.idle
      else if d.waiter in s.queues.canceled then
        c'.held == c.held && Lookup(c'.idle, d.key) == Lookup(c.idle, d.key) + [id] && OnlyIdleOf(c, c', d.key)
      else
        c'.held == c.held[id := d.key] && c'.idle == c.idle && id !in c.held
  {
    if !s.stopped && d.waiter in s.queues.canceled {
      var c1 := Consume(s.conns, d);
      assert c1.held - {s.conns.nextConn} == s.conns.held;
    }
  }

  // ---------------------------------------------------------------- what a caller gets

  predicate Room(c: Conns) {
    c.limit == 0 || c.acquired < c.limit
  }

  /** Position `n` of a deque holds its last usable connection, or is its length if there is none. */
  ghost predicate LastUsable(line: seq<ConnId>, usable: ConnId -> bool, n: nat) {
    if n < |line| then usable(line[n]) && forall i :: n < i < |line| ==> !usable(line[i])
    else n == |line| && forall i :: 0 <= i < |line| ==> !usable(line[i])
  }

  /**
    What a caller gets. With the limit reached it queues and nothing else happens. Otherwise it gets the most recently
    used connection of its key that is usable, and those behind it are thrown away; if there is none it dials, unless
    there is a dial for the key already, behind which it queues.
  */
  lemma CallerGets(s: State, k: Key, usable: ConnId -> bool) returns (n: nat)
    ensures var (c, c', q, q', w) :=
        (s.conns, Apply(s, Call(k, usable)).conns, s.queues, Apply(s, Call(k, usable)).queues, s.queues.nextWaiter);
      var line := Lookup(c.idle, k);
      && LastUsable(line, usable, n) && OnlyIdleOf(c, c', k) && q'.nextWaiter == w + 1
      && (Room(c) && n < |line| ==>
            && c'.held == c.held[line[n] := k] && Lookup(c'.idle, k) == line[..n]
            && c'.dials == c.dials && q'.waiters == q.waiters)
      && (Room(c) && n == |line| ==> c'.held == c.held && Lookup(c'.idle, k) == [])
      && (Room(c) && n == |line| && k !in c.connecting ==>
            c'.dials == c.dials + {Dial(k, w)} && q'.waiters == q.waiters)
      && (!Room(c) ==> c' == c)
      && (!Room(c) || (n == |line| && k in c.connecting) ==>
            c'.dials == c.dials && q'.waiters == q.waiters[k := Lookup(q.waiters, k) + [w]])
  {
    var line := Lookup(s.conns.idle, k);
    PopUsablePrefix(line, usable);
    var (found, rest) := PopUsable(line, usable);
    n := if found.Some? then |rest| else |line|;
  }

  // ---------------------------------------------------------------- the next caller finds it

  /** The event can take from or add to the deque of `k`. */
  predicate Touches(s: State, e: Event, k: Key) {
    match e
    case Call(l, _) => l == k
    case Support(_, _) => k in s.queues.waiters
    case Release(conn, close) => conn in s.conns.held && s.conns.held[conn] == k && !close
    case DialOk(d) => d.key == k
    case _ => false
  }

  /** No event of `more` touches the deque of `k`. */
  predicate Untouched(s: State, more: seq<Event>, k: Key) {
    more != [] ==>
      var before := more[..|more| - 1];
      Untouched(s, before, k) && !Touches(Exec(s, before), more[|more| - 1], k)
  }

  lemma AcquireElsewhere(c: Conns, k: Key, usable: ConnId -> bool, w: WaiterId)
    ensures OnlyIdleOf(c, AcquireFor(c, k, usable, w).1, k)
  {}

  lemma {:induction false} ServeKeyElsewhere(c: Conns, q: Queues, k: Key, usable: ConnId -> bool)
    requires k in q.waiters
    ensures OnlyIdleOf(c, ServeKey(c, q, k, usable).0, k)
    decreases |q.waiters[k]|
  {
    var line := q.waiters[k];
    if line == [] {
    } else if line[0] in q.canceled {
      ServeKeyElsewhere(c, PopFront(q, k), k, usable);
    } else {
      AcquireElsewhere(c, k, usable, line[0]);
      var (o, c1) := AcquireFor(c, k, usable, line[0]);
      if !o.NotAvailable? {
        ServeKeyElsewhere(c1, ServeFront(q, k), k, usable);
      }
    }
  }

  lemma {:induction false} ServeKeysElsewhere(c: Conns, q: Queues, order: seq<Key>, usable: ConnId -> bool, l: Key)
    requires (forall k :: k in order ==> k in q.waiters) && l !in order
    ensures Lookup(ServeKeys(c, q, order, usable).0.idle, l) == Lookup(c.idle, l)
    decreases |order|
  {
    if order != [] {
      ServeKeyElsewhere(c, q, order[0], usable);
      var (c1, q1) := ServeKey(c, q, order[0], usable);
      ServeKeysElsewhere(c1, q1, order[1..], usable, l);
    }
  }

  lemma ReturnElsewhere(c: Conns, conn: ConnId, keep: bool, k: Key)
    requires conn in c.held && (keep ==> c.held[conn] != k)
    ensures Lookup(Return(c, conn, keep).idle, k) == Lookup(c.idle, k)
  {}

  lemma ConnectedElsewhere(s: State, d: Dial, k: Key)
    requires d.key != k
    ensures Lookup(Connected(s, d).conns.idle, k) == Lookup(s.conns.idle, k)
  {
    if !s.stopped && d.waiter in s.queues.canceled {
      ReturnElsewhere(Consume(s.conns, d), s.conns.nextConn, true, k);
    }
  }

  lemma ApplyElsewhere(s: State, e: Event, k: Key)
    requires !Touches(s, e, k)
    ensures Lookup(Apply(s, e).conns.idle, k) == Lookup(s.conns.idle, k)
  {
    if Enabled(s, e) {
      match e
      case Call(l, usable) => AcquireElsewhere(s.conns, l, usable, s.queues.nextWaiter);
      case Support(order, usable) => ServeKeysElsewhere(s.conns, s.queues, order, usable, k);
      case Release(conn, close) => ReturnElsewhere(s.conns, conn, !close, k);
      case DropConn(conn) => ReturnElsewhere(s.conns, conn, false, k);
      case DialOk(d) => ConnectedElsewhere(s, d, k);
      case _ =>
    }
  }

  lemma {:induction false} DequeStays(s: State, more: seq<Event>, k: Key)
    requires Untouched(s, more, k)
    ensures Lookup(Exec(s, more).conns.idle, k) == Lookup(s.conns.idle, k)
  {
    if more != [] {
      DequeStays(s, more[..|more| - 1], k);
      ApplyElsewhere(Exec(s, more[..|more| - 1]), more[|more| - 1], k);
    }
  }

  lemma {:induction false} ExecAppend(s: State, es: seq<Event>, more: seq<Event>)
    ensures Exec(s, es + more) == Exec(Exec(s, es), more)
  {
    if more == [] {
      assert es + more == es;
    } else {
      ExecAppend(s, es, more[..|more| - 1]);
      ExecStep(s, es + more[..|more| - 1], more[|more| - 1]);
      assert es + more == es + more[..|more| - 1] + [more[|more| - 1]];
    }
  }

  lemma LastIsFound(t: State, k: Key, id: ConnId, usable: ConnId -> bool)
    requires var line := Lookup(t.conns.idle, k); line != [] && line[|line| - 1] == id
    requires ConnInv(t.conns) && Room(t.conns)
    ensures var held := Apply(t, Call(k, usable)).conns.held;
      if usable(id) then held == t.conns.held[id := k] else id !in held
  {
    var line := Lookup(t.conns.idle, k);
    var n := CallerGets(t, k, usable);
    assert line[|line| - 1] !in t.conns.held;
  }

  /**
    A connection that was released to be kept goes to the next caller of its key for whom there is room, if and only
    if it is still usable, whatever happened to other keys in between.
  */
  lemma ReleasedIsFound(limit: nat, es: seq<Event>, id: ConnId, more: seq<Event>, usable: ConnId -> bool)
    requires id in Exec(Init(limit), es).conns.held
    requires Untouched(Exec(Init(limit), es + [Release(id, false)]), more, Exec(Init(limit), es).conns.held[id])
    requires Room(Exec(Init(limit), es + [Release(id, false)] + more).conns)
    ensures var (t, k) := (Exec(Init(limit), es + [Release(id, false)] + more), Exec(Init(limit), es).conns.held[id]);
      var held := Apply(t, Call(k, usable)).conns.held;
      if usable(id) then held == t.conns.held[id := k] else id !in held
  {
    var s := Exec(Init(limit), es);
    var k := s.conns.held[id];
    KeptIsLast(s, id);
    ExecStep(Init(limit), es, Release(id, false));
    var s1 := Exec(Init(limit), es + [Release(id, false)]);
    ExecAppend(Init(limit), es + [Release(id, false)], more);
    ExecKeeps(limit, es + [Release(id, false)] + more);
    DequeStays(s1, more, k);
    LastIsFound(Exec(s1, more), k, id, usable);
  }

  // ---------------------------------------------------------------- what a turn of the support task hands out

  /** The part of the pool that belongs to one key. */
  datatype Part = Part(idle: seq<ConnId>, held: set<ConnId>, served: seq<WaiterId>, dials: set<Dial>)

  ghost function DialsFor(dials: set<Dial>, k: Key): set<Dial> {
    set d | d in dials && d.key == k
  }

  ghost function PartOf(c: Conns, q: Queues, k: Key): Part {
    Part(Lookup(c.idle, k), HeldFor(c.held, k), Lookup(q.served, k), DialsFor(c.dials, k))
  }

  /** The usable connections of a deque from position `n` on. */
  ghost function Taken(line: seq<ConnId>, n: nat, usable: ConnId -> bool): set<ConnId>
    requires n <= |line|
  {
    set id | id in line[n..] && usable(id)
  }

  /**
    From `p` to `p'`: the deque lost its end, of which the usable connections are now held; and for every waiter that
    was served there is one connection more in use, or one dial more, made for such a waiter.
  */
  ghost predicate HandedOut(p: Part, p': Part, usable: ConnId -> bool, n: nat) {
    FromDeque(p, p', usable, n) && ToWaiters(p, p')
  }

  ghost predicate FromDeque(p: Part, p': Part, usable: ConnId -> bool, n: nat) {
    n <= |p.idle| && p'.idle == p.idle[..n] && p'.held == p.held + Taken(p.idle, n, usable)
  }

  ghost predicate ToWaiters(p: Part, p': Part) {
    && p.served <= p'.served && p.dials <= p'.dials
    && |p'.served| - |p.served| == |p'.held| - |p.held| + |p'.dials| - |p.dials|
    && (forall d :: d in p'.dials && d !in p.dials ==> d.waiter in p'.served[|p.served|..])
  }

  lemma TakenMore(line: seq<ConnId>, n: nat, m: nat, usable: ConnId -> bool)
    requires m <= n <= |line|
    ensures Taken(line, m, usable) == Taken(line, n, usable) + Taken(line[..n], m, usable)
  {
    assert line[m..] == line[..n][m..] + line[n..];
  }

  lemma HandedTwice(p: Part, p1: Part, p2: Part, usable: ConnId -> bool, n: nat, m: nat)
    requires HandedOut(p, p1, usable, n) && HandedOut(p1, p2, usable, m)
    ensures HandedOut(p, p2, usable, m)
  {
    FromDequeTwice(p, p1, p2, usable, n, m);
    ToWaitersTwice(p, p1, p2);
  }

  lemma FromDequeTwice(p: Part, p1: Part, p2: Part, usable: ConnId -> bool, n: nat, m: nat)
    requires FromDeque(p, p1, usable, n) && FromDeque(p1, p2, usable, m)
    ensures FromDeque(p, p2, usable, m)
  {
    TakenMore(p.idle, n, m, usable);
  }

  lemma ToWaitersTwice(p: Part, p1: Part, p2: Part)
    requires ToWaiters(p, p1) && ToWaiters(p1, p2)
    ensures ToWaiters(p, p2)
  {
    forall d | d in p2.dials && d !in p.dials ensures d.waiter in p2.served[|p.served|..] {
      LaterServed(p.served, p1.served, p2.served, d.waiter);
    }
  }

  lemma LaterServed(a: seq<WaiterId>, b: seq<WaiterId>, c: seq<WaiterId>, w: WaiterId)
    requires a <= b <= c
    ensures w in b[|a|..] || w in c[|b|..] ==> w in c[|a|..]
  {
    assert c[|a|..] == b[|a|..] + c[|b|..];
  }

  lemma NothingHanded(p: Part, usable: ConnId -> bool)
    ensures HandedOut(p, p, usable, |p.idle|)
  {
    assert Taken(p.idle, |p.idle|, usable) == {};
    assert p.idle[..|p.idle|] == p.idle;
  }

  lemma GrantHands(p: Part, id: ConnId, w: WaiterId, usable: ConnId -> bool, n: nat)
    requires n < |p.idle| && p.idle[n] == id && usable(id) && id !in p.held
    requires forall i :: n < i < |p.idle| ==> !usable(p.idle[i])
    ensures HandedOut(p, p.(idle := p.idle[..n], held := p.held + {id}, served := p.served + [w]), usable, n)
  {
    assert p.idle[n..] == [id] + p.idle[n + 1..];
    assert forall x :: x in p.idle[n + 1..] ==> !usable(x);
    assert Taken(p.idle, n, usable) == {id};
  }

  lemma DialHands(p: Part, d: Dial, usable: ConnId -> bool)
    requires d !in p.dials && forall i :: 0 <= i < |p.idle| ==> !usable(p.idle[i])
    ensures HandedOut(p, p.(idle := [], dials := p.dials + {d}, served := p.served + [d.waiter]), usable, 0)
  {
    assert Taken(p.idle, 0, usable) == {};
    assert (p.served + [d.waiter])[|p.served|..] == [d.waiter];
  }

  lemma WaitHands(p: Part, usable: ConnId -> bool)
    requires forall i :: 0 <= i < |p.idle| ==> !usable(p.idle[i])
    ensures HandedOut(p, p.(idle := []), usable, 0)
  {
    assert Taken(p.idle, 0, usable) == {};
  }

  lemma PartGrant(c: Conns, q: Queues, k: Key, n: nat, id: ConnId)
    requires k in q.waiters && q.waiters[k] != [] && n <= |Lookup(c.idle, k)| && k in c.idle
    ensures var p := PartOf(c, q, k);
      PartOf(Grant(c.(idle := c.idle[k := p.idle[..n]]), k, id), ServeFront(q, k), k) ==
        p.(idle := p.idle[..n], held := p.held + {id}, served := p.served + [q.waiters[k][0]])
  {
    assert HeldFor(c.held[id := k], k) == HeldFor(c.held, k) + {id};
  }

  lemma PartDial(c: Conns, q: Queues, k: Key)
    requires k in q.waiters && q.waiters[k] != []
    ensures var (p, d) := (PartOf(c, q, k), Dial(k, q.waiters[k][0]));
      PartOf(OpenDial(c, k, d.waiter), ServeFront(q, k), k) ==
        p.(dials := p.dials + {d}, served := p.served + [d.waiter])
  {
    var d := Dial(k, q.waiters[k][0]);
    assert DialsFor(c.dials + {d}, k) == DialsFor(c.dials, k) + {d};
  }

  /** What `acquire` does to the deque of its key. */
  function Cut(c: Conns, k: Key, rest: seq<ConnId>): Conns {
    if k in c.idle then c.(idle := c.idle[k := rest]) else c
  }

  lemma FrontGranted(c: Conns, q: Queues, k: Key, usable: ConnId -> bool, n: nat)
    requires ConnInv(c) && k in q.waiters && q.waiters[k] != [] && k in c.idle
    requires n < |Lookup(c.idle, k)| && LastUsable(Lookup(c.idle, k), usable, n)
    ensures var line := Lookup(c.idle, k);
      HandedOut(PartOf(c, q, k), PartOf(Grant(Cut(c, k, line[..n]), k, line[n]), ServeFront(q, k), k), usable, n)
  {
    var line, p := Lookup(c.idle, k), PartOf(c, q, k);
    assert line[n] !in c.held;
    GrantHands(p, line[n], q.waiters[k][0], usable, n);
    PartGrant(c, q, k, n, line[n]);
  }

  lemma FrontDials(c: Conns, q: Queues, k: Key, usable: ConnId -> bool)
    requires ConnInv(c) && k in q.waiters && q.waiters[k] != [] && k !in c.connecting
    requires LastUsable(Lookup(c.idle, k), usable, |Lookup(c.idle, k)|)
    ensures var c1 := OpenDial(Cut(c, k, []), k, q.waiters[k][0]);
      HandedOut(PartOf(c, q, k), PartOf(c1, ServeFront(q, k), k), usable, 0)
  {
    assert Dial(k, q.waiters[k][0]) !in c.dials;
    DialHands(PartOf(c, q, k), Dial(k, q.waiters[k][0]), usable);
    PartDial(Cut(c, k, []), q, k);
  }

  lemma FrontWaits(c: Conns, q: Queues, k: Key, usable: ConnId -> bool)
    requires LastUsable(Lookup(c.idle, k), usable, |Lookup(c.idle, k)|)
    ensures HandedOut(PartOf(c, q, k), PartOf(Cut(c, k, []), q, k), usable, 0)
  {
    WaitHands(PartOf(c, q, k), usable);
  }

  /** Serving the front waiter of a queue, or finding that it must wait. */
  lemma FrontHands(c: Conns, q: Queues, k: Key, usable: ConnId -> bool) returns (n: nat)
    requires ConnInv(c) && k in q.waiters && q.waiters[k] != []
    ensures var (o, c1) := AcquireFor(c, k, usable, q.waiters[k][0]);
      HandedOut(PartOf(c, q, k), PartOf(c1, if o.NotAvailable? then q else ServeFront(q, k), k), usable, n)
  {
    var line, w, p := Lookup(c.idle, k), q.waiters[k][0], PartOf(c, q, k);
    PopUsablePrefix(line, usable);
    var (found, rest) := PopUsable(line, usable);
    var (o, c1) := AcquireFor(c, k, usable, w);
    if !Room(c) {
      NothingHanded(p, usable);
      n := |line|;
    } else if found.Some? {
      n := |rest|;
      FrontGranted(c, q, k, usable, n);
      assert c1 == Grant(Cut(c, k, line[..n]), k, line[n]);
    } else if k in c.connecting {
      n := 0;
      FrontWaits(c, q, k, usable);
      assert c1 == Cut(c, k, []);
    } else {
      n := 0;
      FrontDials(c, q, k, usable);
      assert c1 == OpenDial(Cut(c, k, []), k, w);
    }
  }

  lemma {:induction false} QueueHands(c: Conns, q: Queues, k: Key, usable: ConnId -> bool) returns (n: nat)
    requires ConnInv(c) && k in q.waiters
    ensures var (c', q') := ServeKey(c, q, k, usable); HandedOut(PartOf(c, q, k), PartOf(c', q', k), usable, n)
    decreases |q.waiters[k]|
  {
    var line, p := q.waiters[k], PartOf(c, q, k);
    if line == [] {
      NothingHanded(p, usable);
      n := |p.idle|;
    } else if line[0] in q.canceled {
      n := QueueHands(c, PopFront(q, k), k, usable);
    } else {
      AcquireForKeeps(c, k, usable, line[0]);
      n := FrontHands(c, q, k, usable);
      var (o, c1) := AcquireFor(c, k, usable, line[0]);
      if !o.NotAvailable? {
        var m := QueueHands(c1, ServeFront(q, k), k, usable);
        var (c', q') := ServeKey(c, q, k, usable);
        HandedTwice(p, PartOf(c1, ServeFront(q, k), k), PartOf(c', q', k), usable, n, m);
        n := m;
      }
    }
  }

  /** A key's queue leaves the parts of other keys alone. */
  lemma {:induction false} QueueApart(c: Conns, q: Queues, k: Key, usable: ConnId -> bool, l: Key)
    requires ConnInv(c) && k in q.waiters && l != k
    ensures var (c', q') := ServeKey(c, q, k, usable); PartOf(c', q', l) == PartOf(c, q, l)
    decreases |q.waiters[k]|
  {
    var line := q.waiters[k];
    if line == [] {
    } else if line[0] in q.canceled {
      QueueApart(c, PopFront(q, k), k, usable, l);
    } else {
      AcquireForKeeps(c, k, usable, line[0]);
      AcquireApart(c, q, k, usable, line[0], l);
      var (o, c1) := AcquireFor(c, k, usable, line[0]);
      if !o.NotAvailable? {
        QueueApart(c1, ServeFront(q, k), k, usable, l);
      }
    }
  }

  lemma AcquireApart(c: Conns, q: Queues, k: Key, usable: ConnId -> bool, w: WaiterId, l: Key)
    requires ConnInv(c) && l != k
    ensures PartOf(AcquireFor(c, k, usable, w).1, q, l) == PartOf(c, q, l)
  {
    var line := Lookup(c.idle, k);
    PopUsablePrefix(line, usable);
    var (o, c1) := AcquireFor(c, k, usable, w);
    if o.Acquired? {
      assert line[|PopUsable(line, usable).1|] !in c.held;
    }
    assert HeldFor(c1.held, l) == HeldFor(c.held, l);
    assert DialsFor(c1.dials, l) == DialsFor(c.dials, l);
  }

  lemma {:induction false} QueuesHand(c: Conns, q: Queues, order: seq<Key>, usable: ConnId -> bool, k: Key)
    returns (n: nat)
    requires ConnInv(c) && QueueInv(q) && forall l :: l in order ==> l in q.waiters
    requires forall i, j :: 0 <= i < j < |order| ==> order[i] != order[j]
    ensures var (c', q') := ServeKeys(c, q, order, usable);
      && HandedOut(PartOf(c, q, k), PartOf(c', q', k), usable, n)
      && (k !in order ==> PartOf(c', q', k) == PartOf(c, q, k))
    decreases |order|
  {
    if order == [] {
      NothingHanded(PartOf(c, q, k), usable);
      n := |Lookup(c.idle, k)|;
    } else {
      ServeKeyKeeps(c, q, order[0], usable);
      var (c1, q1) := ServeKey(c, q, order[0], usable);
      n := QueuesHand(c1, q1, order[1..], usable, k);
      if order[0] == k {
        assert k !in order[1..];
        n := QueueHands(c, q, k, usable);
      } else {
        QueueApart(c, q, order[0], usable, k);
      }
    }
  }

  /**
    What a turn of the support task hands out, for every key and in every run: connections leave the end of the key's
    deque, all usable ones among them are now in use for the key, and as many of its waiters were served as there are
    connections in use and dials more than before, each new dial being for one of them.
  */
  lemma TurnHandsOut(limit: nat, es: seq<Event>, order: seq<Key>, usable: ConnId -> bool, k: Key) returns (n: nat)
    requires var s := Exec(Init(limit), es); Enabled(s, Support(order, usable)) && !s.stopped && !s.stopSignal
    ensures var (s, t) := (Exec(Init(limit), es), Exec(Init(limit), es + [Support(order, usable)]));
      HandedOut(PartOf(s.conns, s.queues, k), PartOf(t.conns, t.queues, k), usable, n)
  {
    var s := Exec(Init(limit), es);
    ExecKeeps(limit, es);
    ExecStep(Init(limit), es, Support(order, usable));
    n := QueuesHand(s.conns, s.queues, order, usable, k);
  }

  // ---------------------------------------------------------------- callers that left

  /** The caller has gone and nobody has served it. */
  ghost predicate LeftUnserved(q: Queues, w: WaiterId) {
    w in q.canceled && forall k :: w !in Lookup(q.served, k)
  }

  lemma {:induction false} ServeKeyLeft(c: Conns, q: Queues, k: Key, usable: ConnId -> bool, w: WaiterId)
    requires k in q.waiters && LeftUnserved(q, w)
    ensures LeftUnserved(ServeKey(c, q, k, usable).1, w)
    decreases |q.waiters[k]|
  {
    var line := q.waiters[k];
    if line == [] {
    } else if line[0] in q.canceled {
      ServeKeyLeft(c, PopFront(q, k), k, usable, w);
    } else {
      var (o, c1) := AcquireFor(c, k, usable, line[0]);
      if !o.NotAvailable? {
        FrontIsAnother(q, k, w);
        ServeKeyLeft(c1, ServeFront(q, k), k, usable, w);
      }
    }
  }

  lemma FrontIsAnother(q: Queues, k: Key, w: WaiterId)
    requires k in q.waiters && q.waiters[k] != [] && q.waiters[k][0] !in q.canceled && LeftUnserved(q, w)
    ensures LeftUnserved(ServeFront(q, k), w)
  {
    forall l ensures w !in Lookup(ServeFront(q, k).served, l) {
      assert w !in Lookup(q.served, l);
    }
  }

  lemma {:induction false} ServeKeysLeft(c: Conns, q: Queues, order: seq<Key>, usable: ConnId -> bool, w: WaiterId)
    requires (forall k :: k in order ==> k in q.waiters) && LeftUnserved(q, w)
    ensures LeftUnserved(ServeKeys(c, q, order, usable).1, w)
    decreases |order|
  {
    if order != [] {
      ServeKeyLeft(c, q, order[0], usable, w);
      var (c1, q1) := ServeKey(c, q, order[0], usable);
      ServeKeysLeft(c1, q1, order[1..], usable, w);
    }
  }

  lemma ApplyLeft(s: State, e: Event, w: WaiterId)
    requires LeftUnserved(s.queues, w)
    ensures LeftUnserved(Apply(s, e).queues, w)
  {
    if e.Support? && Enabled(s, e) && !(s.task.Parked? && (s.stopSignal || s.stopped)) {
      ServeKeysLeft(s.conns, s.queues, e.order, e.usable, w);
    } else {
      SameServed(s, e);
    }
  }

  lemma SameServed(s: State, e: Event)
    requires !(e.Support? && Enabled(s, e) && !(s.task.Parked? && (s.stopSignal || s.stopped)))
    ensures Apply(s, e).queues.served == s.queues.served && s.queues.canceled <= Apply(s, e).queues.canceled
  {
    if Enabled(s, e) {
      match e
      case Call(k, usable) =>
        var (o, c) := AcquireFor(s.conns, k, usable, s.queues.nextWaiter);
        AdmitServesNobody(s, k, o, c);
      case Release(conn, close) => GiveBackServesNobody(s, conn, !close);
      case DropConn(conn) => GiveBackServesNobody(s, conn, false);
      case DialOk(d) => ConnectedServesNobody(s, d);
      case _ =>
    }
  }

  predicate ServesNobody(q: Queues, q': Queues) {
    q'.served == q.served && q'.canceled == q.canceled
  }

  lemma AdmitServesNobody(s: State, k: Key, o: Acquire, c: Conns)
    ensures ServesNobody(s.queues, Admit(s, k, o, c).queues)
  {}

  lemma GiveBackServesNobody(s: State, conn: ConnId, keep: bool)
    requires conn in s.conns.held
    ensures ServesNobody(s.queues, GiveBack(s, conn, keep).queues)
  {}

  lemma ConnectedServesNobody(s: State, d: Dial)
    ensures ServesNobody(s.queues, Connected(s, d).queues)
  {
    if !s.stopped && d.waiter in s.queues.canceled {
      GiveBackServesNobody(s.(conns := Consume(s.conns, d)), s.conns.nextConn, true);
    }
  }

  /** A caller that goes away before it is served is never served, in any later state of the run. */
  lemma {:induction false} LeftForGood(limit: nat, es: seq<Event>, i: nat, w: WaiterId)
    requires i < |es| && es[i] == Cancel(w) && w < Exec(Init(limit), es[..i]).queues.nextWaiter
    requires forall k :: w !in Lookup(Exec(Init(limit), es[..i]).queues.served, k)
    ensures LeftUnserved(Exec(Init(limit), es).queues, w)
    decreases |es|
  {
    var n := |es| - 1;
    if i < n {
      assert es[..n][..i] == es[..i];
      LeftForGood(limit, es[..n], i, w);
      ApplyLeft(Exec(Init(limit), es[..n]), es[n], w);
    }
  }

  // ---------------------------------------------------------------- dials that fail, and the end of the pool

  /** A dial that fails frees its key for the next caller to dial again, and touches no connection. */
  lemma FailedDialFreesKey(s: State, d: Dial)
    requires d in s.conns.dials
    ensures var (c, c') := (s.conns, Apply(s, DialErr(d)).conns);
      d.key !in c'.connecting && c'.dials == c.dials - {d} && c'.held == c.held && c'.idle == c.idle
  {}

  lemma StopStep(s: State, e: Event)
    ensures e.Shutdown? || e.DropPool? || s.stopped ==> Apply(s, e).stopped
  {}

  /** Once the pool is shut down or dropped it stays stopped: no dial that ends brings a connection any more. */
  lemma {:induction false} StoppedForGood(limit: nat, es: seq<Event>, i: nat, d: Dial)
    requires i < |es| && (es[i].Shutdown? || es[i].DropPool?)
    ensures var s := Exec(Init(limit), es);
      s.stopped && Apply(s, DialOk(d)).conns.held == s.conns.held && Apply(s, DialOk(d)).conns.idle == s.conns.idle
    decreases |es|
  {
    var n := |es| - 1;
    StopStep(Exec(Init(limit), es[..n]), es[n]);
    if i < n {
      StoppedForGood(limit, es[..n], i, d);
    }
  }

  /** When the pool is dropped nobody waits any more, and the support task ends at its next turn. */
  lemma DroppedPoolEnds(s: State, usable: ConnId -> bool)
    ensures var t := Apply(s, DropPool);
      && t.queues.waiters == map[] && t.conns == s.conns
      && (t.task.Parked? ==> Apply(t, Support([], usable)) == t.(task := Finished))
  {}
}
