/**
  The client connection pool (`client/pool.rs`) as a state machine over values.

  Everything in the source runs on one thread, and control moves between tasks only
  at an `await`.  One event below is therefore one stretch of code between two awaits:
  a call, a finished dial, a released or dropped connection, a dropped caller, one pass
  of the support task, or the end of the pool.  The clock, the state of a socket and
  the iteration order of a hash map are inputs of the event.
*/
module ConnectionPool {
  import opened Basics

  /** The authority of the URI; authorities are only compared, so they are numbered. */
  type Key = nat
  type ConnId = nat
  /** Waiters are numbered in the order in which their channels are created. */
  type WaiterId = nat

  /** A spawned `open_connection` task with its `OpenGuard` and the sender it answers. */
  datatype Dial = Dial(key: Key, waiter: WaiterId)

  /** Where the support task is: it is either at its `select` or has ended. */
  datatype Task = NotStarted | Parked | Finished

  /**
    The connection fields of `Inner`, with the dial tasks and the live `Acquired` guards
    that refer to it.  A guard travels with its connection: `held` maps one to the key of the other.
  */
  datatype Conns = Conns(
    limit: nat,
    acquired: int,
    idle: map<Key, seq<ConnId>>,
    connecting: set<Key>,
    dials: set<Dial>,
    held: map<ConnId, Key>,
    nextConn: ConnId)

  /**
    `Waiters`, with the callers that have gone away.  `served` and `arrived` are history:
    the waiters that left a queue to be served, in that order, and every waiter ever queued.
  */
  datatype Queues = Queues(
    waiters: map<Key, seq<WaiterId>>,
    canceled: set<WaiterId>,
    nextWaiter: WaiterId,
    served: map<Key, seq<WaiterId>>,
    arrived: map<WaiterId, Key>,
    cleared: bool)

  datatype State = State(conns: Conns, queues: Queues, task: Task, wake: bool, stopSignal: bool, stopped: bool)

  datatype Acquire = Acquired(conn: ConnId) | Available | NotAvailable

  datatype Event =
    | Call(key: Key, usable: ConnId -> bool)
    | Cancel(waiter: WaiterId)
    | Release(conn: ConnId, close: bool)
    | DropConn(conn: ConnId)
    | DialOk(dial: Dial)
    | DialErr(dial: Dial)
    | Support(order: seq<Key>, usable: ConnId -> bool)
    | Shutdown
    | DropPool

  function Lookup<V>(m: map<Key, seq<V>>, k: Key): seq<V> {
    if k in m then m[k] else []
  }

  function Init(limit: nat): State {
    State(Conns(limit, 0, map[], {}, {}, map[], 0), Queues(map[], {}, 0, map[], map[], false),
          NotStarted, false, false, false)
  }

  // ---------------------------------------------------------------- connections

  /** `pop_back` until a connection passes the checks; the others are discarded. */
  function PopUsable(conns: seq<ConnId>, usable: ConnId -> bool): (r: (Option<ConnId>, seq<ConnId>)) {
    if conns == [] then (None, [])
    else
      var last := conns[|conns| - 1];
      var rest := conns[..|conns| - 1];
      if usable(last) then (Some(last), rest) else PopUsable(rest, usable)
  }

  /** `Inner::acquire` */
  function TryAcquire(c: Conns, k: Key, usable: ConnId -> bool): (Acquire, Conns) {
    if c.limit > 0 && c.acquired >= c.limit then (NotAvailable, c)
    else
      var (found, rest) := PopUsable(Lookup(c.idle, k), usable);
      var c1 := if k in c.idle then c.(idle := c.idle[k := rest]) else c;
      match found
      case Some(conn) => (Acquired(conn), c1)
      case None => (if k in c.connecting then NotAvailable else Available, c1)
  }

  /** `Acquired::new` for a connection that is handed out. */
  function Grant(c: Conns, k: Key, conn: ConnId): Conns {
    c.(acquired := c.acquired + 1, held := c.held[conn := k])
  }

  /** `open_connection`: `OpenGuard::new` and the spawned dial. */
  function OpenDial(c: Conns, k: Key, w: WaiterId): Conns {
    c.(connecting := c.connecting + {k}, dials := c.dials + {Dial(k, w)})
  }

  /** What both callers of `acquire` do with its answer. */
  function Settle(o: Acquire, c: Conns, k: Key, w: WaiterId): Conns {
    match o
    case NotAvailable => c
    case Acquired(conn) => Grant(c, k, conn)
    case Available => OpenDial(c, k, w)
  }

  function AcquireFor(c: Conns, k: Key, usable: ConnId -> bool, w: WaiterId): (Acquire, Conns) {
    var (o, c1) := TryAcquire(c, k, usable);
    (o, Settle(o, c1, k, w))
  }

  /** The guard of `conn` ends; the connection goes back to the pool or is closed. */
  function Return(c: Conns, conn: ConnId, keep: bool): Conns
    requires conn in c.held
  {
    var k := c.held[conn];
    var c1 := c.(acquired := c.acquired - 1, held := c.held - {conn});
    if keep then c1.(idle := c1.idle[k := Lookup(c1.idle, k) + [conn]]) else c1
  }

  function CloseDial(c: Conns, d: Dial): Conns {
    c.(connecting := c.connecting - {d.key}, dials := c.dials - {d})
  }

  /** `OpenGuard::consume` for a new connection. */
  function Consume(c: Conns, d: Dial): Conns {
    Grant(CloseDial(c, d).(nextConn := c.nextConn + 1), d.key, c.nextConn)
  }

  // ---------------------------------------------------------------- queues

  /** `Waiters::wait_for` */
  function Enqueue(q: Queues, k: Key, w: WaiterId): Queues {
    q.(waiters := q.waiters[k := Lookup(q.waiters, k) + [w]], arrived := q.arrived[w := k])
  }

  function DropCanceled(q: seq<WaiterId>, canceled: set<WaiterId>): seq<WaiterId> {
    if q != [] && q[0] in canceled then DropCanceled(q[1..], canceled) else q
  }

  function CleanWaiters(ws: map<Key, seq<WaiterId>>, canceled: set<WaiterId>): map<Key, seq<WaiterId>> {
    map k | k in ws && DropCanceled(ws[k], canceled) != [] :: DropCanceled(ws[k], canceled)
  }

  /** `Waiters::cleanup` */
  function Cleanup(q: Queues): Queues {
    q.(waiters := CleanWaiters(q.waiters, q.canceled))
  }

  /** The front waiter of `k` leaves the queue. */
  function PopFront(q: Queues, k: Key): Queues
    requires k in q.waiters && q.waiters[k] != []
  {
    q.(waiters := q.waiters[k := q.waiters[k][1..]])
  }

  /** The front waiter of `k` leaves the queue to be served. */
  function ServeFront(q: Queues, k: Key): Queues
    requires k in q.waiters && q.waiters[k] != []
  {
    PopFront(q, k).(served := q.served[k := Lookup(q.served, k) + [q.waiters[k][0]]])
  }

  // ---------------------------------------------------------------- the pool

  /** `Inner::check_availibility` */
  function CheckAvailability(s: State): State {
    var q := Cleanup(s.queues);
    s.(queues := q, wake := s.wake || (|q.waiters| > 0 && s.conns.acquired < s.conns.limit))
  }

  /** The `while let Some(..) = waiters.front()` loop of the support task for one key. */
  function ServeKey(c: Conns, q: Queues, k: Key, usable: ConnId -> bool): (r: (Conns, Queues))
    requires k in q.waiters
    ensures r.1.waiters.Keys == q.waiters.Keys
    decreases |q.waiters[k]|
  {
    var line := q.waiters[k];
    if line == [] then (c, q)
    else if line[0] in q.canceled then ServeKey(c, PopFront(q, k), k, usable)
    else
      var (o, c1) := AcquireFor(c, k, usable, line[0]);
      if o.NotAvailable? then (c1, q) else ServeKey(c1, ServeFront(q, k), k, usable)
  }

  function ServeKeys(c: Conns, q: Queues, order: seq<Key>, usable: ConnId -> bool): (r: (Conns, Queues))
    requires forall k :: k in order ==> k in q.waiters
    decreases |order|
  {
    if order == [] then (c, q)
    else
      var (c1, q1) := ServeKey(c, q, order[0], usable);
      ServeKeys(c1, q1, order[1..], usable)
  }

  /** One turn of the support task: it wakes, ends if told to, and serves every queue. */
  function SupportPass(s: State, order: seq<Key>, usable: ConnId -> bool): State
    requires forall k :: k in order ==> k in s.queues.waiters
  {
    if s.task.Parked? && (s.stopSignal || s.stopped) then s.(task := Finished)
    else
      var (c1, q1) := ServeKeys(s.conns, s.queues, order, usable);
      s.(conns := c1, queues := Cleanup(q1), task := Parked, wake := s.wake && s.task.NotStarted?)
  }

  /** `Acquired::release`; with `keep` false also `Drop for Acquired`. */
  function GiveBack(s: State, conn: ConnId, keep: bool): State
    requires conn in s.conns.held
  {
    CheckAvailability(s.(conns := Return(s.conns, conn, keep)))
  }

  /** `Drop for OpenGuard` */
  function DropGuard(s: State, d: Dial): State {
    CheckAvailability(s.(conns := CloseDial(s.conns, d)))
  }

  /** A dial that connected (the `Ok` arm of `open_connection`). */
  function Connected(s: State, d: Dial): State {
    if s.stopped then DropGuard(s, d)
    else
      var s1 := s.(conns := Consume(s.conns, d));
      CheckAvailability(if d.waiter in s.queues.canceled then GiveBack(s1, s.conns.nextConn, true) else s1)
  }

  /** The caller has its answer `o`: it waits in the queue, or for its own dial, or has a connection. */
  function Admit(s: State, k: Key, o: Acquire, c: Conns): State {
    var w := s.queues.nextWaiter;
    var q := s.queues.(nextWaiter := w + 1);
    s.(conns := c, queues := if o.NotAvailable? then Enqueue(q, k, w) else q)
  }

  /** `ConnectionPool::call` up to its first await. */
  function NewCall(s: State, k: Key, usable: ConnId -> bool): State {
    var (o, c) := AcquireFor(s.conns, k, usable, s.queues.nextWaiter);
    Admit(s, k, o, c)
  }

  predicate Enabled(s: State, e: Event) {
    match e
    case Call(_, _) => true
    case Cancel(w) => w < s.queues.nextWaiter
    case Release(conn, _) => conn in s.conns.held
    case DropConn(conn) => conn in s.conns.held
    case DialOk(d) => d in s.conns.dials
    case DialErr(d) => d in s.conns.dials
    case Support(order, _) =>
      && (s.task.NotStarted? || (s.task.Parked? && (s.wake || s.stopSignal)))
      && (forall k :: k in order ==> k in s.queues.waiters)
      && (forall k :: k in s.queues.waiters ==> k in order)
      && (forall i, j :: 0 <= i < j < |order| ==> order[i] != order[j])
    case Shutdown => true
    case DropPool => true
  }

  /** The effect of an event; an event that cannot happen in `s` changes nothing. */
  function Apply(s: State, e: Event): State {
    if !Enabled(s, e) then s
    else
      match e
      case Call(k, usable) => NewCall(s, k, usable)
      case Cancel(w) => s.(queues := s.queues.(canceled := s.queues.canceled + {w}))
      case Release(conn, close) => GiveBack(s, conn, !close)
      case DropConn(conn) => GiveBack(s, conn, false)
      case DialOk(d) => Connected(s, d)
      case DialErr(d) => DropGuard(s, d)
      case Support(order, usable) => SupportPass(s, order, usable)
      case Shutdown => s.(stopSignal := true, stopped := true)
      case DropPool =>
        s.(stopSignal := true, stopped := true, wake := true, queues := s.queues.(waiters := map[], cleared := true))
  }

  function Exec(s: State, es: seq<Event>): State {
    if es == [] then s else Apply(Exec(s, es[..|es| - 1]), es[|es| - 1])
  }

  // ---------------------------------------------------------------- invariants

  ghost function HeldFor(held: map<ConnId, Key>, k: Key): set<ConnId> {
    set c | c in held && held[c] == k
  }

  /** In use, idle and being dialled, for one key. */
  ghost function Total(c: Conns, k: Key): nat {
    |HeldFor(c.held, k)| + |Lookup(c.idle, k)| + if k in c.connecting then 1 else 0
  }

  /** `connecting` holds the keys of the open dials, and no key is dialled twice. */
  ghost predicate DialsMatch(dials: set<Dial>, connecting: set<Key>) {
    && (forall d :: d in dials ==> d.key in connecting)
    && (forall k :: k in connecting ==> exists d :: d in dials && d.key == k)
    && (forall d, e :: d in dials && e in dials && d.key == e.key ==> d == e)
  }

  /** A connection is in one place only: with one holder, or in one slot of one deque. */
  ghost predicate Exclusive(held: map<ConnId, Key>, idle: map<Key, seq<ConnId>>, nextConn: ConnId) {
    && (forall c :: c in held ==> c < nextConn)
    && (forall k, i :: k in idle && 0 <= i < |idle[k]| ==> idle[k][i] < nextConn && idle[k][i] !in held)
    && (forall k, l, i, j | k in idle && l in idle && 0 <= i < |idle[k]| && 0 <= j < |idle[l]| ::
          idle[k][i] == idle[l][j] ==> k == l && i == j)
  }

  ghost predicate Bounded(c: Conns) {
    c.limit > 0 ==> forall k :: Total(c, k) <= c.limit
  }

  /** Connections: the counter is the number of live guards, and the per-key bound holds. */
  ghost predicate ConnInv(c: Conns) {
    && c.acquired == |c.held|
    && DialsMatch(c.dials, c.connecting)
    && Exclusive(c.held, c.idle, c.nextConn)
    && Bounded(c)
  }

  predicate Increasing(q: seq<WaiterId>) {
    forall i, j :: 0 <= i < j < |q| ==> q[i] < q[j]
  }

  /** The waiters of one key: first those already served, then those still queued. */
  ghost function Line(q: Queues, k: Key): seq<WaiterId> {
    Lookup(q.served, k) + Lookup(q.waiters, k)
  }

  /** A line is in order of arrival and names only waiters queued under its key. */
  ghost predicate LineOk(line: seq<WaiterId>, k: Key, arrived: map<WaiterId, Key>) {
    Increasing(line) && forall w :: w in line ==> w in arrived && arrived[w] == k
  }

  /** Every queued waiter is still queued, was served, or was dropped after its caller left. */
  ghost predicate NoneLost(q: Queues) {
    !q.cleared ==> forall w :: w in q.arrived ==> w in Line(q, q.arrived[w]) || w in q.canceled
  }

  /** Waiters: none is lost and they are served in order. */
  ghost predicate QueueInv(q: Queues) {
    && (forall w :: w in q.arrived ==> w < q.nextWaiter)
    && (forall k :: LineOk(Line(q, k), k, q.arrived))
    && NoneLost(q)
  }

  ghost predicate NonEmptyQueues(q: Queues) {
    forall k :: k in q.waiters ==> q.waiters[k] != []
  }

  ghost predicate Live(q: Queues, k: Key, w: WaiterId) {
    w in Lookup(q.waiters, k) && w !in q.canceled
  }

  /** Why a live waiter of `k` has to wait: the pool is full, or a dial is on its way and nothing is idle. */
  ghost predicate MustWait(c: Conns, k: Key) {
    || (c.limit > 0 && c.acquired >= c.limit)
    || (k in c.connecting && Lookup(c.idle, k) == [])
  }

  ghost predicate AllMustWait(c: Conns, q: Queues) {
    forall k, w :: Live(q, k, w) ==> MustWait(c, k)
  }

  /** Nothing will run the support task by itself. */
  predicate Asleep(s: State) {
    s.task.Parked? && !s.wake && !s.stopSignal
  }

  ghost predicate NoLostWakeup(s: State) {
    Asleep(s) ==> AllMustWait(s.conns, s.queues)
  }

  ghost predicate Inv(s: State) {
    && ConnInv(s.conns)
    && QueueInv(s.queues)
    && NonEmptyQueues(s.queues)
    && (s.conns.limit > 0 ==> NoLostWakeup(s))
  }
}
