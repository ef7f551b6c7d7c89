/**
  Response tickets (`responder.rs`): per-worker tables of unanswered and streaming tickets, a mailbox through which
  other threads reach them, and the numbers that name them.
*/
module Responder {
  import opened Basics

  const TWO_32: nat := 0x1_0000_0000
  /** How many different local numbers there are. */
  const LOCALS: nat := TWO_32 - 1

  type Id = nat
  type Chunk = seq<int>

  /** What the host asks for: a whole reply, a stream made elsewhere, or a body opened, extended and closed. */
  datatype Op = Once(reply: nat) | Stream(reply: nat) | Begin(head: nat) | Write(chunk: Chunk) | Finish

  datatype Reply = Whole(reply: nat) | Opened(head: nat)

  /** An operation the worker has carried out, what it answered, and whether it came through the mailbox. */
  datatype Entry = Entry(id: Id, op: Op, sent: bool, foreign: bool)

  /** `PENDING` and `STREAMING`; and, per ticket, the replies handed over and the bytes of its body. */
  datatype Tables = Tables(pending: set<Id>, streaming: set<Id>, replies: map<Id, seq<Reply>>,
                           bodies: map<Id, seq<Chunk>>)

  /** Where in the log a body was opened and closed. */
  datatype History = History(log: seq<Entry>, begun: map<Id, nat>, ended: map<Id, nat>)

  datatype Worker = Worker(next: nat, count: nat, tables: Tables, hist: History, mailbox: Option<seq<(Id, Op)>>,
      posted: seq<(Id, Op)>)

  const NEW_WORKER := Worker(1, 0, Tables({}, {}, map[], map[]), History([], map[], map[]), None, [])

  // ---------------------------------------------------------------- numbers

  /** `wrapping_add(1).max(1)` */
  function NextLocal(v: nat): nat {
    var n := (v + 1) % TWO_32;
    if n > 1 then n else 1
  }

  /** `(worker << 32) | local` */
  function IdOf(worker: nat, local: nat): Id {
    worker * TWO_32 + local
  }

  /** `(id >> 32) as u32` */
  function WorkerOf(id: Id): nat {
    id / TWO_32 % TWO_32
  }

  /** The local number of registration `k`, counted from 0. */
  function LocalAt(k: nat): nat {
    if k == 0 then 1 else NextLocal(LocalAt(k - 1))
  }

  lemma ModNext(x: nat, m: nat)
    requires m > 1
    ensures (x + 1) % m == if x % m == m - 1 then 0 else x % m + 1
  {
    var q := x / m;
    assert x == q * m + x % m;
    if x % m == m - 1 {
      assert x + 1 == (q + 1) * m + 0;
      ModUnique(x + 1, m, q + 1, 0);
    } else {
      ModUnique(x + 1, m, q, x % m + 1);
    }
  }

  lemma NextInRange(v: nat)
    requires 0 < v < TWO_32
    ensures NextLocal(v) == if v == LOCALS then 1 else v + 1
  {}

  lemma {:induction false} LocalCycle(k: nat)
    ensures LocalAt(k) == k % LOCALS + 1
  {
    if k > 0 {
      LocalCycle(k - 1);
      ModNext(k - 1, LOCALS);
      NextInRange(LocalAt(k - 1));
    }
  }

  /** Two registrations on one worker get the same number exactly when they are a multiple of 2^32 - 1 apart. */
  lemma SameIdIff(worker: nat, j: nat, k: nat)
    requires j <= k
    ensures IdOf(worker, LocalAt(j)) == IdOf(worker, LocalAt(k)) <==> (k - j) % LOCALS == 0
  {
    LocalCycle(j);
    LocalCycle(k);
    ModDifference(j, k, LOCALS);
  }

  lemma ModDifference(j: nat, k: nat, m: nat)
    requires j <= k && m > 0
    ensures j % m == k % m <==> (k - j) % m == 0
  {
    var qj, qk, d := j / m, k / m, (k - j) / m;
    assert j == qj * m + j % m && k == qk * m + k % m && k - j == d * m + (k - j) % m;
    if j % m == k % m {
      assert k - j == (qk - qj) * m;
      ModUnique(k - j, m, qk - qj, 0);
    } else if (k - j) % m == 0 {
      assert k == (qj + d) * m + j % m by { assert (qj + d) * m == qj * m + d * m; }
      ModUnique(k, m, qj + d, j % m);
    }
  }

  lemma ModUnique(x: int, m: nat, q: int, r: nat)
    requires m > 0 && x == q * m + r && r < m
    ensures x % m == r
  {
    var q', r' := x / m, x % m;
    assert x == q' * m + r';
    NoMultiple(q - q', m, r' - r);
  }

  lemma NoMultiple(d: int, m: nat, diff: int)
    requires d * m == diff && -(m as int) < diff < m
    ensures diff == 0
  {
    if d >= 1 {
      MulAtLeast(d, m);
    } else if d <= -1 {
      MulAtLeast(-d, m);
    }
  }

  lemma MulAtLeast(d: int, m: nat)
    requires d >= 1
    ensures d * m >= m
  {
    assert d * m == (d - 1) * m + m;
  }

  /** A number names its worker, is never 0, and tells workers apart. */
  lemma IdNames(worker: nat, k: nat)
    requires 0 < worker < TWO_32
    ensures IdOf(worker, LocalAt(k)) != 0 && WorkerOf(IdOf(worker, LocalAt(k))) == worker
    ensures IdOf(worker, LocalAt(k)) < TWO_32 * TWO_32
  {
    LocalCycle(k);
    assert 0 < LocalAt(k) < TWO_32;
  }

  // ---------------------------------------------------------------- one worker

  function RepliesTo(t: Tables, id: Id): seq<Reply> {
    if id in t.replies then t.replies[id] else []
  }

  function Reply1(t: Tables, id: Id, r: Reply): Tables {
    t.(pending := t.pending - {id}, replies := t.replies[id := RepliesTo(t, id) + [r]])
  }

  /** `deliver_local`, `begin_stream_local`, `write_chunk_local`, `finish_stream_local`; and whether it was `Sent`. */
  function Local(t: Tables, id: Id, op: Op): (Tables, bool) {
    match op
    case Once(r) => if id in t.pending then (Reply1(t, id, Whole(r)), true) else (t, false)
    case Stream(r) => if id in t.pending then (Reply1(t, id, Whole(r)), true) else (t, false)
    case Begin(h) =>
      if id !in t.pending then (t, false)
      else (Reply1(t, id, Opened(h)).(streaming := t.streaming + {id}, bodies := t.bodies[id := []]), true)
    case Write(c) =>
      if id in t.streaming && id in t.bodies then (t.(bodies := t.bodies[id := t.bodies[id] + [c]]), true)
          else (t, false)
    case Finish => if id in t.streaming then (t.(streaming := t.streaming - {id}), true) else (t, false)
  }

  /** The log grows by one entry, and remembers where bodies begin and end. */
  function Logged(h: History, id: Id, op: Op, sent: bool, foreign: bool): History {
    History(
      h.log + [Entry(id, op, sent, foreign)],
      if op.Begin? && sent then h.begun[id := |h.log|] else h.begun,
      if op.Finish? && sent then h.ended[id := |h.log|] else h.ended)
  }

  function Carry(w: Worker, id: Id, op: Op, foreign: bool): Worker {
    var (t, sent) := Local(w.tables, id, op);
    w.(tables := t, hist := Logged(w.hist, id, op, sent, foreign))
  }

  /** `register` on worker `name` */
  function Register(name: nat, w: Worker): Worker {
    var id := IdOf(name, w.next);
    w.(next := NextLocal(w.next), count := w.count + 1, tables := w.tables.(pending := w.tables.pending + {id}))
  }

  /** One turn of the mailbox loop. */
  function Pump(w: Worker): Worker {
    if w.mailbox.None? || w.mailbox.value == [] then w
    else
      var (id, op) := w.mailbox.value[0];
      Carry(w.(mailbox := Some(w.mailbox.value[1..])), id, op, true)
  }

  /** `enqueue`: only a worker with a mailbox can be reached; a stream made elsewhere cannot be sent at all. */
  function Post(w: Worker, id: Id, op: Op): Worker {
    if w.mailbox.None? || op.Stream? then w
    else w.(mailbox := Some(w.mailbox.value + [(id, op)]), posted := w.posted + [(id, op)])
  }

  // ---------------------------------------------------------------- what holds of a worker

  /** The chunks of the writes to `id` in a part of the log. */
  function Chunks(log: seq<Entry>, id: Id): seq<Chunk> {
    if log == [] then []
    else
      var e := log[|log| - 1];
      Chunks(log[..|log| - 1], id) + if e.id == id && e.op.Write? then [e.op.chunk] else []
  }

  /** Every ticket in the tables was handed out by this worker. */
  ghost predicate Issued(name: nat, count: nat, id: Id) {
    exists k :: 0 <= k < count && id == IdOf(name, LocalAt(k))
  }

  /** A ticket is unanswered, or answered once, or never answered; and only then open. */
  ghost predicate TicketInv(t: Tables) {
    && t.pending !! t.streaming
    && (forall id :: id in t.replies ==> |t.replies[id]| <= 1)
    && (forall id :: id in t.pending ==> RepliesTo(t, id) == [])
    && (forall id :: id in t.streaming ==> id in t.bodies && |RepliesTo(t, id)| == 1)
  }

  /** The body of a ticket is what was written between its beginning and its end. */
  ghost predicate BodyAt(t: Tables, h: History, id: Id)
    requires id in t.bodies
  {
    && id in h.begun && h.begun[id] < |h.log|
    && h.log[h.begun[id]].id == id && h.log[h.begun[id]].op.Begin? && h.log[h.begun[id]].sent
    && (id in h.ended <==> id !in t.streaming)
    && (id in h.ended ==>
          && h.begun[id] < h.ended[id] < |h.log|
          && h.log[h.ended[id]].id == id && h.log[h.ended[id]].op.Finish?
          && t.bodies[id] == Chunks(h.log[h.begun[id] + 1..h.ended[id]], id))
    && (id in t.streaming ==> t.bodies[id] == Chunks(h.log[h.begun[id] + 1..], id))
  }

  /** The body of `id` is open when entry `i` is carried out. */
  predicate OpenAt(h: History, id: Id, i: nat) {
    id in h.begun && h.begun[id] < i && (id in h.ended ==> i < h.ended[id])
  }

  ghost predicate SentAt(h: History, i: nat)
    requires i < |h.log|
  {
    var e := h.log[i];
    && (e.op.Write? ==> (e.sent <==> OpenAt(h, e.id, i)))
    && (e.op.Finish? ==> !OpenAt(h, e.id, i) && (e.sent <==> e.id in h.ended && h.ended[e.id] == i))
  }

  /** Writes succeed exactly while the body is open, and the first call to end it does. */
  ghost predicate SentInv(h: History) {
    forall i :: 0 <= i < |h.log| ==> SentAt(h, i)
  }

  ghost predicate BodyInv(t: Tables, h: History) {
    && (forall id :: id in t.bodies ==> BodyAt(t, h, id))
    && (forall id :: id in h.begun || id in h.ended ==> id in t.bodies)
    && (forall id :: id in t.bodies ==> |RepliesTo(t, id)| == 1)
  }

  /** What came through the mailbox, and is still in it, is what was posted, in order. */
  function ForeignOps(log: seq<Entry>): seq<(Id, Op)> {
    if log == [] then []
    else
      var e := log[|log| - 1];
      ForeignOps(log[..|log| - 1]) + if e.foreign then [(e.id, e.op)] else []
  }

  ghost predicate MailInv(w: Worker) {
    ForeignOps(w.hist.log) + (if w.mailbox.Some? then w.mailbox.value else []) == w.posted
  }

  ghost predicate IssueInv(name: nat, next: nat, count: nat, t: Tables) {
    && next == LocalAt(count)
    && (forall id :: id in t.pending || id in t.replies ==> Issued(name, count, id))
  }

  ghost predicate TableInv(name: nat, next: nat, count: nat, t: Tables, h: History) {
    TicketInv(t) && BodyInv(t, h) && SentInv(h) && IssueInv(name, next, count, t)
  }

  ghost predicate WorkerInv(name: nat, w: Worker) {
    TableInv(name, w.next, w.count, w.tables, w.hist) && MailInv(w)
  }

  // ---------------------------------------------------------------- operations keep it

  lemma LocalKeepsTickets(t: Tables, id: Id, op: Op)
    requires TicketInv(t)
    ensures TicketInv(Local(t, id, op).0)
  {}

  lemma ChunksGrow(log: seq<Entry>, b: nat, e: Entry, id: Id)
    requires b < |log|
    ensures Chunks((log + [e])[b + 1..], id) ==
      Chunks(log[b + 1..], id) + if e.id == id && e.op.Write? then [e.op.chunk] else []
  {
    var part := log[b + 1..];
    assert (log + [e])[b + 1..] == part + [e];
    assert (part + [e])[..|part|] == part;
  }

  /** A body that this entry is not about stays as it is. */
  lemma OtherBody(t: Tables, h: History, t': Tables, h': History, e: Entry, id: Id)
    requires id in t.bodies && BodyAt(t, h, id)
    requires id in t'.bodies && t'.bodies[id] == t.bodies[id] && (id in t'.streaming <==> id in t.streaming)
    requires h'.log == h.log + [e] && (e.id != id || !e.op.Write? || id !in t.streaming)
    requires id in h'.begun && h'.begun[id] == h.begun[id]
    requires (id in h'.ended <==> id in h.ended) && (id in h.ended ==> h'.ended[id] == h.ended[id])
    ensures BodyAt(t', h', id)
  {
    var b := h.begun[id];
    ChunksGrow(h.log, b, e, id);
    if id in h.ended {
      assert h'.log[b + 1..h.ended[id]] == h.log[b + 1..h.ended[id]];
    }
  }

  lemma LocalKeepsBodies(t: Tables, h: History, id: Id, op: Op, foreign: bool)
    requires TicketInv(t) && BodyInv(t, h)
    ensures var (t', sent) := Local(t, id, op); BodyInv(t', Logged(h, id, op, sent, foreign))
  {
    var (t', sent) := Local(t, id, op);
    var h' := Logged(h, id, op, sent, foreign);
    BodiesAnswered(t, h, id, op, foreign);
    forall i | i in t'.bodies ensures BodyAt(t', h', i) {
      if i != id || !sent || op.Once? || op.Stream? {
        EntryElsewhere(t, h, id, op, foreign, i);
      } else {
        OwnBody(t, h, id, op, foreign);
      }
    }
  }

  lemma BodiesAnswered(t: Tables, h: History, id: Id, op: Op, foreign: bool)
    requires TicketInv(t) && BodyInv(t, h)
    ensures var (t', sent) := Local(t, id, op);
      var h' := Logged(h, id, op, sent, foreign);
      && (forall i :: i in h'.begun || i in h'.ended ==> i in t'.bodies)
      && (forall i :: i in t'.bodies ==> |RepliesTo(t', i)| == 1)
  {
    var (t', sent) := Local(t, id, op);
    forall i | i in t'.bodies ensures |RepliesTo(t', i)| == 1 {
      if i != id || id !in t.pending {
        assert RepliesTo(t', i) == RepliesTo(t, i);
      }
    }
  }

  lemma TableElsewhere(t: Tables, id: Id, op: Op, i: Id)
    requires i in Local(t, id, op).0.bodies && (i != id || !Local(t, id, op).1 || op.Once? || op.Stream?)
    ensures var t' := Local(t, id, op).0;
      i in t.bodies && t'.bodies[i] == t.bodies[i] && (i in t'.streaming <==> i in t.streaming)
  {}

  lemma EntryElsewhere(t: Tables, h: History, id: Id, op: Op, foreign: bool, i: Id)
    requires TicketInv(t) && BodyInv(t, h) && i in Local(t, id, op).0.bodies
    requires i != id || !Local(t, id, op).1 || op.Once? || op.Stream?
    ensures var (t', sent) := Local(t, id, op); BodyAt(t', Logged(h, id, op, sent, foreign), i)
  {
    var (t', sent) := Local(t, id, op);
    TableElsewhere(t, id, op, i);
    assert BodyAt(t, h, i);
    OtherBody(t, h, t', Logged(h, id, op, sent, foreign), Entry(id, op, sent, foreign), i);
  }

  lemma OwnBody(t: Tables, h: History, id: Id, op: Op, foreign: bool)
    requires TicketInv(t) && BodyInv(t, h) && (op.Begin? || op.Write? || op.Finish?) && Local(t, id, op).1
    ensures var t' := Local(t, id, op).0; id in t'.bodies && BodyAt(t', Logged(h, id, op, true, foreign), id)
  {
    var h' := Logged(h, id, op, true, foreign);
    if op.Begin? {
      assert h'.log[|h.log| + 1..] == [];
    } else {
      var b := h.begun[id];
      ChunksGrow(h.log, b, Entry(id, op, true, foreign), id);
      assert h'.log[b + 1..|h.log|] == h.log[b + 1..];
    }
  }

  lemma LocalKeepsSent(t: Tables, h: History, id: Id, op: Op, foreign: bool)
    requires TicketInv(t) && BodyInv(t, h) && SentInv(h)
    ensures var (t', sent) := Local(t, id, op); SentInv(Logged(h, id, op, sent, foreign))
  {
    var (t', sent) := Local(t, id, op);
    var h' := Logged(h, id, op, sent, foreign);
    NewSent(t, h, id, op, foreign);
    forall i | 0 <= i < |h'.log| ensures SentAt(h', i) {
      if i < |h.log| {
        assert SentAt(h, i);
        OldSent(h, id, op, sent, foreign, i);
      }
    }
  }

  /** An entry that is there stays as it was answered. */
  lemma OldSent(h: History, id: Id, op: Op, sent: bool, foreign: bool, i: nat)
    requires i < |h.log| && SentAt(h, i)
    requires sent && op.Begin? ==> id !in h.begun && id !in h.ended
    requires sent && op.Finish? ==> id !in h.ended
    ensures SentAt(Logged(h, id, op, sent, foreign), i)
  {
    assert Logged(h, id, op, sent, foreign).log[i] == h.log[i];
  }

  lemma NewSent(t: Tables, h: History, id: Id, op: Op, foreign: bool)
    requires TicketInv(t) && BodyInv(t, h)
    ensures var (t', sent) := Local(t, id, op);
      && SentAt(Logged(h, id, op, sent, foreign), |h.log|)
      && (sent && op.Begin? ==> id !in h.begun && id !in h.ended)
      && (sent && op.Finish? ==> id !in h.ended)
  {
    if id in t.bodies {
      assert BodyAt(t, h, id);
    }
  }

  lemma LocalKeepsIssue(name: nat, next: nat, count: nat, t: Tables, id: Id, op: Op)
    requires IssueInv(name, next, count, t)
    ensures IssueInv(name, next, count, Local(t, id, op).0)
  {
    var t' := Local(t, id, op).0;
    assert t'.pending <= t.pending && t'.replies.Keys <= t.replies.Keys + t.pending;
  }

  lemma LocalKeeps(name: nat, next: nat, count: nat, t: Tables, h: History, id: Id, op: Op, foreign: bool)
    requires TableInv(name, next, count, t, h)
    ensures var (t', sent) := Local(t, id, op); TableInv(name, next, count, t', Logged(h, id, op, sent, foreign))
  {
    LocalKeepsTickets(t, id, op);
    LocalKeepsBodies(t, h, id, op, foreign);
    LocalKeepsSent(t, h, id, op, foreign);
    LocalKeepsIssue(name, next, count, t, id, op);
  }

  lemma ForeignLast(log: seq<Entry>, e: Entry)
    ensures ForeignOps(log + [e]) == ForeignOps(log) + if e.foreign then [(e.id, e.op)] else []
  {
    assert (log + [e])[..|log|] == log;
  }

  lemma LocalCallKeeps(name: nat, w: Worker, id: Id, op: Op)
    requires WorkerInv(name, w)
    ensures WorkerInv(name, Carry(w, id, op, false))
  {
    LocalKeeps(name, w.next, w.count, w.tables, w.hist, id, op, false);
    ForeignLast(w.hist.log, Entry(id, op, Local(w.tables, id, op).1, false));
  }

  lemma PumpKeeps(name: nat, w: Worker)
    requires WorkerInv(name, w)
    ensures WorkerInv(name, Pump(w))
  {
    if w.mailbox.Some? && w.mailbox.value != [] {
      var (id, op) := w.mailbox.value[0];
      LocalKeeps(name, w.next, w.count, w.tables, w.hist, id, op, true);
      PumpKeepsMail(w);
    }
  }

  lemma PumpKeepsMail(w: Worker)
    requires MailInv(w) && w.mailbox.Some? && w.mailbox.value != []
    ensures MailInv(Pump(w))
  {
    var (id, op) := w.mailbox.value[0];
    ForeignLast(w.hist.log, Entry(id, op, Local(w.tables, id, op).1, true));
    assert w.mailbox.value == [(id, op)] + w.mailbox.value[1..];
    assert Pump(w).hist.log == w.hist.log + [Entry(id, op, Local(w.tables, id, op).1, true)];
  }

  /** A new number is one that is not in use, as long as the numbers have not gone round. */
  lemma FreshId(name: nat, next: nat, count: nat, t: Tables)
    requires IssueInv(name, next, count, t) && count < LOCALS
    ensures IdOf(name, next) !in t.pending && IdOf(name, next) !in t.replies
  {
    var id := IdOf(name, next);
    if Issued(name, count, id) {
      var k :| 0 <= k < count && id == IdOf(name, LocalAt(k));
      SameIdIff(name, k, count);
      SmallMod(count - k);
    }
  }

  lemma SmallMod(d: nat)
    requires 0 < d < LOCALS
    ensures d % LOCALS == d
  {}

  /** Adding or removing unanswered tickets does not touch the bodies. */
  lemma PendingKeepsBodies(t: Tables, h: History, pending: set<Id>)
    requires BodyInv(t, h)
    ensures BodyInv(t.(pending := pending), h)
  {
    var t' := t.(pending := pending);
    forall i | i in t.bodies ensures BodyAt(t', h, i) {
      assert BodyAt(t, h, i);
    }
    forall i | i in t.bodies ensures |RepliesTo(t', i)| == 1 {
      assert |RepliesTo(t, i)| == 1;
    }
  }

  lemma IssueMore(name: nat, next: nat, count: nat, t: Tables)
    requires IssueInv(name, next, count, t)
    ensures IssueInv(name, NextLocal(next), count + 1, t.(pending := t.pending + {IdOf(name, next)}))
  {
    var t' := t.(pending := t.pending + {IdOf(name, next)});
    forall i | i in t'.pending || i in t'.replies ensures Issued(name, count + 1, i) {
      if i == IdOf(name, next) {
        assert i == IdOf(name, LocalAt(count));
      } else {
        assert Issued(name, count, i);
      }
    }
  }

  lemma RegisterKeepsTickets(t: Tables, id: Id)
    requires TicketInv(t) && id !in t.replies
    ensures TicketInv(t.(pending := t.pending + {id}))
  {
    var t' := t.(pending := t.pending + {id});
    assert RepliesTo(t, id) == [];
    forall i ensures RepliesTo(t', i) == RepliesTo(t, i) {}
  }

  lemma RegisterKeepsTables(name: nat, next: nat, count: nat, t: Tables, h: History)
    requires TableInv(name, next, count, t, h) && count < LOCALS
    ensures TableInv(name, NextLocal(next), count + 1, t.(pending := t.pending + {IdOf(name, next)}), h)
  {
    FreshId(name, next, count, t);
    RegisterKeepsTickets(t, IdOf(name, next));
    PendingKeepsBodies(t, h, t.pending + {IdOf(name, next)});
    IssueMore(name, next, count, t);
  }

  lemma RegisterKeeps(name: nat, w: Worker)
    requires WorkerInv(name, w) && w.count < LOCALS
    ensures WorkerInv(name, Register(name, w))
  {
    RegisterKeepsTables(name, w.next, w.count, w.tables, w.hist);
  }

  /** `forget` */
  function Forgotten(w: Worker, id: Id): Worker {
    w.(tables := w.tables.(pending := w.tables.pending - {id}))
  }

  lemma ForgetKeepsTables(name: nat, next: nat, count: nat, t: Tables, h: History, id: Id)
    requires TableInv(name, next, count, t, h)
    ensures TableInv(name, next, count, t.(pending := t.pending - {id}), h)
  {
    PendingKeepsBodies(t, h, t.pending - {id});
    assert forall i :: RepliesTo(t.(pending := t.pending - {id}), i) == RepliesTo(t, i);
  }

  lemma ForgetKeeps(name: nat, w: Worker, id: Id)
    requires WorkerInv(name, w)
    ensures WorkerInv(name, Forgotten(w, id))
  {
    ForgetKeepsTables(name, w.next, w.count, w.tables, w.hist, id);
  }

  lemma PostKeeps(name: nat, w: Worker, id: Id, op: Op)
    requires WorkerInv(name, w)
    ensures WorkerInv(name, Post(w, id, op))
  {
    if w.mailbox.Some? {
      var f := ForeignOps(w.hist.log);
      assert f + (w.mailbox.value + [(id, op)]) == f + w.mailbox.value + [(id, op)];
    }
  }

  // ---------------------------------------------------------------- all threads

  /** Every thread that ever asked for its worker number is a worker, host threads too. */
  type State = map<nat, Worker>

  datatype Event =
    | Registers(thread: nat)
    | Installs(thread: nat)
    | Calls(thread: nat, id: Id, op: Op)
    | Forgets(thread: nat, id: Id)
    | Pumps(thread: nat)

  function At(s: State, thread: nat): Worker {
    if thread in s then s[thread] else NEW_WORKER
  }

  /** `ensure_worker_mailbox` */
  function Install(w: Worker): Worker {
    if w.mailbox.Some? then w else w.(mailbox := Some([]))
  }

  /** `deliver`, `begin_stream`, `write_chunk`, `finish_stream` on the calling thread. */
  function Call(s: State, thread: nat, id: Id, op: Op): State {
    if id == 0 then s
    else
      var owner := WorkerOf(id);
      if owner != thread then s[owner := Post(At(s, owner), id, op)]
      else s[thread := Carry(At(s, thread), id, op, false)]
  }

  function Apply(s: State, ev: Event): State {
    match ev
    case Registers(t) => s[t := Register(t, At(s, t))]
    case Installs(t) => s[t := Install(At(s, t))]
    case Calls(t, id, op) => Call(s, t, id, op)
    case Forgets(t, id) => s[t := Forgotten(At(s, t), id)]
    case Pumps(t) => s[t := Pump(At(s, t))]
  }

  function Run(evs: seq<Event>): State {
    if evs == [] then map[] else Apply(Run(evs[..|evs| - 1]), evs[|evs| - 1])
  }

  ghost predicate Inv(s: State) {
    forall t :: t in s ==> WorkerInv(t, s[t])
  }

  lemma NewKeeps(name: nat)
    ensures WorkerInv(name, NEW_WORKER)
  {}

  /** No worker has handed out more tickets than there are numbers. */
  ghost predicate WithinNumbers(s: State) {
    forall t :: t in s ==> s[t].count <= LOCALS
  }

  lemma ApplyKeeps(s: State, ev: Event)
    requires Inv(s) && WithinNumbers(Apply(s, ev))
    ensures Inv(Apply(s, ev))
  {
    match ev
    case Registers(t) =>
      AtKeeps(s, t);
      assert t in Apply(s, ev);
      RegisterKeeps(t, At(s, t));
      UpdateKeeps(s, t, Register(t, At(s, t)));
    case Installs(t) =>
      AtKeeps(s, t);
      InstallKeeps(t, At(s, t));
      UpdateKeeps(s, t, Install(At(s, t)));
    case Forgets(t, id) =>
      AtKeeps(s, t);
      ForgetKeeps(t, At(s, t), id);
      UpdateKeeps(s, t, Forgotten(At(s, t), id));
    case Pumps(t) =>
      AtKeeps(s, t);
      PumpKeeps(t, At(s, t));
      UpdateKeeps(s, t, Pump(At(s, t)));
    case Calls(t, id, op) => CallKeeps(s, t, id, op);
  }

  lemma CallKeeps(s: State, thread: nat, id: Id, op: Op)
    requires Inv(s)
    ensures Inv(Call(s, thread, id, op))
  {
    var owner := WorkerOf(id);
    AtKeeps(s, owner);
    if owner != thread {
      PostKeeps(owner, At(s, owner), id, op);
      UpdateKeeps(s, owner, Post(At(s, owner), id, op));
    } else {
      LocalCallKeeps(owner, At(s, owner), id, op);
      UpdateKeeps(s, owner, Carry(At(s, owner), id, op, false));
    }
  }

  lemma AtKeeps(s: State, t: nat)
    requires Inv(s)
    ensures WorkerInv(t, At(s, t))
  {
    NewKeeps(t);
  }

  lemma UpdateKeeps(s: State, t: nat, w: Worker)
    requires Inv(s) && WorkerInv(t, w)
    ensures Inv(s[t := w])
  {}

  lemma InstallKeeps(name: nat, w: Worker)
    requires WorkerInv(name, w)
    ensures WorkerInv(name, Install(w))
  {}

  lemma CountsGrow(s: State, ev: Event)
    requires WithinNumbers(Apply(s, ev))
    ensures WithinNumbers(s)
  {
    forall t | t in s ensures s[t].count <= LOCALS {
      assert t in Apply(s, ev) && s[t].count <= Apply(s, ev)[t].count;
    }
  }

  /**
    Under every interleaving of worker and foreign calls, while no worker has run out of numbers: no ticket is both
    unanswered and streaming, none gets two replies, bodies are what was written while they were open, and what
    comes through a mailbox comes in the order it was posted.
  */
  lemma {:induction false} RunKeeps(evs: seq<Event>)
    requires WithinNumbers(Run(evs))
    ensures Inv(Run(evs))
  {
    if evs != [] {
      var s := Run(evs[..|evs| - 1]);
      CountsGrow(s, evs[|evs| - 1]);
      RunKeeps(evs[..|evs| - 1]);
      ApplyKeeps(s, evs[|evs| - 1]);
    }
  }

  /** The same, said of one ticket. */
  lemma TicketsAreSafe(evs: seq<Event>, worker: nat, id: Id)
    requires WithinNumbers(Run(evs)) && worker in Run(evs)
    ensures var (t, log) := (Run(evs)[worker].tables, Run(evs)[worker].hist.log);
      && !(id in t.pending && id in t.streaming)
      && |RepliesTo(t, id)| <= 1
      && (id in t.bodies ==>
            exists b, e :: 0 <= b < e <= |log| && Encloses(log, id, b, e) && t.bodies[id] == Chunks(log[b + 1..e], id))
  {
    RunKeeps(evs);
    var w := Run(evs)[worker];
    if id in w.tables.bodies {
      var b, e := BodyEnclosed(w.tables, w.hist, id);
    }
  }

  lemma BodyEnclosed(t: Tables, h: History, id: Id) returns (b: nat, e: nat)
    requires id in t.bodies && BodyAt(t, h, id) && SentInv(h)
    ensures b < e <= |h.log| && Encloses(h.log, id, b, e) && t.bodies[id] == Chunks(h.log[b + 1..e], id)
  {
    b := h.begun[id];
    e := if id in h.ended then h.ended[id] else |h.log|;
    forall i | b < i < e && h.log[i].id == id ensures !h.log[i].op.Finish? {
      assert SentAt(h, i);
    }
    if id in h.ended {
      assert SentAt(h, e);
    }
    assert h.log[b + 1..|h.log|] == h.log[b + 1..];
  }

  /** From the call that opened the body to the first call to end it, or to now. */
  predicate Encloses(log: seq<Entry>, id: Id, b: int, e: int)
    requires 0 <= b < e <= |log|
  {
    && log[b].id == id && log[b].op.Begin? && log[b].sent
    && (e < |log| ==> log[e].id == id && log[e].op.Finish? && log[e].sent)
    && (forall i :: b < i < e && log[i].id == id ==> !log[i].op.Finish?)
  }
}
