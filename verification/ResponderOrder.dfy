/** The order in which the calls for a ticket are carried out, and what its body is made of. */
module ResponderOrder {
  import opened Basics
  import opened Responder

  function OpOf(e: Entry): (Id, Op) {
    (e.id, e.op)
  }

  function Ops(log: seq<Entry>): seq<(Id, Op)> {
    Map(OpOf, log)
  }

  /** Calls for tickets of `worker` made on it (`local`), or elsewhere and accepted by its mailbox. */
  function CallsTo(evs: seq<Event>, worker: nat, local: bool): seq<(Id, Op)> {
    if evs == [] then []
    else
      var before := evs[..|evs| - 1];
      CallsTo(before, worker, local) + CallIn(At(Run(before), worker), evs[|evs| - 1], worker, local)
  }

  function LocalOps(log: seq<Entry>): seq<(Id, Op)> {
    if log == [] then []
    else
      var e := log[|log| - 1];
      LocalOps(log[..|log| - 1]) + if e.foreign then [] else [(e.id, e.op)]
  }

  lemma LocalLast(log: seq<Entry>, e: Entry)
    ensures LocalOps(log + [e]) == LocalOps(log) + if e.foreign then [] else [(e.id, e.op)]
  {
    assert (log + [e])[..|log|] == log;
  }

  /** What an event does to one worker. */
  function Effect(worker: nat, w: Worker, ev: Event): Worker {
    match ev
    case Registers(t) => if t == worker then Register(worker, w) else w
    case Installs(t) => if t == worker then Install(w) else w
    case Forgets(t, id) => if t == worker then Forgotten(w, id) else w
    case Pumps(t) => if t == worker then Pump(w) else w
    case Calls(t, id, op) =>
      if id == 0 || WorkerOf(id) != worker then w
      else if t == worker then Carry(w, id, op, false) else Post(w, id, op)
  }

  lemma EffectOnOne(s: State, ev: Event, worker: nat)
    ensures At(Apply(s, ev), worker) == Effect(worker, At(s, worker), ev)
  {}

  /** The call this event is for `worker`, if it is one. */
  function CallIn(w: Worker, ev: Event, worker: nat, local: bool): seq<(Id, Op)> {
    if !ev.Calls? || ev.id == 0 || WorkerOf(ev.id) != worker then []
    else if local then if ev.thread == worker then [(ev.id, ev.op)] else []
    else if ev.thread != worker && !ev.op.Stream? && w.mailbox.Some? then [(ev.id, ev.op)] else []
  }

  lemma EffectOnLog(worker: nat, w: Worker, ev: Event)
    ensures LocalOps(Effect(worker, w, ev).hist.log) == LocalOps(w.hist.log) + CallIn(w, ev, worker, true)
  {
    match ev
    case Pumps(t) =>
      if t == worker && w.mailbox.Some? && w.mailbox.value != [] {
        var (id, op) := w.mailbox.value[0];
        LocalLast(w.hist.log, Entry(id, op, Local(w.tables, id, op).1, true));
      }
    case Calls(t, id, op) =>
      LocalLast(w.hist.log, Entry(id, op, Local(w.tables, id, op).1, false));
    case _ =>
  }

  lemma EffectOnMail(worker: nat, w: Worker, ev: Event)
    ensures Effect(worker, w, ev).posted == w.posted + CallIn(w, ev, worker, false)
  {}

  /** A worker carries out its own calls in the order they are made, and posts foreign ones in that order. */
  lemma {:induction false} OrderKept(evs: seq<Event>, worker: nat)
    ensures var w := At(Run(evs), worker);
      LocalOps(w.hist.log) == CallsTo(evs, worker, true) && w.posted == CallsTo(evs, worker, false)
  {
    if evs != [] {
      OrderKept(evs[..|evs| - 1], worker);
      var s, ev := Run(evs[..|evs| - 1]), evs[|evs| - 1];
      EffectOnOne(s, ev, worker);
      EffectOnLog(worker, At(s, worker), ev);
      EffectOnMail(worker, At(s, worker), ev);
    }
  }

  function Mail(w: Worker): seq<(Id, Op)> {
    if w.mailbox.Some? then w.mailbox.value else []
  }

  lemma EffectKeepsMail(worker: nat, w: Worker, ev: Event)
    requires MailInv(w)
    ensures MailInv(Effect(worker, w, ev))
  {
    match ev
    case Pumps(t) =>
      if w.mailbox.Some? && w.mailbox.value != [] {
        PumpKeepsMail(w);
      }
    case Calls(t, id, op) =>
      ForeignLast(w.hist.log, Entry(id, op, Local(w.tables, id, op).1, false));
      Assoc(ForeignOps(w.hist.log), Mail(w), [(id, op)]);
    case _ =>
  }

  /** What came through the mailbox, and is still in it, is what was posted, in every run whatever. */
  lemma {:induction false} MailKept(evs: seq<Event>, worker: nat)
    ensures MailInv(At(Run(evs), worker))
  {
    if evs != [] {
      MailKept(evs[..|evs| - 1], worker);
      EffectOnOne(Run(evs[..|evs| - 1]), evs[|evs| - 1], worker);
      EffectKeepsMail(worker, At(Run(evs[..|evs| - 1]), worker), evs[|evs| - 1]);
    }
  }

  // ---------------------------------------------------------------- one ticket

  /** The operations on one ticket. */
  function For(ops: seq<(Id, Op)>, id: Id): seq<Op> {
    if ops == [] then []
    else For(ops[..|ops| - 1], id) + if ops[|ops| - 1].0 == id then [ops[|ops| - 1].1] else []
  }

  lemma {:induction false} ForAppend(a: seq<(Id, Op)>, b: seq<(Id, Op)>, id: Id)
    ensures For(a + b, id) == For(a, id) + For(b, id)
  {
    if b == [] {
      assert a + b == a;
    } else {
      var n := |b| - 1;
      assert (a + b)[..|a| + n] == a + b[..n];
      ForAppend(a, b[..n], id);
      Assoc(For(a, id), For(b[..n], id), if b[n].0 == id then [b[n].1] else []);
    }
  }

  lemma ForOne(op: (Id, Op), id: Id)
    ensures For([op], id) == if op.0 == id then [op.1] else []
  {
    assert [op][..0] == [];
  }

  function Mine(e: Entry, id: Id): seq<Op> {
    if e.id == id then [e.op] else []
  }

  lemma OpsLast(log: seq<Entry>, e: Entry, id: Id)
    ensures For(Ops(log + [e]), id) == For(Ops(log), id) + Mine(e, id)
  {
    MapLast(OpOf, log, e);
    ForOne(OpOf(e), id);
    ForAppend(Ops(log), [OpOf(e)], id);
  }

  lemma LocalSide(log: seq<Entry>, e: Entry, id: Id)
    ensures For(LocalOps(log + [e]), id) == For(LocalOps(log), id) + if e.foreign then [] else Mine(e, id)
  {
    LocalLast(log, e);
    if !e.foreign {
      ForOne(OpOf(e), id);
      ForAppend(LocalOps(log), [OpOf(e)], id);
    } else {
      assert LocalOps(log) + [] == LocalOps(log) && For(LocalOps(log), id) + [] == For(LocalOps(log), id);
    }
  }

  lemma ForeignSide(log: seq<Entry>, e: Entry, id: Id)
    ensures For(ForeignOps(log + [e]), id) == For(ForeignOps(log), id) + if e.foreign then Mine(e, id) else []
  {
    ForeignLast(log, e);
    if e.foreign {
      ForOne(OpOf(e), id);
      ForAppend(ForeignOps(log), [OpOf(e)], id);
    } else {
      assert ForeignOps(log) + [] == ForeignOps(log) && For(ForeignOps(log), id) + [] == For(ForeignOps(log), id);
    }
  }

  /** If one side has no operations on a ticket, the log has those of the other side. */
  lemma {:induction false} OneSided(log: seq<Entry>, id: Id)
    ensures For(ForeignOps(log), id) == [] ==> For(Ops(log), id) == For(LocalOps(log), id)
    ensures For(LocalOps(log), id) == [] ==> For(Ops(log), id) == For(ForeignOps(log), id)
  {
    if log != [] {
      var before, e := log[..|log| - 1], log[|log| - 1];
      assert log == before + [e];
      OneSided(before, id);
      OpsLast(before, e, id);
      LocalSide(before, e, id);
      ForeignSide(before, e, id);
    }
  }

  /** All calls for the ticket are made by `thread`. */
  predicate MadeBy(evs: seq<Event>, id: Id, thread: nat) {
    forall i :: 0 <= i < |evs| && evs[i].Calls? && evs[i].id == id ==> evs[i].thread == thread
  }

  /** The calls for a ticket that reached its worker, in the order they were made. */
  function Accepted(evs: seq<Event>, id: Id, local: bool): seq<Op> {
    For(CallsTo(evs, WorkerOf(id), local), id)
  }

  lemma {:induction false} NoneElsewhere(evs: seq<Event>, id: Id, thread: nat)
    requires MadeBy(evs, id, thread)
    ensures Accepted(evs, id, thread != WorkerOf(id)) == []
  {
    if evs != [] {
      var before := evs[..|evs| - 1];
      NoneElsewhere(before, id, thread);
      var call := CallIn(At(Run(before), WorkerOf(id)), evs[|evs| - 1], WorkerOf(id), thread != WorkerOf(id));
      ForAppend(CallsTo(before, WorkerOf(id), thread != WorkerOf(id)), call, id);
      if call != [] {
        assert call == [call[0]];
        ForOne(call[0], id);
      }
    }
  }

  predicate Installed(evs: seq<Event>, worker: nat) {
    exists i :: 0 <= i < |evs| && evs[i] == Installs(worker)
  }

  /** A worker can be reached by other threads exactly if its mailbox was installed at some time. */
  lemma {:induction false} ReachableIffInstalled(evs: seq<Event>, worker: nat)
    ensures At(Run(evs), worker).mailbox.Some? <==> Installed(evs, worker)
  {
    if evs != [] {
      var before, ev := evs[..|evs| - 1], evs[|evs| - 1];
      ReachableIffInstalled(before, worker);
      EffectOnOne(Run(before), ev, worker);
      assert forall i :: 0 <= i < |before| ==> before[i] == evs[i];
      if Installed(before, worker) {
        var i :| 0 <= i < |before| && before[i] == Installs(worker);
        assert evs[i] == Installs(worker);
      }
    }
  }

  /** What still waits in the mailbox for a ticket. */
  function Waiting(w: Worker, id: Id): seq<Op> {
    For(Mail(w), id)
  }

  /**
    When one thread makes all calls for a ticket, they are carried out in the order they were made: at once if it is
    the thread of the ticket's worker, and otherwise up to those still in the mailbox. What happens to other tickets
    of the worker does not matter.
  */
  lemma TicketOrder(evs: seq<Event>, id: Id, thread: nat)
    requires MadeBy(evs, id, thread)
    ensures var w := At(Run(evs), WorkerOf(id));
      && For(Ops(w.hist.log), id) + Waiting(w, id) == Accepted(evs, id, thread == WorkerOf(id))
      && (thread == WorkerOf(id) ==> Waiting(w, id) == [])
  {
    var worker := WorkerOf(id);
    var w := At(Run(evs), worker);
    OrderKept(evs, worker);
    MailKept(evs, worker);
    NoneElsewhere(evs, id, thread);
    ForAppend(ForeignOps(w.hist.log), Mail(w), id);
    OneSided(w.hist.log, id);
  }

  // ---------------------------------------------------------------- its body

  function WritesOf(ops: seq<Op>): seq<Chunk> {
    if ops == [] then []
    else WritesOf(ops[..|ops| - 1]) + if ops[|ops| - 1].Write? then [ops[|ops| - 1].chunk] else []
  }

  lemma WritesLast(ops: seq<Op>, op: Op)
    ensures WritesOf(ops + [op]) == WritesOf(ops) + if op.Write? then [op.chunk] else []
  {
    assert (ops + [op])[..|ops|] == ops;
  }

  lemma {:induction false} ChunksAreWrites(log: seq<Entry>, id: Id)
    ensures Chunks(log, id) == WritesOf(For(Ops(log), id))
  {
    if log != [] {
      var before, e := log[..|log| - 1], log[|log| - 1];
      assert log == before + [e];
      ChunksAreWrites(before, id);
      OpsLast(before, e, id);
      if e.id == id {
        WritesLast(For(Ops(before), id), e.op);
      } else {
        assert For(Ops(before), id) + [] == For(Ops(before), id);
      }
    }
  }

  predicate NoFinish(ops: seq<Op>) {
    forall i :: 0 <= i < |ops| ==> !ops[i].Finish?
  }

  lemma {:induction false} StillOpen(log: seq<Entry>, id: Id)
    requires forall i :: 0 <= i < |log| && log[i].id == id ==> !log[i].op.Finish?
    ensures NoFinish(For(Ops(log), id))
  {
    if log != [] {
      var before, e := log[..|log| - 1], log[|log| - 1];
      StillOpen(before, id);
      assert log == before + [e];
      OpsLast(before, e, id);
    }
  }

  lemma SplitLog(log: seq<Entry>, id: Id, b: nat, e: nat)
    requires b < e <= |log| && log[b].id == id
    ensures For(Ops(log), id) == For(Ops(log[..b]), id) + [log[b].op] + For(Ops(log[b + 1..e]), id)
        + For(Ops(log[e..]), id)
  {
    assert log == log[..b] + [log[b]] + log[b + 1..e] + log[e..];
    MapAppend(OpOf, log[..b] + [log[b]] + log[b + 1..e], log[e..]);
    MapAppend(OpOf, log[..b] + [log[b]], log[b + 1..e]);
    MapAppend(OpOf, log[..b], [log[b]]);
    assert Ops([log[b]]) == [OpOf(log[b])];
    ForOne(OpOf(log[b]), id);
    ForAppend(Ops(log[..b]), Ops([log[b]]), id);
    ForAppend(Ops(log[..b] + [log[b]]), Ops(log[b + 1..e]), id);
    ForAppend(Ops(log[..b] + [log[b]] + log[b + 1..e]), Ops(log[e..]), id);
  }

  lemma FirstOp(log: seq<Entry>, id: Id)
    requires log != [] && log[0].id == id
    ensures For(Ops(log), id) != [] && For(Ops(log), id)[0] == log[0].op
  {
    assert log == [log[0]] + log[1..];
    MapAppend(OpOf, [log[0]], log[1..]);
    assert Ops([log[0]]) == [OpOf(log[0])];
    ForOne(OpOf(log[0]), id);
    ForAppend(Ops([log[0]]), Ops(log[1..]), id);
  }

  /** The operations on a ticket around its body. */
  datatype Around = Around(before: seq<Op>, begin: Op, inside: seq<Op>, after: seq<Op>)

  function Joined(a: Around): seq<Op> {
    a.before + [a.begin] + a.inside + a.after
  }

  /** The body was opened, and ends with the first call to end it, or is still open. */
  predicate Framed(a: Around) {
    a.begin.Begin? && NoFinish(a.inside) && (a.after == [] || a.after[0].Finish?)
  }

  lemma BodyAround(w: Worker, id: Id) returns (a: Around)
    requires id in w.tables.bodies && BodyAt(w.tables, w.hist, id) && SentInv(w.hist)
    ensures For(Ops(w.hist.log), id) == Joined(a) && Framed(a) && w.tables.bodies[id] == WritesOf(a.inside)
  {
    var b, e := BodyEnclosed(w.tables, w.hist, id);
    var log := w.hist.log;
    a := Around(For(Ops(log[..b]), id), log[b].op, For(Ops(log[b + 1..e]), id), For(Ops(log[e..]), id));
    SplitLog(log, id, b, e);
    ChunksAreWrites(log[b + 1..e], id);
    StillOpen(log[b + 1..e], id);
    if e < |log| {
      FirstOp(log[e..], id);
    }
  }

  /**
    So the body of a ticket that one thread answers is its writes in the order of the calls: of all calls made, those
    between the one that opened it and the first one to end it that has been carried out.
  */
  lemma BodyInCallOrder(evs: seq<Event>, id: Id, thread: nat) returns (a: Around)
    requires MadeBy(evs, id, thread) && WithinNumbers(Run(evs)) && id in At(Run(evs), WorkerOf(id)).tables.bodies
    ensures var w := At(Run(evs), WorkerOf(id));
      && Accepted(evs, id, thread == WorkerOf(id)) == Joined(a) + Waiting(w, id)
      && Framed(a) && w.tables.bodies[id] == WritesOf(a.inside)
  {
    var w := At(Run(evs), WorkerOf(id));
    RunKeeps(evs);
    AtKeeps(Run(evs), WorkerOf(id));
    assert BodyAt(w.tables, w.hist, id);
    a := BodyAround(w, id);
    TicketOrder(evs, id, thread);
  }
}
