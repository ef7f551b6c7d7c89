/** Which reply every ticket gets, over every run. */
module ResponderReplies {
  import opened Basics
  import opened Responder
  import opened ResponderOrder

  // ---------------------------------------------------------------- what happens to a ticket

  /** What an event does about one ticket: it is handed out, an operation for it is carried out, or it is given up. */
  datatype Deed = Nothing | HandedOut | CarriedOut(op: Op) | GivenUp

  /** How many tickets a worker has handed out. */
  function Registrations(evs: seq<Event>, worker: nat): nat {
    if evs == [] then 0
    else Registrations(evs[..|evs| - 1], worker) + if evs[|evs| - 1] == Registers(worker) then 1 else 0
  }

  /** What `ev` does about ticket `id` of a worker after `evs`; a mailbox gives out the command posted first. */
  function DeedOf(evs: seq<Event>, ev: Event, worker: nat, id: Id): Deed {
    match ev
    case Registers(t) =>
      if t == worker && id == IdOf(worker, LocalAt(Registrations(evs, worker))) then HandedOut else Nothing
    case Calls(t, called, op) =>
      if t == worker && called == id && id != 0 && WorkerOf(id) == worker then CarriedOut(op) else Nothing
    case Pumps(t) =>
      var mail := Mail(At(Run(evs), worker));
      if t == worker && mail != [] && mail[0].0 == id then CarriedOut(mail[0].1) else Nothing
    case Forgets(t, called) => if t == worker && called == id then GivenUp else Nothing
    case Installs(_) => Nothing
  }

  /** The life of a ticket, event by event. */
  function Deeds(evs: seq<Event>, worker: nat, id: Id): (ds: seq<Deed>)
    ensures |ds| == |evs|
  {
    if evs == [] then []
    else
      var before := evs[..|evs| - 1];
      Deeds(before, worker, id) + [DeedOf(before, evs[|evs| - 1], worker, id)]
  }

  /** The reply an operation makes of an unanswered ticket. */
  function ReplyOf(op: Op): Option<Reply> {
    match op
    case Once(r) => Some(Whole(r))
    case Stream(r) => Some(Whole(r))
    case Begin(h) => Some(Opened(h))
    case _ => None
  }

  predicate Answers(d: Deed) {
    d.CarriedOut? && ReplyOf(d.op).Some?
  }

  /** The ticket is handed out for the first time. */
  predicate Born(ds: seq<Deed>, r: nat) {
    r < |ds| && ds[r].HandedOut? && forall j :: 0 <= j < r ==> !ds[j].HandedOut?
  }

  /** Between `r` and `i` nobody answers the ticket or gives it up. */
  predicate Waits(ds: seq<Deed>, r: nat, i: nat)
    requires i <= |ds|
  {
    forall j :: r < j < i ==> !Answers(ds[j]) && !ds[j].GivenUp?
  }

  /** Event `i` is the first to answer the ticket after it was handed out, and it was not given up before. */
  ghost predicate FirstAnswer(ds: seq<Deed>, i: nat) {
    i < |ds| && Answers(ds[i]) && exists r: nat :: r < i && Born(ds, r) && Waits(ds, r, i)
  }

  /** The ticket was handed out and is neither answered nor given up. */
  ghost predicate Unanswered(ds: seq<Deed>) {
    exists r: nat :: Born(ds, r) && Waits(ds, r, |ds|)
  }

  predicate WasHandedOut(ds: seq<Deed>) {
    exists j :: 0 <= j < |ds| && ds[j].HandedOut?
  }

  // ---------------------------------------------------------------- one deed more

  lemma BornSame(ds: seq<Deed>, d: Deed, r: nat)
    ensures r < |ds| ==> (Born(ds + [d], r) <==> Born(ds, r))
    ensures Born(ds + [d], |ds|) <==> d.HandedOut? && !WasHandedOut(ds)
  {
    var more := ds + [d];
    assert forall j :: 0 <= j < |ds| ==> more[j] == ds[j];
  }

  lemma WaitsSame(ds: seq<Deed>, d: Deed, r: nat, i: nat)
    requires i <= |ds|
    ensures Waits(ds + [d], r, i) <==> Waits(ds, r, i)
    ensures Waits(ds + [d], r, |ds| + 1) <==> Waits(ds, r, |ds|) && (r < |ds| ==> !Answers(d) && !d.GivenUp?)
  {
    var more := ds + [d];
    assert forall j :: 0 <= j < |ds| ==> more[j] == ds[j];
    assert more[|ds|] == d;
  }

  lemma UnansweredLast(ds: seq<Deed>, d: Deed)
    ensures Unanswered(ds + [d]) <==>
      (d.HandedOut? && !WasHandedOut(ds)) || (Unanswered(ds) && !Answers(d) && !d.GivenUp?)
  {
    var more := ds + [d];
    if Unanswered(more) {
      var r: nat :| Born(more, r) && Waits(more, r, |more|);
      BornSame(ds, d, r);
      WaitsSame(ds, d, r, |ds|);
    }
    if Unanswered(ds) && !Answers(d) && !d.GivenUp? {
      var r: nat :| Born(ds, r) && Waits(ds, r, |ds|);
      BornSame(ds, d, r);
      WaitsSame(ds, d, r, |ds|);
    }
    if d.HandedOut? && !WasHandedOut(ds) {
      BornSame(ds, d, |ds|);
      assert Waits(more, |ds|, |more|);
    }
  }

  lemma FirstAnswerSame(ds: seq<Deed>, d: Deed, i: nat)
    requires i < |ds|
    ensures FirstAnswer(ds + [d], i) <==> FirstAnswer(ds, i)
  {
    var more := ds + [d];
    assert more[i] == ds[i];
    if FirstAnswer(more, i) {
      var r: nat :| r < i && Born(more, r) && Waits(more, r, i);
      BornSame(ds, d, r);
      WaitsSame(ds, d, r, i);
    }
    if FirstAnswer(ds, i) {
      var r: nat :| r < i && Born(ds, r) && Waits(ds, r, i);
      BornSame(ds, d, r);
      WaitsSame(ds, d, r, i);
    }
  }

  lemma FirstAnswerLast(ds: seq<Deed>, d: Deed)
    ensures FirstAnswer(ds + [d], |ds|) <==> Answers(d) && Unanswered(ds)
  {
    var more := ds + [d];
    assert more[|ds|] == d;
    if FirstAnswer(more, |ds|) {
      var r: nat :| r < |ds| && Born(more, r) && Waits(more, r, |ds|);
      BornSame(ds, d, r);
      WaitsSame(ds, d, r, |ds|);
    }
    if Answers(d) && Unanswered(ds) {
      var r: nat :| Born(ds, r) && Waits(ds, r, |ds|);
      BornSame(ds, d, r);
      WaitsSame(ds, d, r, |ds|);
    }
  }

  // ---------------------------------------------------------------- the tables tell the life

  /** The tables of a worker say what became of a ticket. */
  ghost predicate Told(t: Tables, ds: seq<Deed>, id: Id) {
    && (id in t.pending <==> Unanswered(ds))
    && (forall i: nat :: FirstAnswer(ds, i) ==> RepliesTo(t, id) == [ReplyOf(ds[i].op).value])
    && ((forall i: nat :: !FirstAnswer(ds, i)) ==> RepliesTo(t, id) == [])
    && (RepliesTo(t, id) != [] || id in t.pending ==> WasHandedOut(ds))
  }

  lemma WasHandedLast(ds: seq<Deed>, d: Deed)
    ensures WasHandedOut(ds + [d]) <==> WasHandedOut(ds) || d.HandedOut?
  {
    var more := ds + [d];
    assert more[|ds|] == d && forall j :: 0 <= j < |ds| ==> more[j] == ds[j];
  }

  /** A deed that is no answer leaves the replies alone. */
  lemma NoReplyTold(t: Tables, t': Tables, ds: seq<Deed>, d: Deed, id: Id)
    requires Told(t, ds, id) && RepliesTo(t', id) == RepliesTo(t, id) && !(Answers(d) && Unanswered(ds))
    requires id in t'.pending <==> Unanswered(ds + [d])
    ensures Told(t', ds + [d], id)
  {
    var more := ds + [d];
    FirstAnswerLast(ds, d);
    WasHandedLast(ds, d);
    UnansweredLast(ds, d);
    forall i: nat ensures FirstAnswer(more, i) <==> FirstAnswer(ds, i) {
      if i < |ds| {
        FirstAnswerSame(ds, d, i);
      }
    }
    forall i: nat | FirstAnswer(more, i) ensures RepliesTo(t', id) == [ReplyOf(more[i].op).value] {
      assert FirstAnswer(ds, i) && more[i] == ds[i];
    }
  }

  lemma NotBoth(ds: seq<Deed>, i: nat)
    requires Unanswered(ds)
    ensures !FirstAnswer(ds, i)
  {}

  /** The first answer is the reply. */
  lemma ReplyTold(t: Tables, t': Tables, ds: seq<Deed>, d: Deed, id: Id)
    requires Told(t, ds, id) && Answers(d) && Unanswered(ds)
    requires id !in t'.pending && RepliesTo(t', id) == RepliesTo(t, id) + [ReplyOf(d.op).value]
    ensures Told(t', ds + [d], id)
  {
    var more := ds + [d];
    FirstAnswerLast(ds, d);
    WasHandedLast(ds, d);
    UnansweredLast(ds, d);
    forall i: nat ensures FirstAnswer(more, i) <==> i == |ds| {
      if i < |ds| {
        NotBoth(ds, i);
        FirstAnswerSame(ds, d, i);
      }
    }
    assert forall i: nat :: !FirstAnswer(ds, i) by {
      forall i: nat ensures !FirstAnswer(ds, i) {
        NotBoth(ds, i);
      }
    }
    assert more[|ds|] == d;
  }

  lemma CarriedTold(t: Tables, ds: seq<Deed>, id: Id, op: Op)
    requires Told(t, ds, id)
    ensures Told(Local(t, id, op).0, ds + [CarriedOut(op)], id)
    ensures Answers(CarriedOut(op)) ==> (Local(t, id, op).1 <==> FirstAnswer(ds + [CarriedOut(op)], |ds|))
  {
    var d := CarriedOut(op);
    var t' := Local(t, id, op).0;
    UnansweredLast(ds, d);
    FirstAnswerLast(ds, d);
    if Answers(d) && Unanswered(ds) {
      ReplyTold(t, t', ds, d, id);
    } else {
      NoReplyTold(t, t', ds, d, id);
    }
  }

  lemma NothingTold(t: Tables, t': Tables, ds: seq<Deed>, id: Id)
    requires Told(t, ds, id) && RepliesTo(t', id) == RepliesTo(t, id) && (id in t'.pending <==> id in t.pending)
    ensures Told(t', ds + [Nothing], id)
  {
    UnansweredLast(ds, Nothing);
    NoReplyTold(t, t', ds, Nothing, id);
  }

  /** An operation for another ticket. */
  lemma OtherTold(t: Tables, ds: seq<Deed>, id: Id, other: Id, op: Op)
    requires Told(t, ds, id) && other != id
    ensures Told(Local(t, other, op).0, ds + [Nothing], id)
  {
    NothingTold(t, Local(t, other, op).0, ds, id);
  }

  lemma HandedTold(t: Tables, ds: seq<Deed>, id: Id)
    requires Told(t, ds, id) && !WasHandedOut(ds)
    ensures Told(t.(pending := t.pending + {id}), ds + [HandedOut], id)
  {
    UnansweredLast(ds, HandedOut);
    NoReplyTold(t, t.(pending := t.pending + {id}), ds, HandedOut, id);
  }

  lemma GivenUpTold(t: Tables, ds: seq<Deed>, id: Id)
    requires Told(t, ds, id)
    ensures Told(t.(pending := t.pending - {id}), ds + [GivenUp], id)
  {
    UnansweredLast(ds, GivenUp);
    NoReplyTold(t, t.(pending := t.pending - {id}), ds, GivenUp, id);
  }

  // ---------------------------------------------------------------- whole runs

  lemma {:induction false} CountIsRegistrations(evs: seq<Event>, worker: nat)
    ensures At(Run(evs), worker).count == Registrations(evs, worker)
    ensures At(Run(evs), worker).next == LocalAt(Registrations(evs, worker))
  {
    if evs != [] {
      var before := evs[..|evs| - 1];
      CountIsRegistrations(before, worker);
      EffectOnOne(Run(before), evs[|evs| - 1], worker);
    }
  }

  /** A ticket that was handed out has one of the numbers given out so far. */
  lemma {:induction false} HandedIsIssued(evs: seq<Event>, worker: nat, id: Id)
    ensures WasHandedOut(Deeds(evs, worker, id)) ==> Issued(worker, Registrations(evs, worker), id)
  {
    if evs != [] {
      var before, ev := evs[..|evs| - 1], evs[|evs| - 1];
      HandedIsIssued(before, worker, id);
      WasHandedLast(Deeds(before, worker, id), DeedOf(before, ev, worker, id));
      if DeedOf(before, ev, worker, id).HandedOut? {
        assert id == IdOf(worker, LocalAt(Registrations(before, worker)));
      } else if WasHandedOut(Deeds(before, worker, id)) {
        var k :| 0 <= k < Registrations(before, worker) && id == IdOf(worker, LocalAt(k));
        assert k < Registrations(evs, worker);
      }
    }
  }

  /** While numbers last, no ticket is handed out twice. */
  lemma HandedOnce(evs: seq<Event>, worker: nat, id: Id)
    requires Registrations(evs, worker) < LOCALS && id == IdOf(worker, LocalAt(Registrations(evs, worker)))
    ensures !WasHandedOut(Deeds(evs, worker, id))
  {
    HandedIsIssued(evs, worker, id);
    var n := Registrations(evs, worker);
    if Issued(worker, n, id) {
      var k :| 0 <= k < n && id == IdOf(worker, LocalAt(k));
      SameIdIff(worker, k, n);
      SmallMod(n - k);
    }
  }

  lemma RegisterTold(w: Worker, worker: nat, ds: seq<Deed>, id: Id)
    requires Told(w.tables, ds, id) && (id == IdOf(worker, w.next) ==> !WasHandedOut(ds))
    ensures Told(Register(worker, w).tables, ds + [if id == IdOf(worker, w.next) then HandedOut else Nothing], id)
  {
    if id == IdOf(worker, w.next) {
      HandedTold(w.tables, ds, id);
    } else {
      NothingTold(w.tables, Register(worker, w).tables, ds, id);
    }
  }

  lemma CarryTold(t: Tables, ds: seq<Deed>, id: Id, called: Id, op: Op)
    requires Told(t, ds, id)
    ensures Told(Local(t, called, op).0, ds + [if called == id then CarriedOut(op) else Nothing], id)
  {
    if called == id {
      CarriedTold(t, ds, id, op);
    } else {
      OtherTold(t, ds, id, called, op);
    }
  }

  lemma PumpTold(w: Worker, ds: seq<Deed>, id: Id)
    requires Told(w.tables, ds, id)
    ensures Told(Pump(w).tables,
                 ds + [if Mail(w) != [] && Mail(w)[0].0 == id then CarriedOut(Mail(w)[0].1) else Nothing], id)
  {
    if Mail(w) == [] {
      NothingTold(w.tables, w.tables, ds, id);
    } else {
      CarryTold(w.tables, ds, id, Mail(w)[0].0, Mail(w)[0].1);
    }
  }

  lemma ForgetTold(w: Worker, ds: seq<Deed>, id: Id, called: Id)
    requires Told(w.tables, ds, id)
    ensures Told(Forgotten(w, called).tables, ds + [if called == id then GivenUp else Nothing], id)
  {
    if called == id {
      GivenUpTold(w.tables, ds, id);
    } else {
      NothingTold(w.tables, Forgotten(w, called).tables, ds, id);
    }
  }

  lemma CallTold(w: Worker, worker: nat, ds: seq<Deed>, id: Id, ev: Event)
    requires Told(w.tables, ds, id) && ev.Calls?
    ensures Told(Effect(worker, w, ev).tables,
                 ds + [if ev.thread == worker && ev.id == id && id != 0 && WorkerOf(id) == worker
                       then CarriedOut(ev.op) else Nothing], id)
  {
    if ev.id == 0 || WorkerOf(ev.id) != worker || ev.thread != worker {
      NothingTold(w.tables, w.tables, ds, id);
    } else {
      CarryTold(w.tables, ds, id, ev.id, ev.op);
    }
  }

  lemma EffectTold(evs: seq<Event>, ev: Event, worker: nat, id: Id)
    requires Told(At(Run(evs), worker).tables, Deeds(evs, worker, id), id)
    requires ev == Registers(worker) ==> Registrations(evs, worker) < LOCALS
    ensures var w := Effect(worker, At(Run(evs), worker), ev);
      Told(w.tables, Deeds(evs, worker, id) + [DeedOf(evs, ev, worker, id)], id)
  {
    var w, ds := At(Run(evs), worker), Deeds(evs, worker, id);
    NothingTold(w.tables, w.tables, ds, id);
    match ev
    case Registers(t) =>
      if t == worker {
        CountIsRegistrations(evs, worker);
        if id == IdOf(worker, w.next) {
          HandedOnce(evs, worker, id);
        }
        RegisterTold(w, worker, ds, id);
      }
    case Forgets(t, called) => ForgetTold(w, ds, id, called);
    case Calls(_, _, _) => CallTold(w, worker, ds, id, ev);
    case Pumps(t) => PumpTold(w, ds, id);
    case Installs(_) =>
  }

  lemma {:induction false} RunTold(evs: seq<Event>, worker: nat, id: Id)
    requires Registrations(evs, worker) <= LOCALS
    ensures Told(At(Run(evs), worker).tables, Deeds(evs, worker, id), id)
  {
    if evs != [] {
      var before, ev := evs[..|evs| - 1], evs[|evs| - 1];
      RunTold(before, worker, id);
      EffectTold(before, ev, worker, id);
      EffectOnOne(Run(before), ev, worker);
    }
  }

  /**
    The replies of a ticket, in every run and while its worker's numbers last: exactly one if somebody answered it
    after it was handed out and before it was given up, and it is the one of the first such call; and none otherwise.
    It is unanswered exactly if it was handed out and neither has happened.
  */
  lemma FirstAnswerIsTheReply(evs: seq<Event>, worker: nat, id: Id)
    requires Registrations(evs, worker) <= LOCALS
    ensures var (t, ds) := (At(Run(evs), worker).tables, Deeds(evs, worker, id));
      && (forall i: nat :: FirstAnswer(ds, i) ==> RepliesTo(t, id) == [ReplyOf(ds[i].op).value])
      && ((forall i: nat :: !FirstAnswer(ds, i)) ==> RepliesTo(t, id) == [])
      && (id in t.pending <==> Unanswered(ds))
  {
    RunTold(evs, worker, id);
  }

  lemma {:induction false} DeedsPrefix(evs: seq<Event>, worker: nat, id: Id, i: nat)
    requires i <= |evs|
    ensures Deeds(evs[..i], worker, id) == Deeds(evs, worker, id)[..i]
    decreases |evs|
  {
    if i == |evs| {
      assert evs[..i] == evs;
    } else {
      assert evs[..i] == evs[..|evs| - 1][..i];
      DeedsPrefix(evs[..|evs| - 1], worker, id, i);
    }
  }

  lemma {:induction false} RegistrationsGrow(evs: seq<Event>, worker: nat, i: nat)
    requires i <= |evs|
    ensures Registrations(evs[..i], worker) <= Registrations(evs, worker)
    decreases |evs|
  {
    if i == |evs| {
      assert evs[..i] == evs;
    } else {
      assert evs[..i] == evs[..|evs| - 1][..i];
      RegistrationsGrow(evs[..|evs| - 1], worker, i);
    }
  }

  /** The log of a worker after a call or a command for a ticket. */
  lemma LogAfter(s: State, ev: Event, worker: nat, id: Id, op: Op)
    requires (ev == Calls(worker, id, op) && id != 0 && WorkerOf(id) == worker)
          || (ev == Pumps(worker) && Mail(At(s, worker)) != [] && Mail(At(s, worker))[0] == (id, op))
    ensures At(Apply(s, ev), worker).hist.log ==
      At(s, worker).hist.log + [Entry(id, op, Local(At(s, worker).tables, id, op).1, ev.Pumps?)]
  {
    EffectOnOne(s, ev, worker);
  }

  /** A call that answers a ticket is logged as sent if and only if it is the first answer of the ticket. */
  lemma SentIffFirst(evs: seq<Event>, worker: nat, id: Id, i: nat)
    requires Registrations(evs, worker) <= LOCALS
    requires i < |evs| && Answers(Deeds(evs, worker, id)[i])
    ensures var (w, w', ds) := (At(Run(evs[..i]), worker), At(Run(evs[..i + 1]), worker), Deeds(evs, worker, id));
      w'.hist.log == w.hist.log + [Entry(id, ds[i].op, FirstAnswer(ds, i), evs[i].Pumps?)]
  {
    var ds, before := Deeds(evs, worker, id), evs[..i];
    var w := At(Run(before), worker);
    DeedsPrefix(evs, worker, id, i);
    DeedsPrefix(evs, worker, id, i + 1);
    assert evs[..i + 1][..i] == before;
    assert ds[i] == DeedOf(before, evs[i], worker, id);
    RegistrationsGrow(evs, worker, i);
    RunTold(before, worker, id);
    CarriedTold(w.tables, ds[..i], id, ds[i].op);
    LogAfter(Run(before), evs[i], worker, id, ds[i].op);
    assert ds[..i + 1] == ds[..i] + [ds[i]];
    FirstAnswerPrefix(ds, i);
  }

  lemma FirstAnswerPrefix(ds: seq<Deed>, i: nat)
    requires i < |ds|
    ensures FirstAnswer(ds[..i + 1], i) <==> FirstAnswer(ds, i)
  {
    var part := ds[..i + 1];
    assert forall j :: 0 <= j <= i ==> part[j] == ds[j];
    if FirstAnswer(ds, i) {
      var r: nat :| r < i && Born(ds, r) && Waits(ds, r, i);
      assert Born(part, r) && Waits(part, r, i);
    }
    if FirstAnswer(part, i) {
      var r: nat :| r < i && Born(part, r) && Waits(part, r, i);
      assert Born(ds, r) && Waits(ds, r, i);
    }
  }
}
