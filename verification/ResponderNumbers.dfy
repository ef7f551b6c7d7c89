/** What becomes of tickets when a worker runs out of numbers. */
module ResponderNumbers {
  import opened Basics
  import opened Responder

  /** No ticket is both unanswered and streaming. */
  ghost predicate ClashFree(s: State) {
    forall t :: t in s ==> s[t].tables.pending !! s[t].tables.streaming
  }

  /** A registration that hands out a number that is still streaming. */
  predicate Meets(s: State, ev: Event) {
    ev.Registers? && IdOf(ev.thread, At(s, ev.thread).next) in At(s, ev.thread).tables.streaming
  }

  lemma CarryKeepsApart(t: Tables, id: Id, op: Op)
    requires t.pending !! t.streaming
    ensures var t' := Local(t, id, op).0; t'.pending !! t'.streaming
  {}

  lemma ClashStep(s: State, ev: Event)
    requires ClashFree(s)
    ensures ClashFree(Apply(s, ev)) <==> !Meets(s, ev)
  {
    match ev
    case Registers(t) =>
      if Meets(s, ev) {
        var id := IdOf(t, At(s, t).next);
        assert id in Apply(s, ev)[t].tables.pending && id in Apply(s, ev)[t].tables.streaming;
      }
    case Pumps(t) =>
      var w := At(s, t);
      if w.mailbox.Some? && w.mailbox.value != [] {
        CarryKeepsApart(w.tables, w.mailbox.value[0].0, w.mailbox.value[0].1);
      }
    case Calls(t, id, op) => CarryKeepsApart(At(s, t).tables, id, op);
    case _ =>
  }

  /** At no point of the run is a ticket in both tables. */
  ghost predicate NeverClashes(evs: seq<Event>) {
    ClashFree(Run(evs)) && (evs != [] ==> NeverClashes(evs[..|evs| - 1]))
  }

  /** No registration of the run meets its number still streaming. */
  predicate MeetsNothing(evs: seq<Event>) {
    evs != [] ==> !Meets(Run(evs[..|evs| - 1]), evs[|evs| - 1]) && MeetsNothing(evs[..|evs| - 1])
  }

  /** A run never has a ticket in both tables if and only if no registration meets its number still streaming. */
  lemma {:induction false} NeverClashesIff(evs: seq<Event>)
    ensures NeverClashes(evs) <==> MeetsNothing(evs)
  {
    if evs != [] {
      var before := evs[..|evs| - 1];
      NeverClashesIff(before);
      if ClashFree(Run(before)) {
        ClashStep(Run(before), evs[|evs| - 1]);
      }
    }
  }

  // ---------------------------------------------------------------- how many registrations it takes

  ghost predicate AtMost(s: State, n: nat) {
    forall t :: t in s ==> s[t].count <= n
  }

  const FIRST: Id := IdOf(1, 1)

  /** One worker opens the body of its first ticket and goes on registering. */
  function WrapRun(n: nat): seq<Event> {
    if n == 0 then [Registers(1), Calls(1, FIRST, Begin(0))] else WrapRun(n - 1) + [Registers(1)]
  }

  ghost predicate Wrapping(s: State, n: nat) {
    && s.Keys == {1} && s[1].count == n + 1 && s[1].next == LocalAt(n + 1)
    && FIRST in s[1].tables.streaming
    && (n > 0 && n % LOCALS == 0 ==> FIRST in s[1].tables.pending)
  }

  lemma WrapStart()
    ensures Wrapping(Run(WrapRun(0)), 0)
  {
    var evs := [Registers(1), Calls(1, FIRST, Begin(0))];
    assert evs[..1] == [Registers(1)] && [Registers(1)][..0] == [];
    var s := Run([Registers(1)]);
    assert s == map[1 := Register(1, NEW_WORKER)];
    assert WorkerOf(FIRST) == 1;
    assert Run(evs) == Apply(s, Calls(1, FIRST, Begin(0)));
    assert LocalAt(1) == NextLocal(LocalAt(0));
  }

  lemma WrapStep(s: State, n: nat)
    requires n > 0 && Wrapping(s, n - 1)
    ensures Wrapping(Apply(s, Registers(1)), n)
  {
    LocalCycle(n);
  }

  lemma {:induction false} WrapRunEnds(n: nat)
    ensures Wrapping(Run(WrapRun(n)), n)
  {
    if n == 0 {
      WrapStart();
    } else {
      WrapRunEnds(n - 1);
      WrapStep(Run(WrapRun(n - 1)), n);
      assert WrapRun(n)[..|WrapRun(n - 1)|] == WrapRun(n - 1);
    }
  }

  /** After 2^32 - 1 more registrations the first ticket is unanswered and streaming. */
  lemma WrapClashes(n: nat)
    requires n == LOCALS
    ensures AtMost(Run(WrapRun(n)), n + 1) && !ClashFree(Run(WrapRun(n)))
  {
    WrapRunEnds(n);
    var s := Run(WrapRun(n));
    assert n % LOCALS == 0;
    assert 1 in s && FIRST in s[1].tables.pending && FIRST in s[1].tables.streaming;
  }

  /** All runs with at most `n` registrations per worker are free of clashes if and only if there are `n` numbers. */
  lemma ClashFreeIffEnoughNumbers(n: nat)
    ensures (forall evs :: AtMost(Run(evs), n) ==> ClashFree(Run(evs))) <==> n <= LOCALS
  {
    if n <= LOCALS {
      forall evs | AtMost(Run(evs), n) ensures ClashFree(Run(evs)) {
        RunKeeps(evs);
        var s := Run(evs);
        assert forall t :: t in s ==> WorkerInv(t, s[t]);
      }
    } else {
      var k: nat :| k == LOCALS;
      WrapClashes(k);
    }
  }
}
