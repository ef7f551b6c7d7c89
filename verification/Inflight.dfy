/** The ceiling on requests in flight (`client/mod.rs`), as atomic steps of senders and jobs in any order. */
module Inflight {
  import opened Basics

  /**
    `inflight` is the shared counter. The other numbers say where its slots are: sends between claiming a slot and
    handing the job over, jobs in the queue, jobs running, and slots that are never given back.
  */
  datatype State = State(inflight: nat, sending: nat, queued: nat, running: nat, lost: nat)

  const START := State(0, 0, 0, 0, 0)

  datatype Event =
    | Claim      // `fetch_update` in `geario_http_client_send`; refused at the ceiling
    | Reject     // a malformed request is refused after its slot was claimed
    | Enqueue    // the job is handed to the worker
    | Refuse     // the worker is gone: the slot is given back
    | Start      // the job runs, and its guard exists
    | Abandon    // the worker stops with the job still queued
    | Finish     // the guard of a job is dropped

  /** An event can only happen to a send or a job that is there. */
  predicate Enabled(s: State, ev: Event) {
    match ev
    case Claim => true
    case Reject => s.sending > 0
    case Enqueue => s.sending > 0
    case Refuse => s.sending > 0
    case Start => s.queued > 0
    case Abandon => s.queued > 0
    case Finish => s.running > 0
  }

  /** `fetch_sub` on an unsigned counter; below zero it would wrap around. */
  function Release(n: nat): nat {
    if n > 0 then n - 1 else 0xFFFF_FFFF
  }

  function Apply(s: State, max: nat, ev: Event): State
    requires Enabled(s, ev)
  {
    match ev
    case Claim => if s.inflight < max then s.(inflight := s.inflight + 1, sending := s.sending + 1) else s
    case Reject => s.(sending := s.sending - 1, lost := s.lost + 1)
    case Enqueue => s.(sending := s.sending - 1, queued := s.queued + 1)
    case Refuse => s.(sending := s.sending - 1, inflight := Release(s.inflight))
    case Start => s.(queued := s.queued - 1, running := s.running + 1)
    case Abandon => s.(queued := s.queued - 1, lost := s.lost + 1)
    case Finish => s.(running := s.running - 1, inflight := Release(s.inflight))
  }

  /** The state after a run, if the run is possible at all. */
  function Run(max: nat, evs: seq<Event>): Option<State> {
    if evs == [] then Some(START)
    else
      var s := Run(max, evs[..|evs| - 1]);
      if s.Some? && Enabled(s.value, evs[|evs| - 1]) then Some(Apply(s.value, max, evs[|evs| - 1])) else None
  }

  /** How often an event happens in a run. */
  function Count(evs: seq<Event>, ev: Event): nat {
    if evs == [] then 0 else Count(evs[..|evs| - 1], ev) + if evs[|evs| - 1] == ev then 1 else 0
  }

  ghost predicate AddsUp(max: nat, s: State, lost: nat) {
    && s.inflight == s.sending + s.queued + s.running + s.lost
    && s.inflight <= max
    && s.lost == lost
  }

  lemma ApplyAddsUp(max: nat, s: State, ev: Event, lost: nat)
    requires Enabled(s, ev) && AddsUp(max, s, lost)
    ensures AddsUp(max, Apply(s, max, ev), lost + if ev.Reject? || ev.Abandon? then 1 else 0)
  {}

  lemma {:induction false} SlotsAddUp(max: nat, evs: seq<Event>)
    requires Run(max, evs).Some?
    ensures AddsUp(max, Run(max, evs).value, Count(evs, Reject) + Count(evs, Abandon))
  {
    if evs != [] {
      var before := evs[..|evs| - 1];
      SlotsAddUp(max, before);
      ApplyAddsUp(max, Run(max, before).value, evs[|evs| - 1], Count(before, Reject) + Count(before, Abandon));
    }
  }

  /** A send is let in exactly while live sends and jobs and the slots that were lost leave room below the ceiling. */
  lemma LetInIffRoom(max: nat, evs: seq<Event>)
    requires Run(max, evs).Some?
    ensures var s := Run(max, evs).value;
      var used := s.sending + s.queued + s.running + Count(evs, Reject) + Count(evs, Abandon);
      Apply(s, max, Claim) ==
        if used < max then s.(inflight := s.inflight + 1, sending := s.sending + 1) else s
  {
    SlotsAddUp(max, evs);
  }

  /**
    Every slot is accounted for in every run: the counter never exceeds the ceiling, is not released below zero, and
    bounds the jobs queued or running. It equals the live sends and jobs exactly as long as no request was refused
    after its claim and no job was abandoned.
  */
  lemma CeilingHolds(max: nat, evs: seq<Event>)
    requires Run(max, evs).Some?
    ensures var s := Run(max, evs).value;
      && s.queued + s.running <= s.inflight <= max
      && (Enabled(s, Refuse) || Enabled(s, Finish) ==> s.inflight > 0)
      && (s.inflight == s.sending + s.queued + s.running <==> Count(evs, Reject) == 0 && Count(evs, Abandon) == 0)
  {
    SlotsAddUp(max, evs);
  }

  // ---------------------------------------------------------------- slots that are lost

  lemma {:induction false} CountsGrow(evs: seq<Event>, more: seq<Event>, ev: Event)
    ensures Count(evs + more, ev) >= Count(evs, ev)
  {
    if more == [] {
      assert evs + more == evs;
    } else {
      assert (evs + more)[..|evs + more| - 1] == evs + more[..|more| - 1];
      CountsGrow(evs, more[..|more| - 1], ev);
    }
  }

  /** Every slot is lost. */
  predicate AllLost(max: nat, evs: seq<Event>) {
    Count(evs, Reject) + Count(evs, Abandon) == max
  }

  /**
    Once as many requests were refused late or jobs abandoned as there are slots, no continuation of the run ever
    sends again: every claim is refused.
  */
  lemma LostForGood(max: nat, evs: seq<Event>, more: seq<Event>)
    requires AllLost(max, evs) && Run(max, evs + more).Some?
    ensures var s := Run(max, evs + more).value;
      s.inflight == max && s.sending + s.queued + s.running == 0 && Apply(s, max, Claim) == s
  {
    CountsGrow(evs, more, Reject);
    CountsGrow(evs, more, Abandon);
    SlotsAddUp(max, evs + more);
  }

  /** A client with one slot, after one malformed request. */
  lemma OneBadRequest(more: seq<Event>)
    requires Run(1, [Claim, Reject] + more).Some?
    ensures Apply(Run(1, [Claim, Reject] + more).value, 1, Claim) == Run(1, [Claim, Reject] + more).value
    ensures Run(1, [Claim, Reject]) == Some(State(1, 0, 0, 0, 1))
  {
    assert [Claim, Reject][..1] == [Claim] && [Claim][..0] == [];
    assert Run(1, []) == Some(START);
    assert Run(1, [Claim]) == Some(State(1, 1, 0, 0, 0));
    assert Count([], Reject) == 0 && Count([Claim], Reject) == 0 && Count([Claim], Abandon) == 0;
    LostForGood(1, [Claim, Reject], more);
  }
}
