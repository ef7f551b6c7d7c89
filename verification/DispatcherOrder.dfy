/** In which order a connection reads, answers and reads on, over every run of the dispatcher. */
module DispatcherOrder {
  import opened Basics
  import opened Dispatcher

  // ---------------------------------------------------------------- every request gets its response

  /** Until a disconnect message is sent, there is a response head for every request but the one being decided about. */
  ghost predicate Paired(s: State) {
    !s.inner.sent ==> s.log.decoded == s.log.heads + if Serving(s.st) || s.st.Failed? then 1 else 0
  }

  lemma AnswerPairs(s: State, a: Answer, closed: bool, wireFails: bool)
    requires Inv(s) && Paired(s) && s.st.CallControl? && BuiltFrom(s.st.msg, a)
    ensures Paired(OnAnswer(s, a, closed, wireFails))
  {}

  lemma SendPairs(s: State, closed: bool, poll: PayloadPoll, body: BodyTurn)
    requires Inv(s) && Paired(s) && s.st.SendPayload?
    ensures Paired(SendStep(s, closed, poll, body))
  {}

  lemma ApplyPairs(s: State, ev: Event)
    requires Inv(s) && Paired(s) && Enabled(s, ev)
    ensures Paired(Apply(s, ev))
  {
    match ev
    case Answered(a, closed, wireFails) => AnswerPairs(s, a, closed, wireFails);
    case SendTurn(closed, poll, body) => SendPairs(s, closed, poll, body);
    case _ =>
  }

  lemma {:induction false} RunPairs(evs: seq<Event>)
    requires Run(evs).Some?
    ensures Paired(Run(evs).value)
  {
    if evs != [] {
      RunPairs(evs[..|evs| - 1]);
      RunKeeps(evs[..|evs| - 1]);
      ApplyPairs(Run(evs[..|evs| - 1]).value, evs[|evs| - 1]);
    }
  }

  /** Whenever the dispatcher turns to reading, every request decoded so far has had exactly one response head. */
  lemma EveryRequestAnswered(evs: seq<Event>)
    requires Run(evs).Some?
    ensures var s := Run(evs).value;
      (s.st.ReadRequest? || s.st.ReadPayload? || s.st.SendPayload?) && !s.inner.sent ==> s.log.heads == s.log.decoded
  {
    RunPairs(evs);
  }

  // ---------------------------------------------------------------- the payload of the request

  /** What the request payload was asked for in a turn, if it was asked. */
  function Asked(s: State, ev: Event): Option<PayloadPoll> {
    match ev
    case PublishWaits(poll, _) => Some(poll)
    case ControlWaits(poll) => Some(poll)
    case PayloadTurn(poll) => Some(poll)
    case SendTurn(closed, poll, _) => if closed || s.inner.disconnect.Some? then None else Some(poll)
    case _ => None
  }

  /** The turn decodes a request that has a payload. */
  predicate Opens(evs: seq<Event>, i: nat)
    requires i < |evs|
  {
    && evs[i] == Reads(Item(true))
    && Run(evs[..i]).Some? && Run(evs[..i + 1]).Some?
    && Run(evs[..i + 1]).value.log.decoded > Run(evs[..i]).value.log.decoded
  }

  /** The turn finds the payload at its end, or dropped by its reader. */
  predicate Ends(evs: seq<Event>, i: nat)
    requires i < |evs|
  {
    Run(evs[..i]).Some? &&
    var asked := Asked(Run(evs[..i]).value, evs[i]);
    asked == Some(PlEnds) || asked == Some(PlDropped)
  }

  /** A payload was opened and has not ended since. */
  ghost predicate PayloadOpen(evs: seq<Event>) {
    exists i :: 0 <= i < |evs| && Opens(evs, i) && forall j :: i < j < |evs| ==> !Ends(evs, j)
  }

  lemma PrefixSame(evs: seq<Event>, i: nat)
    requires evs != [] && i < |evs| - 1
    ensures var before := evs[..|evs| - 1];
      (Opens(evs, i) <==> Opens(before, i)) && (Ends(evs, i) <==> Ends(before, i))
  {
    var before := evs[..|evs| - 1];
    assert evs[..i] == before[..i] && evs[..i + 1] == before[..i + 1];
  }

  lemma OpenBefore(evs: seq<Event>)
    requires evs != [] && PayloadOpen(evs) && !Opens(evs, |evs| - 1)
    ensures PayloadOpen(evs[..|evs| - 1]) && !Ends(evs, |evs| - 1)
  {
    var n, before := |evs| - 1, evs[..|evs| - 1];
    var i :| 0 <= i < |evs| && Opens(evs, i) && forall j :: i < j < |evs| ==> !Ends(evs, j);
    PrefixSame(evs, i);
    forall j | i < j < n ensures !Ends(before, j) {
      PrefixSame(evs, j);
    }
  }

  lemma OpenAfter(evs: seq<Event>)
    requires evs != [] && PayloadOpen(evs[..|evs| - 1]) && !Ends(evs, |evs| - 1)
    ensures PayloadOpen(evs)
  {
    var n, before := |evs| - 1, evs[..|evs| - 1];
    var i :| 0 <= i < n && Opens(before, i) && forall j :: i < j < n ==> !Ends(before, j);
    PrefixSame(evs, i);
    forall j | i < j < |evs| ensures !Ends(evs, j) {
      if j < n {
        PrefixSame(evs, j);
      }
    }
  }

  lemma PayloadOpenLast(evs: seq<Event>)
    requires evs != []
    ensures var n := |evs| - 1; PayloadOpen(evs) <==> Opens(evs, n) || (PayloadOpen(evs[..n]) && !Ends(evs, n))
  {
    var n := |evs| - 1;
    if PayloadOpen(evs) && !Opens(evs, n) {
      OpenBefore(evs);
    } else if PayloadOpen(evs[..n]) && !Ends(evs, n) {
      OpenAfter(evs);
    }
  }

  lemma PayloadStays(s: State, ev: Event)
    requires Enabled(s, ev)
    ensures var t := Apply(s, ev);
      var asked := Asked(s, ev);
      t.inner.payload <==>
        || (ev == Reads(Item(true)) && t.log.decoded > s.log.decoded)
        || (s.inner.payload && asked != Some(PlEnds) && asked != Some(PlDropped))
  {
    match ev
    case Answered(a, closed, wireFails) => AnswerKeepsPayload(s, a, closed, wireFails);
    case SendTurn(closed, poll, body) => SendKeepsPayload(s, closed, poll, body);
    case _ =>
  }

  lemma AnswerKeepsPayload(s: State, a: Answer, closed: bool, wireFails: bool)
    ensures OnAnswer(s, a, closed, wireFails).inner.payload == s.inner.payload
  {}

  lemma SendKeepsPayload(s: State, closed: bool, poll: PayloadPoll, body: BodyTurn)
    ensures var asked := Asked(s, SendTurn(closed, poll, body));
      SendStep(s, closed, poll, body).inner.payload <==>
        s.inner.payload && asked != Some(PlEnds) && asked != Some(PlDropped)
  {}

  /** The dispatcher has an open payload exactly if the run opened one and it has not ended since. */
  lemma {:induction false} PayloadTracked(evs: seq<Event>)
    requires Run(evs).Some?
    ensures Run(evs).value.inner.payload <==> PayloadOpen(evs)
  {
    if evs != [] {
      var before, n := evs[..|evs| - 1], |evs| - 1;
      PayloadTracked(before);
      PayloadStays(Run(before).value, evs[n]);
      PayloadOpenLast(evs);
      assert evs[..n + 1] == evs;
    }
  }

  // ---------------------------------------------------------------- what follows a response

  /** An answer that is a response without a body. */
  predicate EmptyResponse(a: Answer) {
    match a
    case Respond(empty) => empty
    case UpgradeFails(empty) => empty
    case ExpectFails(empty) => empty
    case ErrorResponse(empty) => empty
    case ProtoResponse(empty) => empty
    case _ => false
  }

  /** The turn writes the last of a response. */
  predicate Finishes(ev: Event) {
    match ev
    case Published(closed, empty) => !closed && empty
    case Answered(a, closed, _) => !closed && EmptyResponse(a)
    case SendTurn(closed, _, body) => !closed && body.BodyEnds?
    case _ => false
  }

  /** The connection goes on: no disconnect message was added and it does not stop. */
  predicate GoesOn(s: State, t: State) {
    t.log.leaving == s.log.leaving && !t.st.Stop?
  }

  lemma FinishedThen(s: State, ev: Event)
    requires Enabled(s, ev) && Finishes(ev) && GoesOn(s, Apply(s, ev))
    ensures var t := Apply(s, ev); t.st == (if t.inner.payload then ReadPayload else ReadRequest)
  {
    match ev
    case Answered(a, closed, wireFails) => AnsweredThen(s, a, wireFails);
    case SendTurn(closed, poll, _) => SentThen(s, poll);
    case _ =>
  }

  lemma AnsweredThen(s: State, a: Answer, wireFails: bool)
    requires EmptyResponse(a) && GoesOn(s, OnAnswer(s, a, false, wireFails))
    ensures var t := OnAnswer(s, a, false, wireFails); t.st == (if t.inner.payload then ReadPayload else ReadRequest)
  {}

  lemma SentThen(s: State, poll: PayloadPoll)
    requires GoesOn(s, SendStep(s, false, poll, BodyEnds))
    ensures var t := SendStep(s, false, poll, BodyEnds); t.st == (if t.inner.payload then ReadPayload else ReadRequest)
  {}

  lemma {:induction false} RunPrefix(evs: seq<Event>, i: nat)
    requires i <= |evs| && Run(evs).Some?
    ensures Run(evs[..i]).Some?
    decreases |evs|
  {
    if i == |evs| {
      assert evs[..i] == evs;
    } else {
      assert evs[..i] == evs[..|evs| - 1][..i];
      RunPrefix(evs[..|evs| - 1], i);
    }
  }

  /**
    After a response is finished and the connection goes on: with the request's payload still open, the next turn
    reads the payload, so that the head decoder is not called on it; with no open payload the next turn reads a
    request.
  */
  lemma AfterResponse(evs: seq<Event>, i: nat)
    requires Run(evs).Some? && i + 1 < |evs| && Finishes(evs[i])
    ensures Run(evs[..i]).Some? && Run(evs[..i + 1]).Some?
    ensures GoesOn(Run(evs[..i]).value, Run(evs[..i + 1]).value) ==>
      if PayloadOpen(evs[..i + 1]) then evs[i + 1].PayloadTurn? else evs[i + 1].Reads?
  {
    RunPrefix(evs, i);
    RunPrefix(evs, i + 1);
    RunPrefix(evs, i + 2);
    var s, t := Run(evs[..i]).value, Run(evs[..i + 1]).value;
    assert evs[..i + 1][..i] == evs[..i] && evs[..i + 2][..i + 1] == evs[..i + 1];
    if GoesOn(s, t) {
      FinishedThen(s, evs[i]);
      PayloadTracked(evs[..i + 1]);
    }
  }

  /** So the head decoder is not called again before the open payload was read from. */
  lemma PayloadBeforeHead(evs: seq<Event>, i: nat, j: nat)
    requires Run(evs).Some? && i < j <= |evs| && Finishes(evs[i])
    ensures Run(evs[..i]).Some? && Run(evs[..i + 1]).Some? && Run(evs[..j]).Some?
    ensures GoesOn(Run(evs[..i]).value, Run(evs[..i + 1]).value) && PayloadOpen(evs[..i + 1])
            && Run(evs[..j]).value.log.calls > Run(evs[..i + 1]).value.log.calls ==>
      exists k :: i < k < j && evs[k].PayloadTurn?
  {
    RunPrefix(evs, i);
    RunPrefix(evs, i + 1);
    RunPrefix(evs, j);
    if i + 1 < j {
      AfterResponse(evs, i);
    }
  }

  /** An answer that is a response with a body. */
  predicate FullResponse(a: Answer) {
    match a
    case Respond(empty) => !empty
    case UpgradeFails(empty) => !empty
    case ExpectFails(empty) => !empty
    case ErrorResponse(empty) => !empty
    case ProtoResponse(empty) => !empty
    case _ => false
  }

  /** The turn leaves a response whose body is still to be sent. */
  predicate BodyPending(ev: Event) {
    match ev
    case Published(closed, empty) => !closed && !empty
    case Answered(a, closed, _) => !closed && FullResponse(a)
    case SendTurn(closed, _, body) => !closed && body.BodyWaits?
    case _ => false
  }

  lemma PendingThen(s: State, ev: Event)
    requires Enabled(s, ev) && BodyPending(ev)
    ensures Apply(s, ev).st == SendPayload
  {
    if ev.Answered? {
      FullThen(s, ev.answer, ev.wireFails);
    }
  }

  lemma FullThen(s: State, a: Answer, wireFails: bool)
    requires FullResponse(a)
    ensures OnAnswer(s, a, false, wireFails).st == SendPayload
  {}

  /** A response body is sent to its end: after its head, and after every turn that had to wait, comes a turn of it. */
  lemma BodyIsSent(evs: seq<Event>, i: nat)
    requires Run(evs).Some? && i + 1 < |evs| && BodyPending(evs[i])
    ensures evs[i + 1].SendTurn?
  {
    RunPrefix(evs, i);
    RunPrefix(evs, i + 1);
    RunPrefix(evs, i + 2);
    assert evs[..i + 1][..i] == evs[..i] && evs[..i + 2][..i + 1] == evs[..i + 1];
    PendingThen(Run(evs[..i]).value, evs[i]);
  }

  // ---------------------------------------------------------------- a pending reason to disconnect

  /** There is a reason to disconnect, or the message was sent. */
  predicate Doomed(s: State) {
    s.inner.sent || s.inner.disconnect.Some?
  }

  lemma DoomedStep(s: State, ev: Event)
    requires Enabled(s, ev) && Doomed(s)
    ensures Doomed(Apply(s, ev)) && Apply(s, ev).log.calls == s.log.calls && Apply(s, ev).log.decoded == s.log.decoded
  {
    match ev
    case Answered(a, closed, wireFails) => DoomedAnswer(s, a, closed, wireFails);
    case SendTurn(closed, poll, body) => DoomedSend(s, closed, poll, body);
    case _ =>
  }

  lemma DoomedAnswer(s: State, a: Answer, closed: bool, wireFails: bool)
    requires Doomed(s)
    ensures var t := OnAnswer(s, a, closed, wireFails);
      Doomed(t) && t.log.calls == s.log.calls && t.log.decoded == s.log.decoded
  {}

  lemma DoomedSend(s: State, closed: bool, poll: PayloadPoll, body: BodyTurn)
    requires Doomed(s)
    ensures var t := SendStep(s, closed, poll, body);
      Doomed(t) && t.log.calls == s.log.calls && t.log.decoded == s.log.decoded
  {}

  /** Once there is a reason to disconnect, no run calls the head decoder or decodes a request again. */
  lemma {:induction false} NoMoreRequests(evs: seq<Event>, i: nat)
    requires i <= |evs| && Run(evs).Some?
    ensures Run(evs[..i]).Some?
    ensures var (s, t) := (Run(evs[..i]).value, Run(evs).value);
      Doomed(s) ==> Doomed(t) && t.log.calls == s.log.calls && t.log.decoded == s.log.decoded
    decreases |evs|
  {
    RunPrefix(evs, i);
    if i == |evs| {
      assert evs[..i] == evs;
    } else {
      var before := evs[..|evs| - 1];
      assert evs[..i] == before[..i];
      NoMoreRequests(before, i);
      if Doomed(Run(before).value) {
        DoomedStep(Run(before).value, evs[|evs| - 1]);
      }
    }
  }
}
