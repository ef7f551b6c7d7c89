/**
  The HTTP/1 server dispatcher (`h1/dispatcher.rs`) with the answers control messages can get (`h1/control.rs`): a
  state machine whose every turn meets whatever the services, the peer and the timers do.
*/
module Dispatcher {
  import opened Basics

  // ---------------------------------------------------------------- messages and answers

  datatype Reason = ShutdownReason | UpgradeHandled | UpgradeFailed | ExpectFailed | PayloadDropped

  datatype Disconnect = ServiceGone(reason: Reason) | AppError | ProtoError | PeerGone | KeepAlive(enabled: bool)

  datatype Msg = NewRequest | Upgrade | Expectation | Leaving(why: Disconnect)

  /** `ControlResult`; a response is told by whether its body is empty. */
  datatype Answer = ToExpect | ToUpgrade | ToPublish | Respond(empty: bool)
                  | UpgradeAck | UpgradeDone | UpgradeFails(empty: bool)
                  | ContinueAck(upgrade: bool) | ExpectFails(empty: bool)
                  | ErrorResponse(empty: bool) | ProtoResponse(empty: bool) | StopAck

  /** The answers that can be built from a message. */
  predicate BuiltFrom(m: Msg, a: Answer) {
    match m
    case NewRequest => a.ToExpect? || a.ToUpgrade? || a.ToPublish? || a.Respond?
    case Upgrade => a.UpgradeAck? || a.UpgradeDone? || a.UpgradeFails?
    case Expectation => a.ContinueAck? || a.ExpectFails?
    case Leaving(AppError) => a.ErrorResponse?
    case Leaving(ProtoError) => a.ProtoResponse?
    case Leaving(_) => a.StopAck?
  }

  /** The answers of the default control service, which acknowledges everything. */
  predicate DefaultAnswer(m: Msg, a: Answer) {
    match m
    case NewRequest => a.ToExpect? || a.ToUpgrade? || a.ToPublish?
    case Upgrade => a.UpgradeAck?
    case Expectation => a.ContinueAck?
    case Leaving(AppError) => a.ErrorResponse?
    case Leaving(ProtoError) => a == ProtoResponse(true)
    case Leaving(_) => a.StopAck?
  }

  // ---------------------------------------------------------------- states

  datatype St = CallPublish | CallControl(msg: Msg) | ReadRequest | ReadPayload | SendPayload | Stop | Failed

  /** The `DISCONNECT_SENT` flag, the pending reason to disconnect, and whether a request payload is open. */
  datatype Inner = Inner(sent: bool, disconnect: Option<Reason>, payload: bool)

  /**
    What happened so far: calls to the head decoder and whether one of them failed, requests decoded and published,
    response heads written, and disconnect messages handed to the control service.
  */
  datatype Log = Log(calls: nat, broken: bool, decoded: nat, published: nat, heads: nat, leaving: seq<Disconnect>)

  datatype State = State(st: St, inner: Inner, log: Log)

  const START := State(ReadRequest, Inner(false, None, false), Log(0, false, 0, 0, 0, []))

  // ---------------------------------------------------------------- what a turn can meet

  /** What polling the request payload comes to. */
  datatype PayloadPoll = PlWaits | PlMoves | PlEnds | PlDropped | PlProtoError | PlPeerGone

  /** What reading a request comes to. */
  datatype Reading = ShuttingDown | Item(payload: bool) | NotYet | NotKeptAlive | BadHead | SlowHead | PeerLeft
                   | IdleTimeout

  datatype BodyTurn = BodyWaits | BodyEnds | BodyFails

  datatype Event =
    | Published(closed: bool, empty: bool)
    | PublishFails
    | PublishWaits(poll: PayloadPoll, gone: bool)
    | Answered(answer: Answer, closed: bool, wireFails: bool)
    | ControlFails
    | ControlWaits(poll: PayloadPoll)
    | Reads(reading: Reading)
    | PayloadTurn(poll: PayloadPoll)
    | SendTurn(closed: bool, poll: PayloadPoll, body: BodyTurn)

  predicate Enabled(s: State, ev: Event) {
    match s.st
    case CallPublish => ev.Published? || ev.PublishFails? || ev.PublishWaits?
    case CallControl(m) => ev.ControlFails? || ev.ControlWaits? || (ev.Answered? && BuiltFrom(m, ev.answer))
    case ReadRequest => ev.Reads?
    case ReadPayload => ev.PayloadTurn?
    case SendPayload => ev.SendTurn?
    case Stop => false
    case Failed => false
  }

  // ---------------------------------------------------------------- steps

  function To(s: State, st: St): State {
    s.(st := st)
  }

  /** `ctl_error`, `ctl_proto_err`, `ctl_peer_gone`, `ctl_keepalive` */
  function Leave(s: State, why: Disconnect): State {
    State(CallControl(Leaving(why)), s.inner.(sent := true), s.log.(leaving := s.log.leaving + [why]))
  }

  /** `ctl_svc_disconnect` */
  function LeaveService(s: State, reason: Reason): State {
    if s.inner.sent then To(s, Stop) else Leave(s, ServiceGone(reason))
  }

  /** `check_disconnect`, and where to go on if there is no reason to leave. */
  function CheckDisconnect(s: State, otherwise: State): State {
    if s.inner.sent then To(s, Stop)
    else if s.inner.disconnect.Some?
        then Leave(s.(inner := s.inner.(disconnect := None)), ServiceGone(s.inner.disconnect.value))
    else otherwise
  }

  function NextRead(s: State): State {
    To(s, if s.inner.payload then ReadPayload else ReadRequest)
  }

  /** `send_response`; writing a head cannot fail. */
  function SendResponse(s: State, closed: bool, empty: bool): State {
    if closed then Leave(s, PeerGone)
    else
      var t := s.(log := s.log.(heads := s.log.heads + 1));
      if empty then CheckDisconnect(t, NextRead(t)) else To(t, SendPayload)
  }

  function Publish(s: State): State {
    To(s, CallPublish).(log := s.log.(published := s.log.published + 1))
  }

  /** `poll_request_payload_inner`: the new state of the payload, and the error it met. */
  function PollInner(i: Inner, poll: PayloadPoll): (Inner, Option<Disconnect>) {
    if !i.payload then (i, None)
    else
      match poll
      case PlWaits => (i, None)
      case PlMoves => (i, None)
      case PlEnds => (i.(payload := false), None)
      case PlDropped => (i.(payload := false, disconnect := Some(PayloadDropped)), None)
      case PlProtoError => (i, Some(ProtoError))
      case PlPeerGone => (i, Some(PeerGone))
  }

  function OnAnswer(s: State, a: Answer, closed: bool, wireFails: bool): State {
    match a
    case ToPublish => Publish(s)
    case ToExpect => To(s, CallControl(Expectation))
    case ToUpgrade => To(s, CallControl(Upgrade))
    case Respond(empty) => SendResponse(s, closed, empty)
    case ErrorResponse(empty) => SendResponse(s, closed, empty)
    case ProtoResponse(empty) => SendResponse(s, closed, empty)
    case ContinueAck(upgrade) =>
      if wireFails then Leave(s, PeerGone) else if upgrade then To(s, CallControl(Upgrade)) else Publish(s)
    case ExpectFails(empty) => SendResponse(s.(inner := s.inner.(disconnect := Some(ExpectFailed))), closed, empty)
    case UpgradeAck => Publish(s.(inner := s.inner.(disconnect := Some(UpgradeHandled))))
    case UpgradeDone => LeaveService(s, UpgradeHandled)
    case UpgradeFails(empty) => SendResponse(s.(inner := s.inner.(disconnect := Some(UpgradeFailed))), closed, empty)
    case StopAck => To(s, Stop)
  }

  /** `poll_read_request` behind `check_disconnect`; a call to the decoder that fails may leave it unusable. */
  function ReadHead(s: State, r: Reading): State {
    if r.ShuttingDown? then LeaveService(s, ShutdownReason)
    else
      var t := s.(log := s.log.(calls := s.log.calls + 1));
      match r
      case Item(payload) =>
        State(CallControl(NewRequest), t.inner.(payload := t.inner.payload || payload),
            t.log.(decoded := t.log.decoded + 1))
      case NotYet => t
      case NotKeptAlive => Leave(t, KeepAlive(false))
      case BadHead => Leave(t.(log := t.log.(broken := true)), ProtoError)
      case SlowHead => Leave(t, ProtoError)
      case PeerLeft => Leave(t, PeerGone)
      case _ => Leave(t, KeepAlive(true))
  }

  /** A payload poll that is not looked at again: an error still sets the flag, but its message is dropped. */
  function PollAside(s: State, poll: PayloadPoll): (State, bool) {
    var (i, err) := PollInner(s.inner, poll);
    (s.(inner := if err.Some? then i.(sent := true) else i), err.Some?)
  }

  function SendStep(s: State, closed: bool, poll: PayloadPoll, body: BodyTurn): State {
    if closed then Leave(s, PeerGone)
    else
      var t := if s.inner.disconnect.Some? then s
               else
                 var (u, failed) := PollAside(s, poll);
                 if failed then u.(inner := u.inner.(disconnect := Some(PayloadDropped))) else u;
      match body
      case BodyWaits => t
      case BodyFails => Leave(t, ProtoError)
      case BodyEnds => CheckDisconnect(t, NextRead(t))
  }

  function PayloadStep(s: State, poll: PayloadPoll): State {
    var (t, _) := PollAside(s, poll);
    CheckDisconnect(t, if s.inner.payload && (poll.PlWaits? || poll.PlDropped?) then t else To(t, ReadRequest))
  }

  function PublishWait(s: State, poll: PayloadPoll, gone: bool): State {
    if s.inner.payload then
      var (i, err) := PollInner(s.inner, poll);
      var t := s.(inner := i);
      if err.Some? then Leave(t, err.value) else t
    else if gone then Leave(s, PeerGone) else s
  }

  /** One turn of the loop in `poll`. */
  function Apply(s: State, ev: Event): State {
    match ev
    case Published(closed, empty) => SendResponse(s, closed, empty)
    case PublishFails => Leave(s, AppError)
    case PublishWaits(poll, gone) => PublishWait(s, poll, gone)
    case Answered(a, closed, wireFails) => OnAnswer(s, a, closed, wireFails)
    case ControlFails => To(s, Failed)
    case ControlWaits(poll) => s.(inner := PollInner(s.inner, poll).0)
    case Reads(r) => CheckDisconnect(s, ReadHead(s, r))
    case PayloadTurn(poll) => PayloadStep(s, poll)
    case SendTurn(closed, poll, body) => SendStep(s, closed, poll, body)
  }

  /** The state after a run, if the run is possible. */
  function Run(evs: seq<Event>): Option<State> {
    if evs == [] then Some(START)
    else
      var s := Run(evs[..|evs| - 1]);
      if s.Some? && Enabled(s.value, evs[|evs| - 1]) then Some(Apply(s.value, evs[|evs| - 1])) else None
  }

  // ---------------------------------------------------------------- after the disconnect message

  /** States in which a request is being decided about. */
  predicate Serving(st: St) {
    st.CallPublish? || (st.CallControl? && !st.msg.Leaving?)
  }

  ghost predicate Inv(s: State) {
    && (s.inner.sent ==> !Serving(s.st))
    && (s.st.CallControl? && s.st.msg.Leaving? ==> s.inner.sent)
    && (s.log.broken ==> s.inner.sent)
    && (!s.inner.sent ==> s.log.leaving == [])
    && (forall i :: 0 < i < |s.log.leaving| ==> !s.log.leaving[i].ServiceGone?)
    && s.log.published + (if Serving(s.st) && !s.st.CallPublish? then 1 else 0) <= s.log.decoded
  }

  lemma LeaveKeeps(s: State, why: Disconnect)
    requires Inv(s) && (why.ServiceGone? ==> !s.inner.sent)
    ensures Inv(Leave(s, why))
  {}

  /** Leaving, stopping and reading on keep it from any state that could have served. */
  lemma CheckKeeps(s: State, otherwise: State)
    requires Inv(To(s, Stop)) && (!s.inner.sent ==> Inv(otherwise))
    ensures Inv(CheckDisconnect(s, otherwise))
  {}

  lemma SendKeeps(s: State, closed: bool, empty: bool)
    requires Inv(To(s, Stop))
    ensures Inv(SendResponse(s, closed, empty))
  {}

  lemma AnswerKeeps(s: State, a: Answer, closed: bool, wireFails: bool)
    requires Inv(s) && s.st.CallControl? && BuiltFrom(s.st.msg, a)
    ensures Inv(OnAnswer(s, a, closed, wireFails))
  {
    SendKeeps(s, closed, a.Respond? && a.empty);
    if a.ExpectFails? {
      SendKeeps(s.(inner := s.inner.(disconnect := Some(ExpectFailed))), closed, a.empty);
    } else if a.UpgradeFails? {
      SendKeeps(s.(inner := s.inner.(disconnect := Some(UpgradeFailed))), closed, a.empty);
    } else if a.ErrorResponse? || a.ProtoResponse? {
      SendKeeps(s, closed, a.empty);
    }
  }

  lemma ReadKeeps(s: State, r: Reading)
    requires Inv(s) && s.st.ReadRequest? && !s.inner.sent
    ensures Inv(ReadHead(s, r))
  {}

  lemma AsideKeeps(s: State, poll: PayloadPoll)
    requires Inv(s) && (s.st.SendPayload? || s.st.ReadPayload?)
    ensures Inv(PollAside(s, poll).0) && PollAside(s, poll).0.st == s.st
  {}

  lemma SendStepKeeps(s: State, closed: bool, poll: PayloadPoll, body: BodyTurn)
    requires Inv(s) && s.st.SendPayload?
    ensures Inv(SendStep(s, closed, poll, body))
  {
    AsideKeeps(s, poll);
  }

  lemma PayloadStepKeeps(s: State, poll: PayloadPoll)
    requires Inv(s) && s.st.ReadPayload?
    ensures Inv(PayloadStep(s, poll))
  {
    AsideKeeps(s, poll);
  }

  lemma PublishWaitKeeps(s: State, poll: PayloadPoll, gone: bool)
    requires Inv(s) && s.st.CallPublish?
    ensures Inv(PublishWait(s, poll, gone))
  {}

  lemma ApplyKeeps(s: State, ev: Event)
    requires Inv(s) && Enabled(s, ev)
    ensures Inv(Apply(s, ev))
  {
    match ev
    case Published(closed, empty) => SendKeeps(s, closed, empty);
    case PublishFails => LeaveKeeps(s, AppError);
    case PublishWaits(poll, gone) => PublishWaitKeeps(s, poll, gone);
    case Answered(a, closed, wireFails) => AnswerKeeps(s, a, closed, wireFails);
    case ControlFails =>
    case ControlWaits(poll) =>
    case Reads(r) =>
      if !s.inner.sent {
        ReadKeeps(s, r);
      }
      CheckKeeps(s, ReadHead(s, r));
    case PayloadTurn(poll) => PayloadStepKeeps(s, poll);
    case SendTurn(closed, poll, body) => SendStepKeeps(s, closed, poll, body);
  }

  lemma {:induction false} RunKeeps(evs: seq<Event>)
    requires Run(evs).Some?
    ensures Inv(Run(evs).value)
  {
    if evs != [] {
      RunKeeps(evs[..|evs| - 1]);
      ApplyKeeps(Run(evs[..|evs| - 1]).value, evs[|evs| - 1]);
    }
  }

  lemma QuietStep(s: State, ev: Event)
    requires Inv(s) && Enabled(s, ev) && s.inner.sent
    ensures var t := Apply(s, ev);
      t.inner.sent && t.log.calls == s.log.calls && t.log.decoded == s.log.decoded && t.log.published == s.log.published
  {}

  /**
    Once the disconnect message was sent, no run decodes or publishes another request, for any answers built from
    the messages they answer. The head decoder is not even called again; in particular not after it failed.
  */
  lemma {:induction false} QuietAfterDisconnect(evs: seq<Event>, i: nat)
    requires i <= |evs| && Run(evs).Some?
    ensures Run(evs[..i]).Some?
    ensures var (s, t) := (Run(evs[..i]).value, Run(evs).value);
      s.inner.sent || s.log.broken ==>
        t.inner.sent && t.log.calls == s.log.calls && t.log.decoded == s.log.decoded
            && t.log.published == s.log.published
    decreases |evs|
  {
    if i == |evs| {
      assert evs[..i] == evs;
      RunKeeps(evs);
    } else {
      var before := evs[..|evs| - 1];
      assert evs[..i] == before[..i];
      QuietAfterDisconnect(before, i);
      RunKeeps(before);
      RunKeeps(evs[..i]);
      if Run(before).value.inner.sent {
        QuietStep(Run(before).value, evs[|evs| - 1]);
      }
    }
  }

  // ---------------------------------------------------------------- how much a connection can see

  /** Protocol errors are answered without a body. */
  predicate Bodiless(ev: Event) {
    ev.Answered? && ev.answer.ProtoResponse? ==> ev.answer.empty
  }

  /** The default control service builds its answers from the messages, and answers protocol errors so. */
  lemma DefaultIsBodiless(m: Msg, a: Answer, closed: bool, wireFails: bool)
    requires DefaultAnswer(m, a)
    ensures BuiltFrom(m, a) && Bodiless(Answered(a, closed, wireFails))
  {}

  /** Heads against requests, and disconnect messages so far, by state. */
  ghost predicate Bounded(s: State) {
    var (heads, decoded, n) := (s.log.heads, s.log.decoded, |s.log.leaving|);
    match s.st
    case CallPublish => heads < decoded
    case CallControl(Leaving(AppError)) => heads < decoded && n <= 1
    case CallControl(Leaving(ProtoError)) => heads <= decoded && n <= 2
    case CallControl(Leaving(PeerGone)) => heads <= decoded && n <= 3
    case CallControl(Leaving(_)) => heads <= decoded && n <= 1
    case CallControl(_) => heads < decoded
    case Stop => heads <= decoded + 1 && n <= 3
    case Failed => heads <= decoded && n <= 3
    case _ => heads <= decoded && n <= 1
  }

  lemma AnswerBounds(s: State, a: Answer, closed: bool, wireFails: bool)
    requires Inv(s) && Bounded(s) && s.st.CallControl? && BuiltFrom(s.st.msg, a) && (a.ProtoResponse? ==> a.empty)
    ensures Bounded(OnAnswer(s, a, closed, wireFails))
  {}

  lemma ReadBounds(s: State, r: Reading)
    requires Inv(s) && Bounded(s) && s.st.ReadRequest?
    ensures Bounded(CheckDisconnect(s, ReadHead(s, r)))
  {}

  lemma SendBounds(s: State, closed: bool, poll: PayloadPoll, body: BodyTurn)
    requires Inv(s) && Bounded(s) && s.st.SendPayload?
    ensures Bounded(SendStep(s, closed, poll, body))
  {
    AsideKeeps(s, poll);
  }

  lemma PayloadBounds(s: State, poll: PayloadPoll)
    requires Inv(s) && Bounded(s) && s.st.ReadPayload?
    ensures Bounded(PayloadStep(s, poll))
  {
    AsideKeeps(s, poll);
  }

  lemma PublishBounds(s: State, ev: Event)
    requires Inv(s) && Bounded(s) && s.st.CallPublish? && Enabled(s, ev)
    ensures Bounded(Apply(s, ev))
  {}

  lemma ApplyBounds(s: State, ev: Event)
    requires Inv(s) && Bounded(s) && Enabled(s, ev) && Bodiless(ev)
    ensures Bounded(Apply(s, ev))
  {
    match ev
    case Answered(a, closed, wireFails) => AnswerBounds(s, a, closed, wireFails);
    case ControlFails =>
    case ControlWaits(poll) =>
    case Reads(r) => ReadBounds(s, r);
    case PayloadTurn(poll) => PayloadBounds(s, poll);
    case SendTurn(closed, poll, body) => SendBounds(s, closed, poll, body);
    case _ => PublishBounds(s, ev);
  }

  lemma {:induction false} RunBounds(evs: seq<Event>)
    requires Run(evs).Some? && forall i :: 0 <= i < |evs| ==> Bodiless(evs[i])
    ensures Bounded(Run(evs).value)
  {
    if evs != [] {
      var before := evs[..|evs| - 1];
      RunBounds(before);
      RunKeeps(before);
      ApplyBounds(Run(before).value, evs[|evs| - 1]);
    }
  }

  /**
    With a control service that answers protocol errors without a body, as the default one does, in every run: at
    most one response head more than requests decoded, and then the connection stops at once; at most three
    disconnect messages, of which only the first can be one of the service's own.
  */
  lemma ConnectionIsBounded(evs: seq<Event>)
    requires Run(evs).Some? && forall i :: 0 <= i < |evs| ==> Bodiless(evs[i])
    ensures var s := Run(evs).value;
      && s.log.heads <= s.log.decoded + 1
      && (s.log.heads == s.log.decoded + 1 ==> s.st.Stop?)
      && s.log.published <= s.log.decoded
      && |s.log.leaving| <= 3
      && (forall i :: 0 < i < |s.log.leaving| ==> !s.log.leaving[i].ServiceGone?)
      && (s.log.leaving != [] && s.log.leaving[0].ServiceGone? ==> |s.log.leaving| == 1)
  {
    RunBounds(evs);
    RunKeeps(evs);
    OwnIsOnly(evs);
  }

  /** After a disconnect of the service's own, the connection is at its end. */
  ghost predicate OwnEnds(s: State) {
    s.log.leaving != [] && s.log.leaving[0].ServiceGone? ==>
      |s.log.leaving| == 1
      && (s.st.Stop? || s.st.Failed?
          || (s.st.CallControl? && s.st.msg.Leaving? && s.st.msg.why.ServiceGone?))
  }

  lemma OwnStep(s: State, ev: Event)
    requires Inv(s) && OwnEnds(s) && Enabled(s, ev)
    ensures OwnEnds(Apply(s, ev))
  {
    if s.inner.sent {
      if s.log.leaving != [] {
        LeavingGrows(s, ev);
      }
    }
  }

  /** The list of disconnect messages only grows at its end. */
  lemma LeavingGrows(s: State, ev: Event)
    requires s.log.leaving != []
    ensures Apply(s, ev).log.leaving != [] && Apply(s, ev).log.leaving[0] == s.log.leaving[0]
  {
    match ev
    case Answered(a, closed, wireFails) => AnswerGrows(s, a, closed, wireFails);
    case SendTurn(closed, poll, body) => SendGrows(s, closed, poll, body);
    case _ =>
  }

  lemma AnswerGrows(s: State, a: Answer, closed: bool, wireFails: bool)
    requires s.log.leaving != []
    ensures var l := OnAnswer(s, a, closed, wireFails).log.leaving; l != [] && l[0] == s.log.leaving[0]
  {}

  lemma SendGrows(s: State, closed: bool, poll: PayloadPoll, body: BodyTurn)
    requires s.log.leaving != []
    ensures var l := SendStep(s, closed, poll, body).log.leaving; l != [] && l[0] == s.log.leaving[0]
  {}

  lemma {:induction false} OwnIsOnly(evs: seq<Event>)
    requires Run(evs).Some?
    ensures OwnEnds(Run(evs).value)
  {
    if evs != [] {
      OwnIsOnly(evs[..|evs| - 1]);
      RunKeeps(evs[..|evs| - 1]);
      OwnStep(Run(evs[..|evs| - 1]).value, evs[|evs| - 1]);
    }
  }

  // ---------------------------------------------------------------- without that condition

  /** A malformed head, and then answers to the protocol error with bodies that fail. */
  function Storm(n: nat): seq<Event> {
    if n == 0 then [Reads(BadHead)]
    else Storm(n - 1) + [Answered(ProtoResponse(false), false, false), SendTurn(false, PlWaits, BodyFails)]
  }

  lemma RunTwo(evs: seq<Event>, e: Event, f: Event)
    requires Run(evs).Some? && Enabled(Run(evs).value, e) && Enabled(Apply(Run(evs).value, e), f)
    ensures Run(evs + [e, f]) == Some(Apply(Apply(Run(evs).value, e), f))
  {
    assert (evs + [e])[..|evs|] == evs;
    assert (evs + [e, f])[..|evs| + 1] == evs + [e];
  }

  /** Where the storm stands after `n` rounds. */
  ghost predicate Storming(s: State, n: nat) {
    && s.st == CallControl(Leaving(ProtoError)) && s.inner == Inner(true, None, false)
    && s.log.decoded == 0 && s.log.heads == n && |s.log.leaving| == n + 1
  }

  lemma StormRound(s: State, n: nat)
    requires Storming(s, n)
    ensures var (e, f) := (Answered(ProtoResponse(false), false, false), SendTurn(false, PlWaits, BodyFails));
      Enabled(s, e) && Enabled(Apply(s, e), f) && Storming(Apply(Apply(s, e), f), n + 1)
  {}

  /** Then there is no bound: not a single request is decoded, and heads and disconnect messages go on for ever. */
  lemma {:induction false} StormHasNoBound(n: nat)
    ensures Run(Storm(n)).Some? && Storming(Run(Storm(n)).value, n)
  {
    if n > 0 {
      StormHasNoBound(n - 1);
      var s := Run(Storm(n - 1)).value;
      StormRound(s, n - 1);
      RunTwo(Storm(n - 1), Answered(ProtoResponse(false), false, false), SendTurn(false, PlWaits, BodyFails));
    } else {
      assert [Reads(BadHead)][..0] == [];
      assert Run([]) == Some(START);
    }
  }

  // ---------------------------------------------------------------- the exact condition

  /** Every answer in the run is one the service gives. */
  ghost predicate Obeys(policy: Answer -> bool, evs: seq<Event>) {
    forall i :: 0 <= i < |evs| && evs[i].Answered? ==> policy(evs[i].answer)
  }

  predicate WithinBounds(s: State) {
    |s.log.leaving| <= 3 && s.log.heads <= s.log.decoded + 1
  }

  lemma {:induction false} StormObeys(policy: Answer -> bool, n: nat)
    requires policy(ProtoResponse(false))
    ensures Obeys(policy, Storm(n))
  {
    if n > 0 {
      StormObeys(policy, n - 1);
    }
  }

  /**
    A control service is given by the answers it may give. All its runs keep to three disconnect messages and one
    head more than requests if and only if it does not answer a protocol error with a body.
  */
  lemma BoundedIffBodiless(policy: Answer -> bool)
    ensures (forall evs :: Run(evs).Some? && Obeys(policy, evs) ==> WithinBounds(Run(evs).value))
            <==> !policy(ProtoResponse(false))
  {
    if policy(ProtoResponse(false)) {
      StormHasNoBound(3);
      StormObeys(policy, 3);
      assert !WithinBounds(Run(Storm(3)).value);
    } else {
      forall evs | Run(evs).Some? && Obeys(policy, evs) ensures WithinBounds(Run(evs).value) {
        assert forall i :: 0 <= i < |evs| ==> Bodiless(evs[i]);
        ConnectionIsBounded(evs);
      }
    }
  }
}
