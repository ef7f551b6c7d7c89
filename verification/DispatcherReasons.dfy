/** Why and when the dispatcher disconnects, and where answers of the control service lead, over every run. */
module DispatcherReasons {
  import opened Basics
  import opened Dispatcher
  import opened DispatcherOrder

  // ---------------------------------------------------------------- causes

  /** The turn gives the dispatcher a reason to disconnect once the response is sent. */
  predicate Sets(s: State, ev: Event, r: Reason) {
    match r
    case ShutdownReason => false
    case UpgradeHandled => ev.Answered? && ev.answer.UpgradeAck?
    case UpgradeFailed => ev.Answered? && ev.answer.UpgradeFails?
    case ExpectFailed => ev.Answered? && ev.answer.ExpectFails?
    case PayloadDropped =>
      var asked := Asked(s, ev);
      || (s.inner.payload && asked == Some(PlDropped))
      || (s.inner.payload && ev.SendTurn? && (asked == Some(PlProtoError) || asked == Some(PlPeerGone)))
  }

  /** The turn itself is a reason for a disconnect message. */
  predicate Shows(s: State, ev: Event, why: Disconnect) {
    match why
    case ServiceGone(r) =>
      (r.ShutdownReason? && ev == Reads(ShuttingDown)) || (r.UpgradeHandled? && ev.Answered? && ev.answer.UpgradeDone?)
    case AppError => ev.PublishFails?
    case ProtoError =>
      || ev == Reads(BadHead) || ev == Reads(SlowHead) || (ev.SendTurn? && ev.body.BodyFails?)
      || (ev.PublishWaits? && s.inner.payload && ev.poll.PlProtoError?)
    case PeerGone =>
      || ev == Reads(PeerLeft) || (ev.Published? && ev.closed) || (ev.SendTurn? && ev.closed)
      || (ev.Answered? && (if ev.answer.ContinueAck? then ev.wireFails else ev.closed))
      || (ev.PublishWaits? && if s.inner.payload then ev.poll.PlPeerGone? else ev.gone)
    case KeepAlive(enabled) => ev == Reads(if enabled then IdleTimeout else NotKeptAlive)
  }

  lemma AnswerSets(s: State, a: Answer, closed: bool, wireFails: bool, r: Reason)
    ensures OnAnswer(s, a, closed, wireFails).inner.disconnect == Some(r) ==>
      s.inner.disconnect == Some(r) || Sets(s, Answered(a, closed, wireFails), r)
  {}

  lemma SendSets(s: State, closed: bool, poll: PayloadPoll, body: BodyTurn, r: Reason)
    ensures SendStep(s, closed, poll, body).inner.disconnect == Some(r) ==>
      s.inner.disconnect == Some(r) || Sets(s, SendTurn(closed, poll, body), r)
  {}

  lemma StepSets(s: State, ev: Event, r: Reason)
    requires Enabled(s, ev)
    ensures Apply(s, ev).inner.disconnect == Some(r) ==> s.inner.disconnect == Some(r) || Sets(s, ev, r)
  {
    match ev
    case Answered(a, closed, wireFails) => AnswerSets(s, a, closed, wireFails, r);
    case SendTurn(closed, poll, body) => SendSets(s, closed, poll, body, r);
    case _ =>
  }

  /** Some turn up to the `n`-th gave that reason. */
  ghost predicate WasSet(evs: seq<Event>, n: nat, r: Reason)
    requires n <= |evs|
  {
    exists j :: 0 <= j < n && Run(evs[..j]).Some? && Sets(Run(evs[..j]).value, evs[j], r)
  }

  lemma {:induction false} PendingWasSet(evs: seq<Event>, n: nat, r: Reason)
    requires n <= |evs| && Run(evs[..n]).Some? && Run(evs[..n]).value.inner.disconnect == Some(r)
    ensures WasSet(evs, n, r)
    decreases n
  {
    if n > 0 {
      assert evs[..n][..n - 1] == evs[..n - 1];
      var s := Run(evs[..n - 1]).value;
      StepSets(s, evs[n - 1], r);
      if s.inner.disconnect == Some(r) {
        PendingWasSet(evs, n - 1, r);
      }
    }
  }

  // ---------------------------------------------------------------- every message has its cause

  /** What a turn adds to the disconnect messages: nothing, or one for which it shows the reason or a reason is set. */
  ghost predicate TrueReason(s: State, ev: Event, t: State) {
    || t.log.leaving == s.log.leaving
    || (exists why :: t.log.leaving == s.log.leaving + [why] && Caused(s, ev, why))
  }

  predicate Caused(s: State, ev: Event, why: Disconnect) {
    Shows(s, ev, why) || (why.ServiceGone? && (s.inner.disconnect == Some(why.reason) || Sets(s, ev, why.reason)))
  }

  lemma AnswerTrue(s: State, a: Answer, closed: bool, wireFails: bool)
    ensures TrueReason(s, Answered(a, closed, wireFails), OnAnswer(s, a, closed, wireFails))
  {
    var t := OnAnswer(s, a, closed, wireFails);
    if t.log.leaving != s.log.leaving {
      var why := t.log.leaving[|s.log.leaving|];
      assert t.log.leaving == s.log.leaving + [why];
      assert Caused(s, Answered(a, closed, wireFails), why);
    }
  }

  lemma SendTrue(s: State, closed: bool, poll: PayloadPoll, body: BodyTurn)
    ensures TrueReason(s, SendTurn(closed, poll, body), SendStep(s, closed, poll, body))
  {
    var t := SendStep(s, closed, poll, body);
    if t.log.leaving != s.log.leaving {
      var why := t.log.leaving[|s.log.leaving|];
      assert t.log.leaving == s.log.leaving + [why];
      assert Caused(s, SendTurn(closed, poll, body), why);
    }
  }

  lemma StepTrue(s: State, ev: Event)
    requires Enabled(s, ev)
    ensures TrueReason(s, ev, Apply(s, ev))
  {
    if ev.Answered? {
      AnswerTrue(s, ev.answer, ev.closed, ev.wireFails);
    } else if ev.SendTurn? {
      SendTrue(s, ev.closed, ev.poll, ev.body);
    } else {
      var t := Apply(s, ev);
      if t.log.leaving != s.log.leaving {
        var why := t.log.leaving[|s.log.leaving|];
        assert t.log.leaving == s.log.leaving + [why];
        assert Caused(s, ev, why);
      }
    }
  }

  /**
    Every disconnect message of every run has its cause: the turn that sends it shows the reason, or it is one of the
    service's own for which that turn or one before gave the reason.
  */
  lemma ReasonsAreTrue(evs: seq<Event>, i: nat)
    requires Run(evs).Some? && i < |evs|
    ensures Run(evs[..i]).Some? && Run(evs[..i + 1]).Some?
    ensures var (s, t) := (Run(evs[..i]).value, Run(evs[..i + 1]).value);
      || t.log.leaving == s.log.leaving
      || (exists why ::
            && t.log.leaving == s.log.leaving + [why]
            && (Shows(s, evs[i], why) || (why.ServiceGone? && WasSet(evs, i + 1, why.reason))))
  {
    RunPrefix(evs, i);
    RunPrefix(evs, i + 1);
    assert evs[..i + 1][..i] == evs[..i];
    var s, t := Run(evs[..i]).value, Run(evs[..i + 1]).value;
    StepTrue(s, evs[i]);
    if t.log.leaving != s.log.leaving {
      var why :| t.log.leaving == s.log.leaving + [why] && Caused(s, evs[i], why);
      if !Shows(s, evs[i], why) && !Sets(s, evs[i], why.reason) {
        PendingWasSet(evs, i, why.reason);
        var j :| 0 <= j < i && Run(evs[..j]).Some? && Sets(Run(evs[..j]).value, evs[j], why.reason);
        assert WasSet(evs, i + 1, why.reason);
      }
    }
  }

  // ---------------------------------------------------------------- every reason is reported

  /** A response is being sent with this answer. */
  predicate IsResponse(a: Answer) {
    a.Respond? || a.UpgradeFails? || a.ExpectFails? || a.ErrorResponse? || a.ProtoResponse?
  }

  /** What a turn notices that has to be reported at once. */
  function Notices(s: State, ev: Event): Option<Disconnect> {
    match ev
    case Published(closed, _) => if closed then Some(PeerGone) else None
    case PublishFails => Some(AppError)
    case PublishWaits(poll, gone) =>
      if !s.inner.payload then if gone then Some(PeerGone) else None
      else if poll.PlProtoError? then Some(ProtoError) else if poll.PlPeerGone? then Some(PeerGone) else None
    case Answered(a, closed, wireFails) =>
      if a.UpgradeDone? then Some(ServiceGone(UpgradeHandled))
      else if (a.ContinueAck? && wireFails) || (IsResponse(a) && closed) then Some(PeerGone)
      else None
    case Reads(r) =>
      (match r
       case ShuttingDown => Some(ServiceGone(ShutdownReason))
       case NotKeptAlive => Some(KeepAlive(false))
       case IdleTimeout => Some(KeepAlive(true))
       case BadHead => Some(ProtoError)
       case SlowHead => Some(ProtoError)
       case PeerLeft => Some(PeerGone)
       case _ => None)
    case SendTurn(closed, _, body) =>
      if closed then Some(PeerGone) else if body.BodyFails? then Some(ProtoError) else None
    case _ => None
  }

  lemma AnswerReports(s: State, a: Answer, closed: bool, wireFails: bool)
    requires !Doomed(s) && Notices(s, Answered(a, closed, wireFails)).Some?
    ensures var t := OnAnswer(s, a, closed, wireFails);
      var why := Notices(s, Answered(a, closed, wireFails)).value;
      t.log.leaving == s.log.leaving + [why] && t.st == CallControl(Leaving(why))
  {}

  lemma SendReports(s: State, closed: bool, poll: PayloadPoll, body: BodyTurn)
    requires Notices(s, SendTurn(closed, poll, body)).Some?
    ensures var t := SendStep(s, closed, poll, body);
      var why := Notices(s, SendTurn(closed, poll, body)).value;
      t.log.leaving == s.log.leaving + [why] && t.st == CallControl(Leaving(why))
  {}

  lemma StepReports(s: State, ev: Event)
    requires Enabled(s, ev) && !Doomed(s) && Notices(s, ev).Some?
    ensures var (t, why) := (Apply(s, ev), Notices(s, ev).value);
      t.log.leaving == s.log.leaving + [why] && t.st == CallControl(Leaving(why))
  {
    if ev.Answered? {
      AnswerReports(s, ev.answer, ev.closed, ev.wireFails);
    } else if ev.SendTurn? {
      SendReports(s, ev.closed, ev.poll, ev.body);
    }
  }

  /**
    While there is no reason to disconnect yet, whatever a turn notices is told to the control service at once: a peer
    that is gone, a protocol error, a failed service, a timeout, a shutdown.
  */
  lemma ReasonsAreReported(evs: seq<Event>, i: nat)
    requires Run(evs).Some? && i < |evs|
    ensures Run(evs[..i]).Some? && Run(evs[..i + 1]).Some?
    ensures var (s, t) := (Run(evs[..i]).value, Run(evs[..i + 1]).value);
      var why := Notices(s, evs[i]);
      !Doomed(s) && why.Some? ==>
        t.log.leaving == s.log.leaving + [why.value] && t.st == CallControl(Leaving(why.value))
  {
    RunPrefix(evs, i);
    RunPrefix(evs, i + 1);
    assert evs[..i + 1][..i] == evs[..i];
    var s := Run(evs[..i]).value;
    if !Doomed(s) && Notices(s, evs[i]).Some? {
      StepReports(s, evs[i]);
    }
  }

  /** An upgrade that is taken over, and an upgrade or expectation that fails, are the last request. */
  lemma LastRequest(evs: seq<Event>, i: nat)
    requires Run(evs).Some? && i < |evs| && evs[i].Answered?
    requires evs[i].answer.UpgradeAck? || evs[i].answer.UpgradeFails? || evs[i].answer.ExpectFails?
    ensures Run(evs[..i]).Some? && Run(evs).value.log.decoded == Run(evs[..i]).value.log.decoded
  {
    RunPrefix(evs, i);
    RunPrefix(evs, i + 1);
    assert evs[..i + 1][..i] == evs[..i];
    var s := Run(evs[..i]).value;
    AnswerDooms(s, evs[i].answer, evs[i].closed, evs[i].wireFails);
    NoMoreRequests(evs, i + 1);
  }

  lemma AnswerDooms(s: State, a: Answer, closed: bool, wireFails: bool)
    requires a.UpgradeAck? || a.UpgradeFails? || a.ExpectFails?
    ensures var t := OnAnswer(s, a, closed, wireFails); Doomed(t) && t.log.decoded == s.log.decoded
  {}

  // ---------------------------------------------------------------- where answers lead

  /** The turn belongs to the control service, which was given `m`. */
  predicate Asks(m: Msg, next: Event) {
    next.ControlFails? || next.ControlWaits? || (next.Answered? && BuiltFrom(m, next.answer))
  }

  /** The turn belongs to the service that answers requests. */
  predicate Publishes(next: Event) {
    next.Published? || next.PublishFails? || next.PublishWaits?
  }

  /** What the next turn has to be, by the answer that was given. */
  predicate Leads(a: Answer, next: Event) {
    match a
    case ToExpect => Asks(Expectation, next)
    case ToUpgrade => Asks(Upgrade, next)
    case ToPublish => Publishes(next)
    case UpgradeAck => Publishes(next)
    case ContinueAck(upgrade) => if upgrade then Asks(Upgrade, next) else Publishes(next)
    case _ => !Publishes(next)
  }

  /** Answers lead where they say: to the services they name, to publishing, and nothing else publishes. */
  lemma AnswersLead(evs: seq<Event>, i: nat)
    requires Run(evs).Some? && i + 1 < |evs| && evs[i].Answered? && (evs[i].answer.ContinueAck? ==> !evs[i].wireFails)
    ensures Leads(evs[i].answer, evs[i + 1])
  {
    RunPrefix(evs, i);
    RunPrefix(evs, i + 1);
    RunPrefix(evs, i + 2);
    assert evs[..i + 1][..i] == evs[..i] && evs[..i + 2][..i + 1] == evs[..i + 1];
    AnswerLeads(Run(evs[..i]).value, evs[i].answer, evs[i].closed, evs[i + 1]);
  }

  lemma AnswerLeads(s: State, a: Answer, closed: bool, next: Event)
    requires Enabled(OnAnswer(s, a, closed, false), next)
    ensures Leads(a, next)
  {}

  /** While the payload of an answered request has to be waited for, the dispatcher does not read on. */
  lemma WaitsForPayload(evs: seq<Event>, i: nat)
    requires Run(evs).Some? && i + 1 < |evs| && evs[i] == PayloadTurn(PlWaits)
    ensures Run(evs[..i]).Some?
    ensures Run(evs[..i]).value.inner.payload && !Doomed(Run(evs[..i]).value) ==> evs[i + 1].PayloadTurn?
  {
    RunPrefix(evs, i);
    RunPrefix(evs, i + 1);
    RunPrefix(evs, i + 2);
    assert evs[..i + 1][..i] == evs[..i] && evs[..i + 2][..i + 1] == evs[..i + 1];
  }
}
