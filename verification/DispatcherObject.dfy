/** The dispatcher as an object: its state is replaced turn by turn, its flags and reasons change in place. */
module DispatcherObject {
  import opened Basics
  import D = Dispatcher

  class Dispatcher {
    var st: D.St
    var sent: bool
    var disconnect: Option<D.Reason>
    var payload: bool
    var log: D.Log
    /** The turns taken so far. */
    ghost var history: seq<D.Event>

    constructor ()
      ensures View() == D.START && history == [] && Valid()
    {
      history := [];
      st, sent, disconnect, payload := D.ReadRequest, false, None, false;
      log := D.Log(0, false, 0, 0, 0, []);
    }

    function View(): D.State
      reads this
    {
      D.State(st, D.Inner(sent, disconnect, payload), log)
    }

    /** The object is where the run of its history leads, so all that holds of runs holds of it. */
    ghost predicate Valid()
      reads this
    {
      D.Run(history) == Some(View())
    }

    /** `ctl_error`, `ctl_proto_err`, `ctl_peer_gone`, `ctl_keepalive` */
    method Leave(why: D.Disconnect)
      modifies `st, `sent, `disconnect, `payload, `log
      ensures View() == D.Leave(old(View()), why)
    {
      sent := true;
      log := log.(leaving := log.leaving + [why]);
      st := D.CallControl(D.Leaving(why));
    }

    /** `ctl_svc_disconnect` */
    method LeaveService(reason: D.Reason)
      modifies `st, `sent, `disconnect, `payload, `log
      ensures View() == D.LeaveService(old(View()), reason)
    {
      if sent {
        st := D.Stop;
      } else {
        Leave(D.ServiceGone(reason));
      }
    }

    /** `check_disconnect` */
    method CheckDisconnect() returns (left: bool)
      modifies `st, `sent, `disconnect, `payload, `log
      ensures left <==> old(sent) || old(disconnect).Some?
      ensures !left ==> View() == old(View())
      ensures left ==> forall o: D.State :: View() == D.CheckDisconnect(old(View()), o)
    {
      if sent {
        st := D.Stop;
        return true;
      }
      if disconnect.Some? {
        var reason := disconnect.value;
        disconnect := None;
        Leave(D.ServiceGone(reason));
        return true;
      }
      return false;
    }

    method ReadOn()
      modifies `st, `sent, `disconnect, `payload, `log
      ensures View() == D.CheckDisconnect(old(View()), D.NextRead(old(View())))
    {
      var left := CheckDisconnect();
      if !left {
        st := if payload then D.ReadPayload else D.ReadRequest;
      }
    }

    /** `send_response` */
    method SendResponse(closed: bool, empty: bool)
      modifies `st, `sent, `disconnect, `payload, `log
      ensures View() == D.SendResponse(old(View()), closed, empty)
    {
      if closed {
        Leave(D.PeerGone);
      } else {
        log := log.(heads := log.heads + 1);
        if empty {
          ReadOn();
        } else {
          st := D.SendPayload;
        }
      }
    }

    method Publish()
      modifies `st, `sent, `disconnect, `payload, `log
      ensures View() == D.Publish(old(View()))
    {
      log := log.(published := log.published + 1);
      st := D.CallPublish;
    }

    /** `poll_request_payload_inner` */
    method PollPayload(poll: D.PayloadPoll) returns (err: Option<D.Disconnect>)
      modifies `st, `sent, `disconnect, `payload, `log
      ensures (View().inner, err) == D.PollInner(old(View().inner), poll)
      ensures st == old(st) && log == old(log)
    {
      err := None;
      if payload {
        match poll {
          case PlWaits =>
          case PlMoves =>
          case PlEnds => payload := false;
          case PlDropped =>
            payload := false;
            disconnect := Some(D.PayloadDropped);
          case PlProtoError => err := Some(D.ProtoError);
          case PlPeerGone => err := Some(D.PeerGone);
        }
      }
    }

    /** `poll_read_request` */
    method PollReadRequest(r: D.Reading)
      modifies `st, `sent, `disconnect, `payload, `log
      ensures View() == D.ReadHead(old(View()), r)
    {
      if r == D.ShuttingDown {
        LeaveService(D.ShutdownReason);
        return;
      }
      log := log.(calls := log.calls + 1);
      match r {
        case Item(pl) =>
          if pl {
            payload := true;
          }
          log := log.(decoded := log.decoded + 1);
          st := D.CallControl(D.NewRequest);
        case NotYet =>
        case NotKeptAlive => Leave(D.KeepAlive(false));
        case BadHead =>
          log := log.(broken := true);
          Leave(D.ProtoError);
        case SlowHead => Leave(D.ProtoError);
        case PeerLeft => Leave(D.PeerGone);
        case IdleTimeout => Leave(D.KeepAlive(true));
      }
    }

    /** `poll_send_payload`: the message of a failed payload poll is dropped, the flag it set stays. */
    method PollSendPayload(closed: bool, poll: D.PayloadPoll, body: D.BodyTurn)
      modifies `st, `sent, `disconnect, `payload, `log
      ensures View() == D.SendStep(old(View()), closed, poll, body)
    {
      if closed {
        Leave(D.PeerGone);
        return;
      }
      if disconnect.None? {
        var err := PollPayload(poll);
        if err.Some? {
          sent := true;
          disconnect := Some(D.PayloadDropped);
        }
      }
      match body {
        case BodyWaits =>
        case BodyFails => Leave(D.ProtoError);
        case BodyEnds => ReadOn();
      }
    }

    /** The `ReadPayload` arm of the loop. */
    method PollReadPayload(poll: D.PayloadPoll)
      modifies `st, `sent, `disconnect, `payload, `log
      ensures View() == D.PayloadStep(old(View()), poll)
    {
      var waits := payload && (poll.PlWaits? || poll.PlDropped?);
      var err := PollPayload(poll);
      if err.Some? {
        sent := true;
      }
      ghost var t := View();
      var left := CheckDisconnect();
      assert left ==> View() == D.CheckDisconnect(t, if waits then t else D.To(t, D.ReadRequest));
      if !left && !waits {
        st := D.ReadRequest;
      }
    }

    /** The `CallControl` arm: an answer is carried out. */
    method OnAnswer(a: D.Answer, closed: bool, wireFails: bool)
      modifies `st, `sent, `disconnect, `payload, `log
      ensures View() == D.OnAnswer(old(View()), a, closed, wireFails)
    {
      match a {
        case ToPublish => Publish();
        case ToExpect => st := D.CallControl(D.Expectation);
        case ToUpgrade => st := D.CallControl(D.Upgrade);
        case Respond(empty) => SendResponse(closed, empty);
        case ErrorResponse(empty) => SendResponse(closed, empty);
        case ProtoResponse(empty) => SendResponse(closed, empty);
        case ContinueAck(upgrade) =>
          if wireFails {
            Leave(D.PeerGone);
          } else if upgrade {
            st := D.CallControl(D.Upgrade);
          } else {
            Publish();
          }
        case ExpectFails(empty) =>
          disconnect := Some(D.ExpectFailed);
          SendResponse(closed, empty);
        case UpgradeAck =>
          disconnect := Some(D.UpgradeHandled);
          Publish();
        case UpgradeDone => LeaveService(D.UpgradeHandled);
        case UpgradeFails(empty) =>
          disconnect := Some(D.UpgradeFailed);
          SendResponse(closed, empty);
        case StopAck => st := D.Stop;
      }
    }

    /**
      `poll`: the loop takes turns until one cannot be taken. Whatever the turns, once the disconnect message was sent
      nothing is decoded or published; and if protocol errors are answered without a body, heads and disconnect
      messages are bounded and a head too many is the last thing before the stop.
    */
    method Poll(turns: seq<D.Event>) returns (n: nat)
      requires Valid()
      modifies this
      ensures Valid() && n <= |turns| && history == old(history) + turns[..n]
      ensures n < |turns| ==> !D.Enabled(View(), turns[n])
      ensures old(sent) || old(log).broken ==>
        sent && log.calls == old(log).calls && log.decoded == old(log).decoded && log.published == old(log).published
      ensures (forall i :: 0 <= i < |history| ==> D.Bodiless(history[i])) ==>
        D.WithinBounds(View()) && (log.heads == log.decoded + 1 ==> st.Stop?)
      ensures log.published <= log.decoded
    {
      n := 0;
      assert turns[..0] == [];
      while n < |turns| && D.Enabled(View(), turns[n])
        invariant Valid() && n <= |turns| && history == old(history) + turns[..n]
      {
        Turn(turns[n]);
        n := n + 1;
        assert turns[..n] == turns[..n - 1] + [turns[n - 1]];
      }
      assert history[..|old(history)|] == old(history);
      D.QuietAfterDisconnect(history, |old(history)|);
      D.RunKeeps(history);
      if forall i :: 0 <= i < |history| ==> D.Bodiless(history[i]) {
        D.ConnectionIsBounded(history);
      }
    }

    /** One turn of the loop in `poll`. */
    method Turn(ev: D.Event)
      requires Valid() && D.Enabled(View(), ev)
      modifies this
      ensures Valid() && history == old(history) + [ev] && View() == D.Apply(old(View()), ev)
    {
      history := history + [ev];
      assert history[..|history| - 1] == old(history);
      match ev {
        case Published(closed, empty) => SendResponse(closed, empty);
        case PublishFails => Leave(D.AppError);
        case PublishWaits(poll, gone) =>
          if payload {
            var err := PollPayload(poll);
            if err.Some? {
              Leave(err.value);
            }
          } else if gone {
            Leave(D.PeerGone);
          }
        case Answered(a, closed, wireFails) => OnAnswer(a, closed, wireFails);
        case ControlFails => st := D.Failed;
        case ControlWaits(poll) => var err := PollPayload(poll);
        case Reads(r) =>
          var left := CheckDisconnect();
          if !left {
            PollReadRequest(r);
          }
        case PayloadTurn(poll) => PollReadPayload(poll);
        case SendTurn(closed, poll, body) => PollSendPayload(closed, poll, body);
      }
    }
  }
}
