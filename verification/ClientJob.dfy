/**
  One request of the FFI client (`client/mod.rs`): attempts, the response handed to the host through callbacks, and
  the single final report.
*/
module ClientJob {
  import opened Basics

  const TWO_32: nat := 0x1_0000_0000

  type u32 = x: int | 0 <= x < TWO_32

  datatype Kind = NoError | InvalidUrl | Connect | OutcomeUnknown | Timeout | Truncated | Cancelled | Other(code: nat)

  type Fault = k: Kind | k != NoError witness InvalidUrl

  datatype Callbacks = Callbacks(headers: bool, chunk: bool, done: bool)

  /** A request; `flaw` is set if its address or method cannot be used at all. */
  datatype Job = Job(verb: string, flaw: Option<Fault>, maxRetries: u32, cbs: Callbacks)

  /** What the host answers to a chunk; a pause ends with a resume or with a cancel. */
  datatype ChunkAnswer = Continue | Cancel | Pause(cancelled: bool)

  /** What comes of a response body: data and the host's answer to it, trailers, or an error. */
  datatype BodyFrame = Data(chunk: seq<int>, answer: ChunkAnswer) | Trailers | BodyError

  datatype Response = Response(head: nat, cancelAtHeaders: bool, frames: seq<BodyFrame>)

  /** What one attempt meets. */
  datatype Attempt = CheckoutFails(kind: Fault) | BuildFails | SendFails | TimesOut | Responds(response: Response)

  /** What can be seen from outside: the request goes out, its response comes in, the host is called back. */
  datatype Event = Sent | Answered | OnHeaders(head: nat) | OnChunk(chunk: seq<int>) | OnDone(kind: Kind)

  /** Idempotent methods: the safe ones, PUT and DELETE (section 9.2.2 of RFC 9110). */
  predicate IsIdempotent(verb: string) {
    verb == "GET" || verb == "HEAD" || verb == "PUT" || verb == "DELETE" || verb == "OPTIONS" || verb == "TRACE"
  }

  /** `max_retries.saturating_add(1)`, or one */
  function Attempts(job: Job): nat {
    if !IsIdempotent(job.verb) then 1
    else if job.maxRetries == TWO_32 - 1 then job.maxRetries else job.maxRetries + 1
  }

  function Report(cbs: Callbacks, kind: Kind): seq<Event> {
    if cbs.done then [OnDone(kind)] else []
  }

  // ---------------------------------------------------------------- a response

  /** The loop over the frames of a body, from frame `i` on. */
  function DeliverBody(cbs: Callbacks, frames: seq<BodyFrame>, i: nat): seq<Event>
    requires i <= |frames|
    decreases |frames| - i
  {
    if i == |frames| then Report(cbs, NoError)
    else
      match frames[i]
      case BodyError => Report(cbs, Truncated)
      case Trailers => DeliverBody(cbs, frames, i + 1)
      case Data(chunk, answer) =>
        if chunk == [] || !cbs.chunk then DeliverBody(cbs, frames, i + 1)
        else if answer.Cancel? || (answer.Pause? && answer.cancelled) then [OnChunk(chunk)] + Report(cbs, Cancelled)
        else [OnChunk(chunk)] + DeliverBody(cbs, frames, i + 1)
  }

  /** `deliver` */
  function Deliver(cbs: Callbacks, r: Response): seq<Event> {
    if !cbs.headers then DeliverBody(cbs, r.frames, 0)
    else if r.cancelAtHeaders then [OnHeaders(r.head)] + Report(cbs, Cancelled)
    else [OnHeaders(r.head)] + DeliverBody(cbs, r.frames, 0)
  }

  // ---------------------------------------------------------------- attempts

  /** `run_job` from attempt `i` on, after an attempt that failed with `last`. */
  function RunFrom(job: Job, net: nat -> Attempt, i: nat, last: Option<Fault>): seq<Event>
    requires i <= Attempts(job) && (i > 0 ==> last.Some?)
    decreases Attempts(job) - i
  {
    if i == Attempts(job) then Report(job.cbs, last.value)
    else
      match net(i)
      case CheckoutFails(kind) => RunFrom(job, net, i + 1, Some(kind))
      case BuildFails => Report(job.cbs, InvalidUrl)
      case SendFails =>
        [Sent] + if IsIdempotent(job.verb) then RunFrom(job, net, i + 1, Some(Connect))
            else Report(job.cbs, OutcomeUnknown)
      case TimesOut => [Sent] + Report(job.cbs, Timeout)
      case Responds(r) => [Sent, Answered] + Deliver(job.cbs, r)
  }

  /** `run_job` */
  function Run(job: Job, net: nat -> Attempt): seq<Event> {
    if job.flaw.Some? then Report(job.cbs, job.flaw.value) else RunFrom(job, net, 0, None)
  }

  // ---------------------------------------------------------------- shape of a run

  function Sends(k: nat): seq<Event> {
    seq(k, _ => Sent)
  }

  /** The chunks of a run, in order. */
  function ChunkEvents(chunks: seq<seq<int>>): seq<Event> {
    Map((c: seq<int>) => OnChunk(c), chunks)
  }

  /** Some sends, then at most one response: headers once, chunks, one report. */
  datatype Shape = Shape(sends: nat, answered: bool, headers: Option<nat>, chunks: seq<seq<int>>, done: Kind)

  function Render(cbs: Callbacks, s: Shape): seq<Event> {
    Sends(s.sends)
    + (if s.answered then [Answered] else [])
    + (if s.headers.Some? then [OnHeaders(s.headers.value)] else [])
    + ChunkEvents(s.chunks) + Report(cbs, s.done)
  }

  /** The data of a body that the host is shown: empty chunks are not. */
  function Shown(frames: seq<BodyFrame>): seq<seq<int>> {
    if frames == [] then []
    else (if frames[0].Data? && frames[0].chunk != [] then [frames[0].chunk] else []) + Shown(frames[1..])
  }

  function BodyShape(chunks: seq<seq<int>>, done: Kind): Shape {
    Shape(0, false, None, chunks, done)
  }

  lemma RenderBody(cbs: Callbacks, c: seq<int>, chunks: seq<seq<int>>, done: Kind)
    ensures Render(cbs, BodyShape([c] + chunks, done)) == [OnChunk(c)] + Render(cbs, BodyShape(chunks, done))
  {
    assert ChunkEvents([c] + chunks) == [OnChunk(c)] + ChunkEvents(chunks);
  }

  /** The host is shown this frame and cancels. */
  predicate Cancels(cbs: Callbacks, f: BodyFrame) {
    cbs.chunk && f.Data? && f.chunk != [] && (f.answer.Cancel? || (f.answer.Pause? && f.answer.cancelled))
  }

  /** Delivery from frame `i` on stops at frame `j`, or runs to the end. */
  ghost predicate StopsAt(cbs: Callbacks, frames: seq<BodyFrame>, i: nat, j: nat) {
    && i <= j <= |frames|
    && (forall k :: i <= k < j ==> !frames[k].BodyError? && !Cancels(cbs, frames[k]))
    && (j < |frames| ==> frames[j].BodyError? || Cancels(cbs, frames[j]))
  }

  /** What is reported if delivery stops at frame `j`. */
  function OutcomeAt(frames: seq<BodyFrame>, j: nat): Kind
    requires j <= |frames|
  {
    if j == |frames| then NoError else if frames[j].BodyError? then Truncated else Cancelled
  }

  /** The chunks from frame `i` up to and with the one where delivery stops. */
  function SeenTo(cbs: Callbacks, frames: seq<BodyFrame>, i: nat, j: nat): seq<seq<int>>
    requires i <= j <= |frames|
  {
    if !cbs.chunk then [] else Shown(frames[i..if j < |frames| then j + 1 else j])
  }

  lemma SeenNext(cbs: Callbacks, frames: seq<BodyFrame>, i: nat, j: nat)
    requires i < j <= |frames|
    ensures SeenTo(cbs, frames, i, j) ==
      (if cbs.chunk && frames[i].Data? && frames[i].chunk != [] then [frames[i].chunk] else [])
        + SeenTo(cbs, frames, i + 1, j)
  {
    var e := if j < |frames| then j + 1 else j;
    assert frames[i..e][1..] == frames[i + 1..e];
  }

  lemma SeenLast(cbs: Callbacks, frames: seq<BodyFrame>, j: nat)
    requires j < |frames|
    ensures SeenTo(cbs, frames, j, j) ==
      if cbs.chunk && frames[j].Data? && frames[j].chunk != [] then [frames[j].chunk] else []
  {
    var one := frames[j..j + 1];
    assert one == [frames[j]] && one[1..] == [];
    assert Shown(one[1..]) == [];
  }

  /**
    What the host sees of a body: its chunks in order up to where delivery stops, then one report. It stops at the
    first broken frame, which is reported as truncation, or at the first chunk the host cancels at, which is reported
    as that, whichever comes first; success is reported exactly if there is neither.
  */
  lemma {:induction false} BodySeen(cbs: Callbacks, frames: seq<BodyFrame>, i: nat) returns (j: nat)
    requires i <= |frames|
    ensures StopsAt(cbs, frames, i, j)
    ensures DeliverBody(cbs, frames, i) == Render(cbs, BodyShape(SeenTo(cbs, frames, i, j), OutcomeAt(frames, j)))
    decreases |frames| - i
  {
    if i == |frames| || frames[i].BodyError? || Cancels(cbs, frames[i]) {
      j := i;
      BodyStops(cbs, frames, i);
    } else {
      j := BodySeen(cbs, frames, i + 1);
      BodyGoesOn(cbs, frames, i, j);
    }
  }

  lemma BodyStops(cbs: Callbacks, frames: seq<BodyFrame>, i: nat)
    requires StopsAt(cbs, frames, i, i)
    ensures DeliverBody(cbs, frames, i) == Render(cbs, BodyShape(SeenTo(cbs, frames, i, i), OutcomeAt(frames, i)))
  {
    RenderReport(cbs, OutcomeAt(frames, i));
    if i < |frames| {
      SeenLast(cbs, frames, i);
      if Cancels(cbs, frames[i]) {
        RenderBody(cbs, frames[i].chunk, [], Cancelled);
        assert [frames[i].chunk] + [] == [frames[i].chunk];
      }
    } else {
      assert SeenTo(cbs, frames, i, i) == [];
    }
  }

  lemma BodyGoesOn(cbs: Callbacks, frames: seq<BodyFrame>, i: nat, j: nat)
    requires i < |frames| && !frames[i].BodyError? && !Cancels(cbs, frames[i]) && StopsAt(cbs, frames, i + 1, j)
    requires DeliverBody(cbs, frames, i + 1) ==
        Render(cbs, BodyShape(SeenTo(cbs, frames, i + 1, j), OutcomeAt(frames, j)))
    ensures DeliverBody(cbs, frames, i) == Render(cbs, BodyShape(SeenTo(cbs, frames, i, j), OutcomeAt(frames, j)))
  {
    SeenNext(cbs, frames, i, j);
    var f, rest := frames[i], SeenTo(cbs, frames, i + 1, j);
    if f.Data? && f.chunk != [] && cbs.chunk {
      RenderBody(cbs, f.chunk, rest, OutcomeAt(frames, j));
    } else {
      assert [] + rest == rest;
    }
  }

  // ---------------------------------------------------------------- whole jobs

  function Prepend(k: nat, s: Shape): Shape {
    s.(sends := s.sends + k)
  }

  lemma RenderSend(cbs: Callbacks, s: Shape)
    ensures Render(cbs, Prepend(1, s)) == [Sent] + Render(cbs, s)
  {
    assert Sends(s.sends + 1) == [Sent] + Sends(s.sends);
  }

  lemma RenderReport(cbs: Callbacks, kind: Kind)
    ensures Render(cbs, BodyShape([], kind)) == Report(cbs, kind)
  {
    assert ChunkEvents([]) == [] && Sends(0) == [];
  }

  lemma RenderResponse(cbs: Callbacks, headers: Option<nat>, chunks: seq<seq<int>>, done: Kind)
    ensures Render(cbs, Shape(1, true, headers, chunks, done)) ==
      [Sent, Answered] + (if headers.Some? then [OnHeaders(headers.value)] else [])
        + Render(cbs, BodyShape(chunks, done))
  {
    assert Sends(1) == [Sent] && Sends(0) == [];
  }

  /** What the host is shown of a response. */
  ghost predicate SeenOf(cbs: Callbacks, r: Response, s: Shape) {
    && s.headers == (if cbs.headers then Some(r.head) else None)
    && if cbs.headers && r.cancelAtHeaders then s.chunks == [] && s.done == Cancelled
       else
         exists j: nat ::
           && StopsAt(cbs, r.frames, 0, j)
           && s.chunks == SeenTo(cbs, r.frames, 0, j)
           && s.done == OutcomeAt(r.frames, j)
  }

  lemma ResponseSeen(cbs: Callbacks, r: Response) returns (s: Shape)
    ensures s.answered && s.sends == 1 && SeenOf(cbs, r, s)
    ensures [Sent, Answered] + Deliver(cbs, r) == Render(cbs, s)
  {
    var chunks, done := [], Cancelled;
    var headers := if cbs.headers then Some(r.head) else None;
    if cbs.headers && r.cancelAtHeaders {
      RenderReport(cbs, Cancelled);
    } else {
      var j := BodySeen(cbs, r.frames, 0);
      chunks, done := SeenTo(cbs, r.frames, 0, j), OutcomeAt(r.frames, j);
    }
    s := Shape(1, true, headers, chunks, done);
    var head := if headers.Some? then [OnHeaders(headers.value)] else [];
    assert Deliver(cbs, r) == head + Render(cbs, BodyShape(chunks, done));
    RenderResponse(cbs, headers, chunks, done);
    Assoc([Sent, Answered], head, Render(cbs, BodyShape(chunks, done)));
  }

  /** The shape fits what the network did from attempt `i` on. */
  ghost predicate Fits(job: Job, net: nat -> Attempt, i: nat, s: Shape) {
    && (!s.answered ==> s.headers.None? && s.chunks == [] && !s.done.NoError?)
    && (s.answered ==> s.sends > 0)
    && (s.answered ==>
          exists k: nat :: i <= k < Attempts(job) && net(k).Responds? && SeenOf(job.cbs, net(k).response, s))
  }

  /**
    Every run is some sends, at most one response with headers once and then chunks, and one report. A request
    goes out at most once per attempt, and never again once a response has come.
  */
  lemma {:induction false} RunHasShape(job: Job, net: nat -> Attempt, i: nat, last: Option<Fault>) returns (s: Shape)
    requires i <= Attempts(job) && (i > 0 ==> last.Some?)
    ensures RunFrom(job, net, i, last) == Render(job.cbs, s)
    ensures s.sends <= Attempts(job) - i && Fits(job, net, i, s)
    decreases Attempts(job) - i
  {
    if i == Attempts(job) {
      s := BodyShape([], last.value);
      RenderReport(job.cbs, last.value);
    } else {
      match net(i)
      case CheckoutFails(kind) =>
        s := RunHasShape(job, net, i + 1, Some(kind));
      case BuildFails =>
        s := BodyShape([], InvalidUrl);
        RenderReport(job.cbs, InvalidUrl);
      case SendFails =>
        if IsIdempotent(job.verb) {
          s := RunHasShape(job, net, i + 1, Some(Connect));
        } else {
          s := BodyShape([], OutcomeUnknown);
          RenderReport(job.cbs, OutcomeUnknown);
        }
        RenderSend(job.cbs, s);
        s := Prepend(1, s);
      case TimesOut =>
        s := BodyShape([], Timeout);
        RenderReport(job.cbs, Timeout);
        RenderSend(job.cbs, s);
        s := Prepend(1, s);
      case Responds(r) =>
        s := ResponseSeen(job.cbs, r);
    }
  }

  /**
    For every job and everything the network and the host can do: at most one headers callback, then chunks, then
    exactly one report; a request that is not idempotent is sent at most once, an idempotent one at most
    `max_retries + 1` times; all sends come before the response, exactly it is shown, and success is reported exactly if
    it came to its end.
  */
  lemma JobIsSafe(job: Job, net: nat -> Attempt) returns (s: Shape)
    ensures Run(job, net) == Render(job.cbs, s)
    ensures s.sends <= if IsIdempotent(job.verb) then job.maxRetries + 1 else 1
    ensures job.flaw.Some? ==> s == BodyShape([], job.flaw.value)
    ensures job.flaw.None? ==> Fits(job, net, 0, s)
  {
    if job.flaw.Some? {
      s := BodyShape([], job.flaw.value);
      RenderReport(job.cbs, job.flaw.value);
    } else {
      s := RunHasShape(job, net, 0, None);
    }
  }

  // ---------------------------------------------------------------- the attempt that decides

  /** After this attempt there is another one, if attempts are left. */
  predicate Retried(job: Job, a: Attempt) {
    a.CheckoutFails? || (a.SendFails? && IsIdempotent(job.verb))
  }

  /** How many attempts a job may make; the counter of retries does not wrap. */
  function MayTry(job: Job): nat {
    if !IsIdempotent(job.verb) then 1
    else if job.maxRetries + 1 < TWO_32 then job.maxRetries + 1 else TWO_32 - 1
  }

  /** From attempt `i` on, attempt `e` is the first that is not retried, or none is and attempts run out at `e`. */
  ghost predicate Decides(job: Job, net: nat -> Attempt, i: nat, e: nat) {
    && i <= e <= MayTry(job)
    && (forall k :: i <= k < e ==> Retried(job, net(k)))
    && (e < MayTry(job) ==> !Retried(job, net(e)))
  }

  /** How many of the attempts from `i` to `e` sent the request and failed. */
  function FailedSends(net: nat -> Attempt, i: nat, e: nat): nat
    requires i <= e
    decreases e - i
  {
    if i == e then 0 else (if net(i).SendFails? then 1 else 0) + FailedSends(net, i + 1, e)
  }

  /** What is reported when attempts run out: the error of the last one. */
  function LastError(net: nat -> Attempt, e: nat): Kind
    requires e > 0
  {
    match net(e - 1)
    case CheckoutFails(kind) => kind
    case _ => Connect
  }

  /** The shape of a run that attempt `e` decides. */
  ghost predicate DecidedBy(job: Job, net: nat -> Attempt, i: nat, e: nat, s: Shape)
    requires i <= e
  {
    if e >= MayTry(job) then e > 0 && s == Shape(FailedSends(net, i, e), false, None, [], LastError(net, e))
    else
      match net(e)
      case BuildFails => s == Shape(FailedSends(net, i, e), false, None, [], InvalidUrl)
      case SendFails => s == Shape(FailedSends(net, i, e) + 1, false, None, [], OutcomeUnknown)
      case TimesOut => s == Shape(FailedSends(net, i, e) + 1, false, None, [], Timeout)
      case Responds(r) => s.answered && s.sends == FailedSends(net, i, e) + 1 && SeenOf(job.cbs, r, s)
      case CheckoutFails(_) => false
  }

  /** The attempt before `i` failed with `last`. */
  predicate LastWas(job: Job, net: nat -> Attempt, i: nat, last: Option<Fault>) {
    i > 0 ==> Retried(job, net(i - 1)) && last == Some(LastErrorOf(net(i - 1)))
  }

  function LastErrorOf(a: Attempt): Fault {
    if a.CheckoutFails? then a.kind else Connect
  }

  lemma DecidedSooner(job: Job, net: nat -> Attempt, i: nat, e: nat, s: Shape)
    requires i < e && Retried(job, net(i)) && DecidedBy(job, net, i + 1, e, s)
    ensures DecidedBy(job, net, i, e, if net(i).SendFails? then Prepend(1, s) else s)
  {
    var t := if net(i).SendFails? then Prepend(1, s) else s;
    if e < MayTry(job) && net(e).Responds? {
      SeenSame(job.cbs, net(e).response, s, t);
    }
  }

  lemma SeenSame(cbs: Callbacks, r: Response, s: Shape, t: Shape)
    requires SeenOf(cbs, r, s) && t == s.(sends := t.sends)
    ensures SeenOf(cbs, r, t)
  {}

  lemma {:induction false} RunDecided(job: Job, net: nat -> Attempt, i: nat, last: Option<Fault>)
    returns (e: nat, s: Shape)
    requires i <= Attempts(job) && LastWas(job, net, i, last)
    ensures Decides(job, net, i, e) && DecidedBy(job, net, i, e, s)
    ensures RunFrom(job, net, i, last) == Render(job.cbs, s)
    decreases Attempts(job) - i
  {
    if i == Attempts(job) {
      e, s := i, BodyShape([], last.value);
      RenderReport(job.cbs, last.value);
    } else if Retried(job, net(i)) {
      e, s := RunDecided(job, net, i + 1, Some(LastErrorOf(net(i))));
      DecidedSooner(job, net, i, e, s);
      if net(i).SendFails? {
        RenderSend(job.cbs, s);
        s := Prepend(1, s);
      }
    } else {
      e := i;
      match net(i)
      case BuildFails =>
        s := BodyShape([], InvalidUrl);
        RenderReport(job.cbs, InvalidUrl);
      case SendFails => s := SentOnce(job.cbs, OutcomeUnknown);
      case TimesOut => s := SentOnce(job.cbs, Timeout);
      case Responds(r) => s := ResponseSeen(job.cbs, r);
    }
  }

  lemma SentOnce(cbs: Callbacks, kind: Kind) returns (s: Shape)
    ensures s == Shape(1, false, None, [], kind) && [Sent] + Report(cbs, kind) == Render(cbs, s)
  {
    s := BodyShape([], kind);
    RenderReport(cbs, kind);
    RenderSend(cbs, s);
    s := Prepend(1, s);
  }

  /**
    Exactly what a job does: the first attempt that is not retried decides what is reported, or the error of the last
    attempt if all are; the request goes out once for every send that failed before, and once more if the deciding
    attempt got that far.
  */
  lemma JobIsDecided(job: Job, net: nat -> Attempt) returns (e: nat, s: Shape)
    requires job.flaw.None?
    ensures Decides(job, net, 0, e) && DecidedBy(job, net, 0, e, s) && Run(job, net) == Render(job.cbs, s)
  {
    e, s := RunDecided(job, net, 0, None);
  }

  // ---------------------------------------------------------------- the loops

  /** `deliver`: calls the host back frame by frame. */
  method DeliverLoop(cbs: Callbacks, r: Response) returns (log: seq<Event>)
    ensures log == Deliver(cbs, r)
  {
    log := [];
    if cbs.headers {
      log := log + [OnHeaders(r.head)];
      if r.cancelAtHeaders {
        return log + Report(cbs, Cancelled);
      }
    }
    var i := 0;
    while i < |r.frames|
      invariant 0 <= i <= |r.frames|
      invariant log + DeliverBody(cbs, r.frames, i) == Deliver(cbs, r)
    {
      var frame := r.frames[i];
      i := i + 1;
      if frame.BodyError? {
        return log + Report(cbs, Truncated);
      }
      if frame.Trailers? || frame.chunk == [] || !cbs.chunk {
        continue;
      }
      ghost var rest := if Cancels(cbs, frame) then Report(cbs, Cancelled) else DeliverBody(cbs, r.frames, i);
      Assoc(log, [OnChunk(frame.chunk)], rest);
      log := log + [OnChunk(frame.chunk)];
      match frame.answer {
        case Cancel => return log + Report(cbs, Cancelled);
        case Pause(cancelled) =>
          if cancelled {
            return log + Report(cbs, Cancelled);
          }
        case Continue =>
      }
    }
    log := log + Report(cbs, NoError);
  }

  /** `run_job`: after the last attempt there is always an error to report. */
  method RunJob(job: Job, net: nat -> Attempt) returns (log: seq<Event>)
    ensures log == Run(job, net)
  {
    if job.flaw.Some? {
      return Report(job.cbs, job.flaw.value);
    }
    var idempotent := IsIdempotent(job.verb);
    var attempts := if !idempotent then 1 else if job.maxRetries == TWO_32 - 1 then job.maxRetries
        else job.maxRetries + 1;
    log := [];
    var last: Option<Fault> := None;
    for i := 0 to attempts
      invariant i > 0 ==> last.Some?
      invariant log + RunFrom(job, net, i, last) == Run(job, net)
    {
      match net(i) {
        case CheckoutFails(kind) => last := Some(kind);
        case BuildFails => return log + Report(job.cbs, InvalidUrl);
        case SendFails =>
          ghost var rest := if idempotent then RunFrom(job, net, i + 1, Some(Connect))
              else Report(job.cbs, OutcomeUnknown);
          Assoc(log, [Sent], rest);
          log := log + [Sent];
          if !idempotent {
            return log + Report(job.cbs, OutcomeUnknown);
          }
          last := Some(Connect);
        case TimesOut =>
          Assoc(log, [Sent], Report(job.cbs, Timeout));
          return log + [Sent] + Report(job.cbs, Timeout);
        case Responds(r) =>
          var events := DeliverLoop(job.cbs, r);
          Assoc(log, [Sent, Answered], events);
          return log + [Sent, Answered] + events;
      }
    }
    log := log + Report(job.cbs, last.value);
  }
}
