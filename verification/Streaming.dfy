/**
  Reading frames from a stream that arrives in pieces, for any decoder that waits until a frame is complete and
  then takes exactly that frame.
*/
module Streaming {
  import opened Basics

  datatype Outcome<F, E> = Waiting | Got(frame: F) | Failed(error: E)

  /** Result of a call: the outcome, the new state, and what is left of the buffer. */
  datatype Called<S, F, E, T> = Called(outcome: Outcome<F, E>, state: S, rest: seq<T>)

  type Decoder<!S, !F, !E, !T> = (S, seq<T>) -> Called<S, F, E, T>

  ghost predicate SteadyAt<S, F, E, T>(dec: Decoder<S, F, E, T>, s: S, a: seq<T>, b: seq<T>) {
    var r := dec(s, a);
    if r.outcome.Waiting? then r == Called(Waiting, s, a) else dec(s, a + b) == r.(rest := r.rest + b)
  }

  /** Waiting changes nothing, and more input changes no other outcome. */
  ghost predicate Steady<S(!new), F(!new), E(!new), T(!new)>(dec: Decoder<S, F, E, T>) {
    forall s: S, a: seq<T>, b: seq<T> :: SteadyAt(dec, s, a, b)
  }

  /** A stream of frames: the bytes of each, and the states of the reader between them. */
  datatype Script<S, F, T> = Script(states: seq<S>, frames: seq<F>, chunks: seq<seq<T>>)

  ghost predicate Shaped<S, F, T>(script: Script<S, F, T>) {
    |script.states| == |script.frames| + 1 == |script.chunks| + 1
  }

  /** In front of anything, frame `k` is read as it should be. */
  ghost predicate DeliversAt<S, F, E, T>(dec: Decoder<S, F, E, T>, script: Script<S, F, T>, k: nat, rest: seq<T>)
    requires Shaped(script) && k < |script.frames|
  {
    dec(script.states[k], script.chunks[k] + rest) == Called(Got(script.frames[k]), script.states[k + 1], rest)
  }

  ghost predicate Delivers<S(!new), F(!new), E(!new), T(!new)>(dec: Decoder<S, F, E, T>, script: Script<S, F, T>) {
    && Shaped(script)
    && (forall k: nat, rest: seq<T> | k < |script.frames| :: DeliversAt(dec, script, k, rest))
    && dec(script.states[|script.frames|], []).outcome.Waiting?
  }

  // ---------------------------------------------------------------- sessions

  datatype Action<T> = Feed(data: seq<T>) | Poll

  datatype Session<S, F, T> = Session(state: S, buf: seq<T>, frames: seq<F>, failed: bool)

  function Fed<T>(acts: seq<Action<T>>): seq<T> {
    if acts == [] then []
    else Fed(acts[..|acts| - 1]) + (if acts[|acts| - 1].Feed? then acts[|acts| - 1].data else [])
  }

  function Polled<S, F, E, T>(s: Session<S, F, T>, c: Called<S, F, E, T>): Session<S, F, T> {
    Session(c.state, c.rest, if c.outcome.Got? then s.frames + [c.outcome.frame] else s.frames,
            s.failed || c.outcome.Failed?)
  }

  /** Bytes arrive and the decoder is called, in any order. */
  function Run<S, F, E, T>(dec: Decoder<S, F, E, T>, s0: S, acts: seq<Action<T>>): Session<S, F, T> {
    if acts == [] then Session(s0, [], [], false)
    else
      var s := Run(dec, s0, acts[..|acts| - 1]);
      match acts[|acts| - 1]
      case Feed(data) => s.(buf := s.buf + data)
      case Poll => Polled(s, dec(s.state, s.buf))
  }

  /** The reader stands between two frames of the script; `future` is still to arrive. */
  ghost predicate Between<S, F, T>(script: Script<S, F, T>, s: Session<S, F, T>, future: seq<T>)
    requires Shaped(script)
  {
    var k := |s.frames|;
    && !s.failed && k <= |script.frames| && s.frames == script.frames[..k]
    && s.state == script.states[k]
    && s.buf + future == Flatten(script.chunks[k..])
  }

  /** A call on a part of the input either waits or does what it does on the whole. */
  lemma CallOnPart<S, F, E, T>(dec: Decoder<S, F, E, T>, s: S, a: seq<T>, b: seq<T>, frame: F, s': S, rest: seq<T>)
    requires SteadyAt(dec, s, a, b) && dec(s, a + b) == Called(Got(frame), s', rest)
    ensures var c := dec(s, a);
      if c.outcome.Waiting? then c.state == s && c.rest == a && b != []
      else c.outcome == Got(frame) && c.state == s' && c.rest + b == rest
  {
    if b == [] {
      assert a + b == a;
    }
  }

  lemma NextChunk<S, F, E, T>(dec: Decoder<S, F, E, T>, script: Script<S, F, T>, k: nat, input: seq<T>)
    requires Shaped(script) && k < |script.frames| && input == Flatten(script.chunks[k..])
    requires DeliversAt(dec, script, k, Flatten(script.chunks[k + 1..]))
    ensures dec(script.states[k], input) ==
        Called(Got(script.frames[k]), script.states[k + 1], Flatten(script.chunks[k + 1..]))
  {
    assert script.chunks[k..][1..] == script.chunks[k + 1..];
  }

  /** A call keeps the reader between frames, and reads the next one if everything has arrived. */
  lemma PollAdvances<S(!new), F(!new), E(!new), T(!new)>(
      dec: Decoder<S, F, E, T>, script: Script<S, F, T>, s: Session<S, F, T>, future: seq<T>)
    requires Steady(dec) && Delivers(dec, script) && Between(script, s, future)
    ensures Between(script, Polled(s, dec(s.state, s.buf)), future)
    ensures future == [] && |s.frames| < |script.frames| ==> dec(s.state, s.buf).outcome.Got?
  {
    var k := |s.frames|;
    assert SteadyAt(dec, s.state, s.buf, future);
    if k == |script.frames| {
      assert s.buf == [];
    } else {
      assert DeliversAt(dec, script, k, Flatten(script.chunks[k + 1..]));
      NextChunk(dec, script, k, s.buf + future);
      CallOnPart(dec, s.state, s.buf, future, script.frames[k], script.states[k + 1], Flatten(script.chunks[k + 1..]));
    }
  }

  /** Whatever the pieces and whenever the calls, the reader stands between two frames of the script. */
  lemma {:induction false} SessionFollows<S(!new), F(!new), E(!new), T(!new)>(
      dec: Decoder<S, F, E, T>, script: Script<S, F, T>, acts: seq<Action<T>>, future: seq<T>)
    requires Steady(dec) && Delivers(dec, script)
    requires Fed(acts) + future == Flatten(script.chunks)
    ensures Between(script, Run(dec, script.states[0], acts), future)
  {
    if acts == [] {
      assert [] + future == future && script.chunks[0..] == script.chunks;
    } else {
      var before := acts[..|acts| - 1];
      var s := Run(dec, script.states[0], before);
      match acts[|acts| - 1]
      case Feed(data) =>
        assert Fed(before) + (data + future) == Fed(acts) + future;
        SessionFollows(dec, script, before, data + future);
        assert s.buf + (data + future) == s.buf + data + future;
      case Poll =>
        assert Fed(acts) == Fed(before);
        SessionFollows(dec, script, before, future);
        PollAdvances(dec, script, s, future);
    }
  }

  /** Once everything has arrived, one more call reads one more frame. */
  lemma PollReads<S(!new), F(!new), E(!new), T(!new)>(dec: Decoder<S, F, E, T>, script: Script<S, F, T>,
        acts: seq<Action<T>>)
    requires Steady(dec) && Delivers(dec, script) && Fed(acts) == Flatten(script.chunks)
    ensures var s := Run(dec, script.states[0], acts);
      |s.frames| < |script.frames| ==>
        Run(dec, script.states[0], acts + [Poll]).frames == s.frames + [script.frames[|s.frames|]]
  {
    assert Fed(acts) + [] == Fed(acts);
    SessionFollows(dec, script, acts, []);
    var s := Run(dec, script.states[0], acts);
    PollAdvances(dec, script, s, []);
    assert (acts + [Poll])[..|acts|] == acts;
  }

  /** What a session has read, and what one more call will read. */
  ghost predicate Reads<S, F, E, T>(dec: Decoder<S, F, E, T>, script: Script<S, F, T>, acts: seq<Action<T>>,
        future: seq<T>)
    requires Shaped(script)
  {
    var s := Run(dec, script.states[0], acts);
    var k := |s.frames|;
    && Between(script, s, future)
    && (future == [] && k < |script.frames| ==>
          Run(dec, script.states[0], acts + [Poll]).frames == s.frames + [script.frames[k]])
  }

  lemma SessionReads<S(!new), F(!new), E(!new), T(!new)>(
      dec: Decoder<S, F, E, T>, script: Script<S, F, T>, acts: seq<Action<T>>, future: seq<T>)
    requires Steady(dec) && Delivers(dec, script)
    requires Fed(acts) + future == Flatten(script.chunks)
    ensures Reads(dec, script, acts, future)
  {
    SessionFollows(dec, script, acts, future);
    if future == [] {
      assert Fed(acts) + [] == Fed(acts);
      PollReads(dec, script, acts);
    }
  }
}
