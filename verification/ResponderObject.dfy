/**
  The tables of one worker as an object whose methods change them in place. It remembers what it was asked, and
  `Valid()` says that the tables are what the specification makes of that; so a ticket is never in both tables, gets
  at most one reply, and its body is what was written while it was open, as contracts of every method.
*/
module ResponderObject {
  import opened Basics
  import R = Responder

  datatype Phase = Fresh | Streaming | Done

  class Tickets {
    const worker: nat
    var nextLocal: nat
    var pending: set<R.Id>
    var streaming: set<R.Id>
    var replies: map<R.Id, seq<R.Reply>>
    var bodies: map<R.Id, seq<R.Chunk>>
    var mailbox: seq<(R.Id, R.Op)>
    /** How many tickets were handed out, and what was done with them. */
    ghost var count: nat
    ghost var hist: R.History

    constructor (worker: nat)
      ensures this.worker == worker && nextLocal == 1 && mailbox == [] && View() == R.NEW_WORKER.tables
      ensures count == 0 && hist == R.NEW_WORKER.hist && Valid()
    {
      this.worker := worker;
      nextLocal := 1;
      pending, streaming, replies, bodies := {}, {}, map[], map[];
      mailbox := [];
      count, hist := 0, R.NEW_WORKER.hist;
      new;
      R.NewKeeps(worker);
    }

    function View(): R.Tables
      reads this
    {
      R.Tables(pending, streaming, replies, bodies)
    }

    /** The tables are consistent with the history as long as there are numbers for the tickets. */
    ghost predicate Valid()
      reads this
    {
      && (forall id :: id in streaming ==> id in bodies)
      && (count <= R.LOCALS ==> R.TableInv(worker, nextLocal, count, View(), hist))
    }

    /** `register`: a number that no other ticket has, until the numbers go round. */
    method Register() returns (id: R.Id)
      requires Valid()
      modifies `nextLocal, `pending, `count
      ensures Valid() && count == old(count) + 1
      ensures id == R.IdOf(worker, old(nextLocal)) && nextLocal == R.NextLocal(old(nextLocal))
      ensures pending == old(pending) + {id}
      ensures count <= R.LOCALS ==> id !in old(pending) && id !in streaming && id !in replies
    {
      id := R.IdOf(worker, nextLocal);
      if count < R.LOCALS {
        R.FreshId(worker, nextLocal, count, View());
        R.RegisterKeepsTables(worker, nextLocal, count, View(), hist);
      }
      var n := (nextLocal + 1) % R.TWO_32;
      nextLocal := if n > 1 then n else 1;
      pending := pending + {id};
      count := count + 1;
    }

    /** `deliver_local` */
    method DeliverLocal(id: R.Id, reply: nat, ghost op: R.Op, ghost foreign: bool) returns (sent: bool)
      requires Valid() && (op == R.Once(reply) || op == R.Stream(reply))
      modifies `pending, `replies, `hist
      ensures Valid() && (View(), sent) == R.Local(old(View()), id, op)
      ensures hist == R.Logged(old(hist), id, op, sent, foreign)
    {
      Keep(id, op, foreign);
      sent := id in pending;
      if sent {
        pending := pending - {id};
        replies := replies[id := (if id in replies then replies[id] else []) + [R.Whole(reply)]];
      }
      hist := R.Logged(hist, id, op, sent, foreign);
    }

    /** `begin_stream_local` */
    method BeginStreamLocal(id: R.Id, head: nat, ghost foreign: bool) returns (sent: bool)
      requires Valid()
      modifies `pending, `replies, `streaming, `bodies, `hist
      ensures Valid() && (View(), sent) == R.Local(old(View()), id, R.Begin(head))
      ensures hist == R.Logged(old(hist), id, R.Begin(head), sent, foreign)
    {
      Keep(id, R.Begin(head), foreign);
      sent := id in pending;
      if sent {
        pending := pending - {id};
        streaming := streaming + {id};
        bodies := bodies[id := []];
        replies := replies[id := (if id in replies then replies[id] else []) + [R.Opened(head)]];
      }
      hist := R.Logged(hist, id, R.Begin(head), sent, foreign);
    }

    /** `write_chunk_local` */
    method WriteChunkLocal(id: R.Id, chunk: R.Chunk, ghost foreign: bool) returns (sent: bool)
      requires Valid()
      modifies `bodies, `hist
      ensures Valid() && (View(), sent) == R.Local(old(View()), id, R.Write(chunk))
      ensures hist == R.Logged(old(hist), id, R.Write(chunk), sent, foreign)
    {
      Keep(id, R.Write(chunk), foreign);
      sent := id in streaming;
      if sent {
        bodies := bodies[id := bodies[id] + [chunk]];
      }
      hist := R.Logged(hist, id, R.Write(chunk), sent, foreign);
    }

    /** `finish_stream_local` */
    method FinishStreamLocal(id: R.Id, ghost foreign: bool) returns (sent: bool)
      requires Valid()
      modifies `streaming, `hist
      ensures Valid() && (View(), sent) == R.Local(old(View()), id, R.Finish)
      ensures hist == R.Logged(old(hist), id, R.Finish, sent, foreign)
    {
      Keep(id, R.Finish, foreign);
      sent := id in streaming;
      streaming := streaming - {id};
      hist := R.Logged(hist, id, R.Finish, sent, foreign);
      assert !sent ==> streaming == old(streaming);
    }

    /** What the specification makes of an operation is consistent again. */
    lemma Keep(id: R.Id, op: R.Op, foreign: bool)
      requires Valid()
      ensures var (t, sent) := R.Local(View(), id, op);
        count <= R.LOCALS ==> R.TableInv(worker, nextLocal, count, t, R.Logged(hist, id, op, sent, foreign))
    {
      if count <= R.LOCALS {
        R.LocalKeeps(worker, nextLocal, count, View(), hist, id, op, foreign);
      }
    }

    /** `forget` */
    method Forget(id: R.Id)
      requires Valid()
      modifies `pending
      ensures Valid() && pending == old(pending) - {id}
    {
      if count <= R.LOCALS {
        R.ForgetKeepsTables(worker, nextLocal, count, View(), hist, id);
      }
      pending := pending - {id};
    }

    /** `phase`: where a ticket is in its life, and how many replies it had. */
    method PhaseOf(id: R.Id) returns (phase: Phase)
      requires Valid()
      ensures id == 0 ==> phase == Done
      ensures count <= R.LOCALS && id != 0 ==>
        && (phase == Fresh <==> id in pending) && (phase == Streaming <==> id in streaming)
        && (phase == Fresh ==> R.RepliesTo(View(), id) == [])
        && (phase == Streaming ==> |R.RepliesTo(View(), id)| == 1)
    {
      if id == 0 {
        return Done;
      }
      if id in streaming {
        return Streaming;
      }
      return if id in pending then Fresh else Done;
    }

    /** A command from the mailbox is carried out. */
    method Carry(id: R.Id, op: R.Op)
      requires Valid()
      modifies `pending, `replies, `streaming, `bodies, `hist
      ensures Valid() && View() == R.Local(old(View()), id, op).0
      ensures hist == R.Logged(old(hist), id, op, R.Local(old(View()), id, op).1, true)
    {
      var sent;
      match op {
        case Once(r) => sent := DeliverLocal(id, r, op, true);
        case Stream(r) => sent := DeliverLocal(id, r, op, true);
        case Begin(h) => sent := BeginStreamLocal(id, h, true);
        case Write(c) => sent := WriteChunkLocal(id, c, true);
        case Finish => sent := FinishStreamLocal(id, true);
      }
    }

    /** The mailbox loop, until the mailbox is empty: commands are carried out first come, first served. */
    method RunMailbox()
      requires Valid()
      modifies `mailbox, `pending, `replies, `streaming, `bodies, `hist
      ensures Valid() && mailbox == [] && (View(), hist) == CarriedOut(old(View()), old(hist), old(mailbox))
    {
      while mailbox != []
        invariant Valid() && CarriedOut(View(), hist, mailbox) == CarriedOut(old(View()), old(hist), old(mailbox))
        decreases |mailbox|
      {
        var (id, op) := mailbox[0];
        mailbox := mailbox[1..];
        Carry(id, op);
      }
    }
  }

  function CarriedOut(t: R.Tables, h: R.History, cmds: seq<(R.Id, R.Op)>): (R.Tables, R.History)
    decreases |cmds|
  {
    if cmds == [] then (t, h)
    else
      var (id, op) := cmds[0];
      var (t', sent) := R.Local(t, id, op);
      CarriedOut(t', R.Logged(h, id, op, sent, true), cmds[1..])
  }
}
