/**
  The pool as the object of the source: two shared records updated in place, the loops of
  `acquire`, of `cleanup` and of the support task.  Every method is proved to have the effect
  of the event with its name, so the promises over runs hold of the object.
*/
module ConnectionPoolObject {
  import opened Basics
  import opened ConnectionPool
  import opened ConnectionPoolProofs

  class Pool {
    /** `inner`, with the dial tasks and guards that point to it */
    var inner: Conns
    /** `waiters`, with the receivers that are gone */
    var queues: Queues
    var waker: bool
    var stopped: bool
    var stopSignal: bool
    var task: Task

    ghost function View(): State
      reads this
    {
      State(inner, queues, task, waker, stopSignal, stopped)
    }

    ghost predicate Valid()
      reads this
    {
      Inv(View())
    }

    constructor (limit: nat)
      ensures View() == Init(limit) && Valid()
    {
      inner := Conns(limit, 0, map[], {}, {}, map[], 0);
      queues := Queues(map[], {}, 0, map[], map[], false);
      waker, stopped, stopSignal, task := false, false, false, NotStarted;
      new;
      InitKeeps(limit);
    }

    /** `Inner::acquire` */
    method Acquire(k: Key, usable: ConnId -> bool) returns (o: Acquire)
      modifies this`inner
      ensures (o, inner) == TryAcquire(old(inner), k, usable)
    {
      if inner.limit > 0 && inner.acquired >= inner.limit {
        return NotAvailable;
      }
      if k in inner.idle {
        while inner.idle[k] != []
          invariant k in inner.idle && inner == old(inner).(idle := old(inner).idle[k := inner.idle[k]])
          invariant PopUsable(inner.idle[k], usable) == PopUsable(old(inner).idle[k], usable)
          decreases |inner.idle[k]|
        {
          var conns := inner.idle[k];
          var conn := conns[|conns| - 1];
          inner := inner.(idle := inner.idle[k := conns[..|conns| - 1]]);
          assert inner.idle == old(inner).idle[k := conns[..|conns| - 1]];
          if usable(conn) {
            return Acquired(conn);
          }
        }
      }
      o := if k in inner.connecting then NotAvailable else Available;
    }

    /** `acquire`, then `Acquired::new` or `open_connection` */
    method AcquireOrDial(k: Key, usable: ConnId -> bool, w: WaiterId) returns (o: Acquire)
      modifies this`inner
      ensures (o, inner) == AcquireFor(old(inner), k, usable, w)
    {
      o := Acquire(k, usable);
      match o
      case NotAvailable =>
      case Acquired(conn) =>
        inner := inner.(acquired := inner.acquired + 1, held := inner.held[conn := k]);
      case Available =>
        inner := inner.(connecting := inner.connecting + {k}, dials := inner.dials + {Dial(k, w)});
    }

    /** `Waiters::cleanup` */
    method CleanupWaiters()
      modifies this`queues
      ensures queues == Cleanup(old(queues))
    {
      ghost var before := queues.waiters;
      var ws, canceled := queues.waiters, queues.canceled;
      var todo, empty := ws.Keys, {};
      while todo != {}
        invariant todo <= ws.Keys == before.Keys
        invariant forall k :: k in ws ==> ws[k] == if k in todo then before[k] else DropCanceled(before[k], canceled)
        invariant forall k :: k in empty <==> k in ws && k !in todo && ws[k] == []
        decreases todo
      {
        var k :| k in todo;
        while ws[k] != []
          invariant ws.Keys == before.Keys
          invariant DropCanceled(ws[k], canceled) == DropCanceled(before[k], canceled)
          invariant forall l :: l in ws && l != k ==> ws[l] == if l in todo then before[l]
              else DropCanceled(before[l], canceled)
          decreases |ws[k]|
        {
          if ws[k][0] in canceled {
            ws := ws[k := ws[k][1..]];
          } else {
            break;
          }
        }
        if ws[k] == [] {
          empty := empty + {k};
        }
        todo := todo - {k};
      }
      ws := ws - empty;
      assert ws == CleanWaiters(before, canceled);
      queues := queues.(waiters := ws);
    }

    /** `Inner::check_availibility` */
    method CheckAvailibility()
      modifies this`queues, this`waker
      ensures View() == CheckAvailability(old(View()))
    {
      CleanupWaiters();
      if |queues.waiters| > 0 && inner.acquired < inner.limit {
        waker := true;
      }
    }

    /** `ConnectionPool::call` up to its first await */
    method Call(k: Key, usable: ConnId -> bool)
      requires Valid()
      modifies this`inner, this`queues
      ensures Valid() && View() == Apply(old(View()), Event.Call(k, usable))
    {
      ApplyKeeps(View(), Event.Call(k, usable));
      CallStep(k, usable);
    }

    method CallStep(k: Key, usable: ConnId -> bool)
      modifies this`inner, this`queues
      ensures View() == NewCall(old(View()), k, usable)
    {
      var w := queues.nextWaiter;
      queues := queues.(nextWaiter := w + 1);
      var o := AcquireOrDial(k, usable, w);
      if o.NotAvailable? {
        queues := queues.(waiters := queues.waiters[k := Lookup(queues.waiters, k) + [w]],
                          arrived := queues.arrived[w := k]);
      }
    }

    /** A caller is dropped while it waits. */
    method Cancel(w: WaiterId)
      requires Valid() && w < queues.nextWaiter
      modifies this`queues
      ensures Valid() && View() == Apply(old(View()), Event.Cancel(w))
    {
      ApplyKeeps(View(), Event.Cancel(w));
      queues := queues.(canceled := queues.canceled + {w});
    }

    /** `Acquired::release`, and `Drop for Acquired` when `keep` is false; the counter does not underflow. */
    method GiveBackConn(conn: ConnId, keep: bool)
      requires inner.acquired > 0 && conn in inner.held
      modifies this`inner, this`queues, this`waker
      ensures View() == GiveBack(old(View()), conn, keep)
    {
      var k := inner.held[conn];
      inner := inner.(acquired := inner.acquired - 1, held := inner.held - {conn});
      if keep {
        inner := inner.(idle := inner.idle[k := Lookup(inner.idle, k) + [conn]]);
      }
      CheckAvailibility();
    }

    method Release(conn: ConnId, close: bool)
      requires Valid() && conn in inner.held
      modifies this`inner, this`queues, this`waker
      ensures Valid() && View() == Apply(old(View()), Event.Release(conn, close))
    {
      ApplyKeeps(View(), Event.Release(conn, close));
      ReturnKeeps(inner, conn, !close);
      GiveBackConn(conn, !close);
    }

    method DropAcquired(conn: ConnId)
      requires Valid() && conn in inner.held
      modifies this`inner, this`queues, this`waker
      ensures Valid() && View() == Apply(old(View()), DropConn(conn))
    {
      ApplyKeeps(View(), DropConn(conn));
      ReturnKeeps(inner, conn, false);
      GiveBackConn(conn, false);
    }

    /** `Drop for OpenGuard` */
    method DropOpenGuard(d: Dial)
      modifies this`inner, this`queues, this`waker
      ensures View() == DropGuard(old(View()), d)
    {
      inner := inner.(connecting := inner.connecting - {d.key}, dials := inner.dials - {d});
      CheckAvailibility();
    }

    /** The `Ok` arm of `open_connection` */
    method DialConnected(d: Dial)
      requires inner.acquired >= 0
      modifies this`inner, this`queues, this`waker
      ensures View() == Connected(old(View()), d)
    {
      if stopped {
        DropOpenGuard(d);
        return;
      }
      var conn := inner.nextConn;
      inner := inner.(connecting := inner.connecting - {d.key}, dials := inner.dials - {d}, nextConn := conn + 1);
      inner := inner.(acquired := inner.acquired + 1, held := inner.held[conn := d.key]);
      assert inner == Consume(old(inner), d);
      if d.waiter in queues.canceled {
        GiveBackConn(conn, true);
      }
      CheckAvailibility();
    }

    /** A dial task ends. */
    method DialFinished(d: Dial, ok: bool)
      requires Valid() && d in inner.dials
      modifies this`inner, this`queues, this`waker
      ensures Valid() && View() == Apply(old(View()), if ok then DialOk(d) else DialErr(d))
    {
      ApplyKeeps(View(), if ok then DialOk(d) else DialErr(d));
      if ok {
        DialConnected(d);
      } else {
        DropOpenGuard(d);
      }
    }

    /** The loop over the queue of one key in `run_connection_pool` */
    method ServeQueue(k: Key, usable: ConnId -> bool) returns (popped: bool)
      requires k in queues.waiters
      modifies this`inner, this`queues
      ensures (inner, queues) == ServeKey(old(inner), old(queues), k, usable)
      ensures !popped ==> queues == old(queues) && (queues.waiters[k] == [] || queues.waiters[k][0] !in queues.canceled)
    {
      popped := false;
      while queues.waiters[k] != []
        invariant k in queues.waiters
        invariant ServeKey(inner, queues, k, usable) == ServeKey(old(inner), old(queues), k, usable)
        invariant !popped ==> queues == old(queues)
        decreases |queues.waiters[k]|
      {
        var w := queues.waiters[k][0];
        if w in queues.canceled {
          popped := true;
          queues := queues.(waiters := queues.waiters[k := queues.waiters[k][1..]]);
        } else {
          var o := AcquireOrDial(k, usable, w);
          if o.NotAvailable? {
            break;
          }
          popped := true;
          queues := queues.(waiters := queues.waiters[k := queues.waiters[k][1..]],
                            served := queues.served[k := Lookup(queues.served, k) + [w]]);
        }
      }
    }

    /** The body of the loop of `run_connection_pool`; `order` is the iteration order of the hash map. */
    method ServeAll(order: seq<Key>, usable: ConnId -> bool)
      requires forall k :: k in order <==> k in queues.waiters
      requires NonEmptyQueues(queues)
      modifies this`inner, this`queues
      ensures var (c, q) := ServeKeys(old(inner), old(queues), order, usable); inner == c && queues == Cleanup(q)
    {
      var cleanup := false;
      var i := 0;
      while i < |order|
        invariant 0 <= i <= |order| && queues.waiters.Keys == old(queues).waiters.Keys
        invariant ServeKeys(inner, queues, order[i..], usable) == ServeKeys(old(inner), old(queues), order, usable)
        invariant !cleanup ==> queues == old(queues)
        invariant !cleanup ==> forall j :: 0 <= j < i ==> queues.waiters[order[j]][0] !in queues.canceled
      {
        assert order[i..][0] == order[i] && order[i..][1..] == order[i + 1..];
        var popped := ServeQueue(order[i], usable);
        cleanup := cleanup || popped;
        i := i + 1;
      }
      if cleanup {
        CleanupWaiters();
      } else {
        assert CleanWaiters(queues.waiters, queues.canceled) == queues.waiters;
      }
    }

    /** One turn of the support task. */
    method SupportTurn(order: seq<Key>, usable: ConnId -> bool)
      requires Valid() && Enabled(View(), Support(order, usable))
      modifies this
      ensures Valid() && View() == Apply(old(View()), Support(order, usable))
    {
      ApplyKeeps(View(), Support(order, usable));
      if task.Parked? {
        if stopSignal || stopped {
          task := Finished;
          return;
        }
        waker := false;
      }
      ServeAll(order, usable);
      task := Parked;
    }

    /** `shutdown` */
    method Shutdown()
      requires Valid()
      modifies this`stopSignal, this`stopped
      ensures Valid() && View() == Apply(old(View()), Event.Shutdown)
    {
      ApplyKeeps(View(), Event.Shutdown);
      stopSignal, stopped := true, true;
    }

    /** `Drop for ConnectionPool`, last handle */
    method DropLast()
      requires Valid()
      modifies this
      ensures Valid() && View() == Apply(old(View()), DropPool)
    {
      ApplyKeeps(View(), DropPool);
      stopSignal, stopped, waker := true, true, true;
      queues := queues.(waiters := map[], cleared := true);
    }
  }
}
