/** Message queues and semaphores as objects, updated in place as message_queue.c and semaphore.c in furi/core do. */
module EventSources {
  import opened Ticks
  import opened EventLoop

  /** A source is allocated with a positive capacity and never holds more than that. */
  predicate Within(src: Source) {
    match src
    case MessageQueue(m, c) => |m| <= c && c > 0
    case Semaphore(n, c) => n <= c && c > 0
  }

  /** After an operation the direction it notifies is high, and the other one has not risen. */
  ghost predicate Announced(before: Source, after: Source, d: Direction) {
    Level(after, d) && forall e :: e != d && Level(after, e) ==> Level(before, e)
  }

  datatype FuriStatus = StatusOk | StatusErrorTimeout | StatusErrorResource | StatusErrorParameter | StatusErrorISR

  /** A pointer to a message, or NULL. */
  datatype Pointer = Null | To(message: int)

  /** How an operation that finds the level `high` or not, when its wait ends, is reported. */
  function Reported(high: bool, timeout: Word, irq: bool): FuriStatus {
    if irq && timeout != 0 then StatusErrorParameter
    else if high then StatusOk
    else if timeout != 0 then StatusErrorTimeout
    else StatusErrorResource
  }

  /**
   A message queue or a semaphore; each method is one call of the kernel's queue, without the notification.
   A call that waits takes effect when its wait ends, and `state` is what it finds then; `irq` says that
   it is made in interrupt mode.
   */
  class EventSource {
    var state: Source
    /** The items subscribed to this object, one per direction. */
    var link: Link

    constructor (initial: Source)
      requires Within(initial)
      ensures state == initial && link == Link(NULL, NULL)
    {
      state, link := initial, Link(NULL, NULL);
    }

    method GetLevel(d: Direction) returns (high: bool)
      ensures high <==> Level(state, d)
    {
      match state
      case MessageQueue(m, c) => high := if d == In then |m| > 0 else c - |m| > 0;
      case Semaphore(n, c) => high := if d == In then n > 0 else c - n > 0;
    }

    method PutMessage(source: Pointer, timeout: Word, irq: bool) returns (status: FuriStatus)
      requires state.MessageQueue? && Within(state)
      modifies this`state
      ensures status == if source.Null? then StatusErrorParameter else Reported(Level(old(state), Out), timeout, irq)
      ensures status.StatusOk? ==> state == Operated(old(state), Put(source.message)) && Announced(old(state), state, In)
      ensures Within(state) && (!status.StatusOk? ==> state == old(state))
    {
      if source.Null? || (irq && timeout != 0) {
        return StatusErrorParameter;
      }
      if |state.messages| == state.capacity {
        return if timeout != 0 then StatusErrorTimeout else StatusErrorResource;
      }
      state := state.(messages := state.messages + [source.message]);
      status := StatusOk;
    }

    /** Messages come out in the order they went in. */
    method GetMessage(buffer: bool, timeout: Word, irq: bool) returns (status: FuriStatus, message: int)
      requires state.MessageQueue? && Within(state)
      modifies this`state
      ensures status == if !buffer then StatusErrorParameter else Reported(Level(old(state), In), timeout, irq)
      ensures status.StatusOk? ==> state == Operated(old(state), Get) && Announced(old(state), state, Out)
      ensures status.StatusOk? ==> state.MessageQueue? && old(state).messages == [message] + state.messages
      ensures Within(state) && (!status.StatusOk? ==> state == old(state))
    {
      message := 0;
      if !buffer || (irq && timeout != 0) {
        return StatusErrorParameter, message;
      }
      if |state.messages| == 0 {
        return if timeout != 0 then StatusErrorTimeout else StatusErrorResource, message;
      }
      message := state.messages[0];
      state := state.(messages := state.messages[1..]);
      status := StatusOk;
    }

    method ResetQueue(irq: bool) returns (status: FuriStatus)
      requires state.MessageQueue? && Within(state)
      modifies this`state
      ensures status == if irq then StatusErrorISR else StatusOk
      ensures status.StatusOk? ==> state == Operated(old(state), Reset) && Announced(old(state), state, Out) && !Level(state, In)
      ensures Within(state) && (!status.StatusOk? ==> state == old(state))
    {
      if irq {
        return StatusErrorISR;
      }
      state := state.(messages := []);
      status := StatusOk;
    }

    /** A release never waits. */
    method ReleaseSemaphore() returns (status: FuriStatus)
      requires state.Semaphore? && Within(state)
      modifies this`state
      ensures status == if Level(old(state), Out) then StatusOk else StatusErrorResource
      ensures status.StatusOk? ==> state == Operated(old(state), Release) && Announced(old(state), state, In)
      ensures Within(state) && (!status.StatusOk? ==> state == old(state))
    {
      if state.count == state.maxCount {
        return StatusErrorResource;
      }
      state := state.(count := state.count + 1);
      status := StatusOk;
    }

    method AcquireSemaphore(timeout: Word, irq: bool) returns (status: FuriStatus)
      requires state.Semaphore? && Within(state)
      modifies this`state
      ensures status == Reported(Level(old(state), In), timeout, irq)
      ensures status.StatusOk? ==> state == Operated(old(state), Acquire) && Announced(old(state), state, Out)
      ensures Within(state) && (!status.StatusOk? ==> state == old(state))
    {
      if irq && timeout != 0 {
        return StatusErrorParameter;
      }
      if state.count == 0 {
        return if timeout != 0 then StatusErrorTimeout else StatusErrorResource;
      }
      state := state.(count := state.count - 1);
      status := StatusOk;
    }

    /** Any operation; one that the kind of source does not have fails. */
    method Perform(op: Operation) returns (ok: bool)
      requires Within(state)
      modifies this`state
      ensures ok <==> Succeeds(old(state), op)
      ensures ok ==> state == Operated(old(state), op)
      ensures Within(state) && (!ok ==> state == old(state))
    {
      var status := StatusErrorResource;
      if state.MessageQueue? {
        if op.Put? {
          status := PutMessage(To(op.message), 0, false);
        } else if op.Get? {
          var message;
          status, message := GetMessage(true, 0, false);
        } else if op.Reset? {
          status := ResetQueue(false);
        }
      } else if op.Release? {
        status := ReleaseSemaphore();
      } else if op.Acquire? {
        status := AcquireSemaphore(0, false);
      }
      ok := status.StatusOk?;
    }
  }
}
