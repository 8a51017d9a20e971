/**
  The controller of one power-mode transition: the clients it still awaits, its absolute
  deadline, its timer job and its completion handler.  The value `Transaction` carries the
  specification; the class `AckController` is the object that is updated in place.
 */
module AckControl {
  import opened PowerTypes

  /** What the completion handler captured when the transition was requested. */
  datatype Completion = Completion(from: PowerState, to: PowerState, sync: bool)

  /** One invocation of a completion handler, with the two flags it is given. */
  datatype HandlerCall = HandlerCall(completion: Completion, timedOut: bool, revoked: bool)

  datatype TransactionFields = TransactionFields(
    id: nat,
    target: PowerState,
    pending: set<nat>,
    running: bool,
    timeout: nat,
    hasTimer: bool,
    handler: Option<Completion>)

  /** A running controller has a handler to call and a timer job to revoke. */
  type Transaction = t: TransactionFields | t.running ==> t.handler.Some? && t.hasTimer
    witness TransactionFields(0, Unknown, {}, false, 0, false, None)

  function Max(a: nat, b: nat): nat {
    if a < b then b else a
  }

  function NewTransaction(id: nat, target: PowerState, now: nat): Transaction {
    TransactionFields(id, target, {}, false, now, false, None)
  }

  predicate Accepts(t: Transaction, clientId: nat, transactionId: nat) {
    transactionId == t.id && clientId in t.pending
  }

  function Answered(t: Transaction, clientId: nat): Transaction {
    var pending := t.pending - {clientId};
    t.(pending := pending, running := t.running && pending != {})
  }

  predicate Completes(t: Transaction, clientId: nat) {
    t.running && t.pending - {clientId} == {}
  }

  predicate WaitsFor(t: Transaction, offset: nat) {
    t.pending != {} && offset != 0
  }

  function Started(t: Transaction, now: nat, offset: nat, handler: Completion): Transaction {
    t.(running := true, hasTimer := true, handler := Some(handler),
       timeout := Max(now + offset, t.timeout))
  }

  /** A delay is refused only while the timer runs and the caller is not awaited by this transaction. */
  predicate DelayAccepted(t: Transaction, clientId: nat, transactionId: nat) {
    !t.running || Accepts(t, clientId, transactionId)
  }

  function Stopped(t: Transaction): Transaction {
    t.(running := false)
  }

  /** The framework's worker pool: the clock and the timer jobs it holds, by transaction. */
  class WorkerPool {
    var now: nat
    var jobs: map<nat, nat>

    constructor ()
      ensures now == 0 && jobs == map[]
    {
      now, jobs := 0, map[];
    }

    method Schedule(job: nat, at: nat)
      modifies this`jobs
      ensures jobs == old(jobs)[job := at]
    {
      jobs := jobs[job := at];
    }

    method Reschedule(at: nat, job: nat)
      modifies this`jobs
      ensures jobs == old(jobs)[job := at]
    {
      jobs := jobs[job := at];
    }

    method Revoke(job: nat)
      modifies this`jobs
      ensures jobs == old(jobs) - {job}
    {
      jobs := jobs - {job};
    }

    /** Takes a job that is due out of the pool; the caller then dispatches it. */
    method Take(job: nat) returns (due: bool)
      modifies this`jobs
      ensures due == (job in old(jobs) && old(jobs)[job] <= now)
      ensures jobs == if due then old(jobs) - {job} else old(jobs)
    {
      due := job in jobs && jobs[job] <= now;
      if due {
        jobs := jobs - {job};
      }
    }
  }

  class AckController {
    const workerPool: WorkerPool
    const powerState: PowerState
    const transactionId: nat
    var pending: set<nat>
    var running: bool
    var timeout: nat
    var timerJob: bool
    var handler: Option<Completion>

    ghost predicate Valid()
      reads this
    {
      running ==> handler.Some? && timerJob
    }

    ghost function View(): Transaction
      reads this
      requires Valid()
    {
      TransactionFields(transactionId, powerState, pending, running, timeout, timerJob, handler)
    }

    constructor (workerPool: WorkerPool, powerState: PowerState, transactionId: nat)
      ensures Valid() && this.workerPool == workerPool
      ensures View() == NewTransaction(transactionId, powerState, workerPool.now)
                     == TransactionFields(transactionId, powerState, {}, false, workerPool.now, false, None)
    {
      this.workerPool := workerPool;
      this.powerState := powerState;
      this.transactionId := transactionId;
      this.pending := {};
      this.running := false;
      this.timeout := workerPool.now;
      this.timerJob := false;
      this.handler := None;
    }

    method AckAwait(clientId: nat)
      requires Valid()
      modifies this`pending
      ensures Valid() && View() == old(View()).(pending := old(pending) + {clientId})
    {
      pending := pending + {clientId};
    }

    method Ack(clientId: nat, id: nat) returns (status: Error, call: Option<HandlerCall>)
      requires Valid()
      modifies this`pending, this`running, workerPool`jobs
      ensures Valid()
      ensures status == if id == transactionId && clientId in old(pending) then NoError else InvalidParameter
      ensures pending == (if status.NoError? then old(pending) - {clientId} else old(pending))
      ensures running == (old(running) && (status.NoError? ==> pending != {}))
      ensures View() == if status.NoError? then Answered(old(View()), clientId) else old(View())
      ensures call.Some? <==> status.NoError? && old(running) && pending == {}
      ensures call.Some? ==> call.value == HandlerCall(handler.value, false, false)
      ensures workerPool.jobs == if call.Some? then old(workerPool.jobs) - {transactionId} else old(workerPool.jobs)
    {
      status, call := NoError, None;
      if id != transactionId {
        status := InvalidParameter;
        return;
      }
      if clientId !in pending {
        status := InvalidParameter;
        return;
      }
      pending := pending - {clientId};
      if pending == {} && running {
        running := false;
        call := RunHandler(false);
      }
    }

    method RunHandler(timedOut: bool) returns (call: Option<HandlerCall>)
      requires handler.Some?
      modifies workerPool`jobs
      ensures call == Some(HandlerCall(handler.value, timedOut, false))
      ensures workerPool.jobs == if timedOut then old(workerPool.jobs) else old(workerPool.jobs) - {transactionId}
    {
      if !timedOut {
        workerPool.Revoke(transactionId);
      }
      call := Some(HandlerCall(handler.value, timedOut, false));
    }

    method Schedule(offset: nat, completion: Completion) returns (call: Option<HandlerCall>)
      requires Valid() && !running && handler.None?
      modifies this`running, this`handler, this`timeout, this`timerJob, workerPool`jobs
      ensures Valid()
      ensures call == if pending != {} && offset != 0 then None else Some(HandlerCall(completion, false, false))
      ensures View() == if call.None? then Started(old(View()), workerPool.now, offset, completion) else old(View())
      ensures call.None? ==>
                && running && timerJob && handler == Some(completion)
                && timeout == if old(timeout) < workerPool.now + offset then workerPool.now + offset else old(timeout)
      ensures workerPool.jobs == if call.None? then old(workerPool.jobs)[transactionId := timeout]
                                 else old(workerPool.jobs)
    {
      if pending == {} || offset == 0 {
        call := Some(HandlerCall(completion, false, false));
      } else {
        running := true;
        handler := Some(completion);
        var newTimeout := workerPool.now + offset;
        timeout := Max(newTimeout, timeout);
        timerJob := true;
        workerPool.Schedule(transactionId, timeout);
        call := None;
      }
    }

    method Reschedule(clientId: nat, id: nat, offset: nat) returns (status: Error)
      requires Valid()
      modifies this`timeout, workerPool`jobs
      ensures Valid()
      ensures status == if !running || (id == transactionId && clientId in pending) then NoError else InvalidParameter
      ensures timeout == if status.NoError? && old(timeout) < workerPool.now + offset then workerPool.now + offset else old(timeout)
      ensures workerPool.jobs == if running && status.NoError? && old(timeout) < workerPool.now + offset
                                 then old(workerPool.jobs)[transactionId := timeout]
                                 else old(workerPool.jobs)
    {
      var newTimeout := workerPool.now + offset;
      status := NoError;
      if !running {
        timeout := Max(timeout, newTimeout);
        return;
      }
      if id != transactionId {
        status := InvalidParameter;
        return;
      }
      if clientId !in pending {
        status := InvalidParameter;
        return;
      }
      if newTimeout > timeout {
        timeout := newTimeout;
        workerPool.Reschedule(newTimeout, transactionId);
      }
    }

    /** The body of the timer job once its weak reference has been resolved. */
    method TimerExpired() returns (call: Option<HandlerCall>)
      requires Valid()
      modifies this`running
      ensures Valid() && View() == Stopped(old(View()))
      ensures call == if old(running) then Some(HandlerCall(handler.value, true, false)) else None
    {
      call := None;
      if running {
        running := false;
        call := Some(HandlerCall(handler.value, true, false));
      }
    }

    /** What the destructor does. */
    method Revoke() returns (call: Option<HandlerCall>)
      requires Valid()
      modifies this`running, this`timerJob, workerPool`jobs
      ensures Valid() && !running && !timerJob
      ensures call == if old(running) then Some(HandlerCall(handler.value, false, true)) else None
      ensures workerPool.jobs == if old(running) then old(workerPool.jobs) - {transactionId} else old(workerPool.jobs)
    {
      call := None;
      if running {
        running := false;
        if timerJob {
          workerPool.Revoke(transactionId);
          call := Some(HandlerCall(handler.value, false, true));
        }
      }
      timerJob := false;
    }
  }
}
