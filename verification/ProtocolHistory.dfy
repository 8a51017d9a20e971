/**
  What a log says, independently of how the machine keeps its books.  `Audit` reads a log event
  by event into a ledger: one entry for each transition that was opened, the changes that were
  announced, and the balance of the lock and of the reference count.
 */
module ProtocolHistory {
  import opened PowerTypes
  import opened PowerProtocol

  datatype Entry = Entry(
    id: nat,
    from: PowerState,
    to: PowerState,
    sync: bool,
    awaited: set<nat>,     // the clients registered when it was opened
    answered: set<nat>,    // those that acknowledged it or were removed
    deadline: nat,         // the latest instant any event let it wait for
    schedules: nat,        // how often the wait for its clients was started or skipped
    waitsFrom: Option<nat>,  // when that wait began
    calls: nat,            // calls of its completion handler
    timeouts: nat,         // those made with the timed-out flag
    revocations: nat,      // those made with the revoked flag
    failures: nat,         // attempts that the platform refused or was not asked to make
    successes: nat)        // attempts that the platform accepted

  datatype Ledger = Ledger(
    entries: seq<Entry>,
    changes: seq<(PowerState, PowerState)>,
    locks: int,
    references: int)

  function Later(a: nat, b: nat): nat {
    if a < b then b else a
  }

  /** How an event about a transition changes its entry. */
  function Amended(x: Entry, e: Event): Entry {
    match e
    case Immediate(_, _) => x.(schedules := x.schedules + 1)
    case Waiting(_, at, offset) =>
      x.(schedules := x.schedules + 1, waitsFrom := Some(at), deadline := Later(x.deadline, at + offset))
    case Delayed(_, until) => x.(deadline := Later(x.deadline, until))
    case Acknowledged(_, client) => x.(answered := x.answered + {client})
    case Called(_, timedOut, revoked, _) =>
      x.(calls := x.calls + 1,
         timeouts := x.timeouts + (if timedOut then 1 else 0),
         revocations := x.revocations + (if revoked then 1 else 0))
    case Refused(_, _) => x.(failures := x.failures + 1)
    case PlatformFailed(_, _, _) => x.(failures := x.failures + 1)
    case Applied(_, _, _) => x.(successes := x.successes + 1)
    case _ => x
  }

  /** The transition an event is about, if it changes an entry. */
  function Subject(e: Event): nat {
    match e
    case Immediate(id, _) => id
    case Waiting(id, _, _) => id
    case Delayed(id, _) => id
    case Acknowledged(id, _) => id
    case Called(id, _, _, _) => id
    case Refused(id, _) => id
    case PlatformFailed(id, _, _) => id
    case Applied(id, _, _) => id
    case _ => 0
  }

  function Record(l: Ledger, e: Event): Ledger {
    match e
    case Locked => l.(locks := l.locks + 1)
    case Unlocked => l.(locks := l.locks - 1)
    case Retained => l.(references := l.references + 1)
    case Released => l.(references := l.references - 1)
    case Changed(from, to) => l.(changes := l.changes + [(from, to)])
    case Opened(id, from, to, sync, awaited, at) =>
      l.(entries := l.entries + [Entry(id, from, to, sync, awaited, {}, at, 0, None, 0, 0, 0, 0, 0)])
    case _ =>
      var id := Subject(e);
      if 1 <= id <= |l.entries| then l.(entries := l.entries[id - 1 := Amended(l.entries[id - 1], e)]) else l
  }

  function Audit(log: Log): Ledger {
    match log
    case Start => Ledger([], [], 0, 0)
    case After(earlier, e) => Record(Audit(earlier), e)
  }

  /** The event is somewhere in the log. */
  predicate Happened(log: Log, e: Event) {
    log.After? && (log.event == e || Happened(log.earlier, e))
  }

  /**
    Ids are issued in order, every event about a transition comes after its opening, and no
    timer job outlived its controller.
   */
  predicate Orderly(log: Log) {
    match log
    case Start => true
    case After(earlier, e) =>
      && Orderly(earlier)
      && !e.OrphanTimeout?
      && (e.Opened? ==> e.id == |Audit(earlier).entries| + 1)
      && Subject(e) <= |Audit(earlier).entries|
  }

  /** The instant up to which an event lets transition `id` wait. */
  function Allows(e: Event, id: nat): nat {
    match e
    case Opened(i, _, _, _, _, at) => if i == id then at else 0
    case Waiting(i, at, offset) => if i == id then at + offset else 0
    case Delayed(i, until) => if i == id then until else 0
    case _ => 0
  }

  /** The deadline of an entry is the maximum, over the whole log, of what its events allow. */
  lemma {:induction false} DeadlineIsMaximum(log: Log, id: nat)
    requires Orderly(log) && 1 <= id <= |Audit(log).entries|
    ensures forall e :: Happened(log, e) ==> Allows(e, id) <= Audit(log).entries[id - 1].deadline
    ensures exists e :: Happened(log, e) && Allows(e, id) == Audit(log).entries[id - 1].deadline
  {
    if log.event.Opened? && log.event.id == id {
      NothingAllowedYet(log.earlier, id);
      assert Happened(log, log.event);
    } else {
      DeadlineIsMaximum(log.earlier, id);
      var e :| Happened(log.earlier, e) && Allows(e, id) == Audit(log.earlier).entries[id - 1].deadline;
      assert Happened(log, e) && Happened(log, log.event);
    }
  }

  lemma {:induction false} NothingAllowedYet(log: Log, id: nat)
    requires Orderly(log) && id > |Audit(log).entries|
    ensures forall e :: Happened(log, e) ==> Allows(e, id) == 0
  {
    if log.After? {
      NothingAllowedYet(log.earlier, id);
    }
  }

  /** A client has answered a transition exactly when the log says so. */
  lemma {:induction false} AnsweredMeansAcknowledged(log: Log, id: nat, client: nat)
    requires Orderly(log) && 1 <= id <= |Audit(log).entries|
    ensures client in Audit(log).entries[id - 1].answered <==> Happened(log, Acknowledged(id, client))
  {
    if log.event.Opened? && log.event.id == id {
      NothingAcknowledgedYet(log.earlier, id, client);
    } else {
      AnsweredMeansAcknowledged(log.earlier, id, client);
    }
  }

  lemma {:induction false} NothingAcknowledgedYet(log: Log, id: nat, client: nat)
    requires Orderly(log) && id > |Audit(log).entries|
    ensures !Happened(log, Acknowledged(id, client))
  {
    if log.After? {
      NothingAcknowledgedYet(log.earlier, id, client);
    }
  }
}
