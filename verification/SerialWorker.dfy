/**
 The serial queue worker loop: one reusable service, created for the first job after an idle spell or a failure, and
 closed when idle, after a failure, or on the way out. The broker, the clock and the jobs are a script of turns, so a
 run over a script is a finite prefix of a possibly endless run.
 */
module SerialWorker {
  import opened Wrappers

  datatype Answer = NoJob | Job(id: nat) | BrokerRaises

  datatype JobOutcome = Completes | Fails | Interrupted

  /** What the environment does during one loop iteration, as far as it is asked. */
  datatype Turn = Turn(
    now: int, recoveryRaises: bool, claim: Answer, blockingClaim: Answer, createRaises: bool, outcome: JobOutcome,
    closeInterrupted: bool)

  /** What interferes with the `finally`: before the service is closed, or while it is. */
  datatype Farewell = Farewell(cutShort: bool, closeInterrupted: bool)

  datatype Event =
    | Requeued(at: int)
    | Created(service: nat)
    | Ran(job: nat, service: nat, outcome: JobOutcome)
    | CloseAttempt(service: nat, interrupted: bool)
    | Idle

  datatype Exit = StillRunning | Returned | Raised

  /** What a log has established: the open service, how many were created, and whether the open one must be closed. */
  datatype Monitor = Monitor(open: Option<nat>, created: nat, mustClose: bool)

  /** The lifecycle rules; None is a violation. */
  function Advance(m: Monitor, e: Event): Option<Monitor> {
    match e
    case Requeued(_) => if m.mustClose then None else Some(m)
    case Created(n) => if m.open == None && n == m.created then Some(Monitor(Some(n), m.created + 1, false)) else None
    case Ran(_, n, outcome) =>
      if m.open == Some(n) && !m.mustClose then Some(m.(mustClose := outcome != Completes)) else None
    case CloseAttempt(n, interrupted) =>
      if m.open != Some(n) then None
      else if interrupted then Some(m.(mustClose := true)) else Some(m.(open := None, mustClose := false))
    case Idle => if m.open == None then Some(m) else None
  }

  function Replay(log: seq<Event>): Option<Monitor> {
    if log == [] then Some(Monitor(None, 0, false))
    else
      var before := Replay(log[..|log| - 1]);
      if before == None then None else Advance(before.value, log[|log| - 1])
  }

  lemma ReplaySnoc(log: seq<Event>, e: Event)
    ensures Replay(log + [e]) == if Replay(log) == None then None else Advance(Replay(log).value, e)
  {
    assert (log + [e])[..|log|] == log;
  }

  function JobsRun(log: seq<Event>): seq<nat> {
    if log == [] then []
    else
      var last := log[|log| - 1];
      JobsRun(log[..|log| - 1]) + if last.Ran? then [last.job] else []
  }

  lemma JobsRunSnoc(log: seq<Event>, e: Event)
    ensures JobsRun(log + [e]) == JobsRun(log) + if e.Ran? then [e.job] else []
  {
    assert (log + [e])[..|log|] == log;
  }

  /** The job a turn hands out: from the plain claim, or else from the blocking one. */
  function ClaimOf(t: Turn): Option<nat> {
    if t.claim.Job? then Some(t.claim.id)
    else if t.claim.NoJob? && t.blockingClaim.Job? then Some(t.blockingClaim.id)
    else None
  }

  /** What makes a turn raise out of the loop: recovery, a claim, creating a service, an interrupted job or close. */
  predicate Leaves(t: Turn, head: Head) {
    (t.now >= head.nextRecoveryAt && t.recoveryRaises) || ClaimRaises(t) ||
    (ClaimOf(t) == None && head.open && t.closeInterrupted) ||
    (ClaimOf(t).Some? &&
      ((!head.open && t.createRaises) || t.outcome == Interrupted || (t.outcome == Fails && t.closeInterrupted)))
  }

  predicate ClaimRaises(t: Turn) {
    t.claim.BrokerRaises? || (t.claim.NoJob? && t.blockingClaim.BrokerRaises?)
  }

  /** The loop head: whether a service is open, and when recovery is due. */
  datatype Head = Head(open: bool, nextRecoveryAt: int)

  /** The loop head after a turn that goes round again: a service stays open exactly after a completed job. */
  function NextHead(t: Turn, head: Head, interval: int): Head {
    Head(ClaimOf(t).Some? && t.outcome == Completes,
         if t.now >= head.nextRecoveryAt then t.now + interval else head.nextRecoveryAt)
  }

  function HeadAfter(turns: seq<Turn>, head: Head, interval: int): Head {
    if turns == [] then head
    else NextHead(turns[|turns| - 1], HeadAfter(turns[..|turns| - 1], head, interval), interval)
  }

  /** Whether a turn that leaves the loop leaves a service open for the `finally`. */
  predicate OpenOnLeaving(t: Turn, head: Head) {
    if (t.now >= head.nextRecoveryAt && t.recoveryRaises) || ClaimRaises(t) then head.open
    else if ClaimOf(t) == None then head.open && t.closeInterrupted
    else head.open || !t.createRaises
  }

  /** Whether a turn hands a job to a service at all. */
  predicate RunsJob(t: Turn, head: Head) {
    ClaimOf(t).Some? && !(t.now >= head.nextRecoveryAt && t.recoveryRaises) && (head.open || !t.createRaises)
  }

  /** The turn is the last: it raises out of the loop, or finds no job in once mode. */
  predicate Ends(t: Turn, head: Head, once: bool) {
    Leaves(t, head) || (once && ClaimOf(t) == None)
  }

  function JobsIn(turns: seq<Turn>): seq<nat> {
    if turns == [] then []
    else
      var claim := ClaimOf(turns[|turns| - 1]);
      JobsIn(turns[..|turns| - 1]) + if claim.Some? then [claim.value] else []
  }

  lemma StaysRuns(t: Turn, head: Head)
    ensures !Leaves(t, head) ==> (RunsJob(t, head) <==> ClaimOf(t).Some?)
  {
  }

  /** One more turn of a script. */
  lemma TurnSnoc(turns: seq<Turn>, n: nat, head: Head, interval: int)
    requires n < |turns|
    ensures JobsIn(turns[..n + 1]) ==
            JobsIn(turns[..n]) + if ClaimOf(turns[n]).Some? then [ClaimOf(turns[n]).value] else []
    ensures HeadAfter(turns[..n + 1], head, interval) ==
            NextHead(turns[n], HeadAfter(turns[..n], head, interval), interval)
  {
    assert turns[..n + 1][..n] == turns[..n];
  }

  lemma NoTurns(turns: seq<Turn>, head: Head, interval: int)
    ensures JobsRun([]) == [] && JobsIn(turns[..0]) == [] && HeadAfter(turns[..0], head, interval) == head
  {
  }

  lemma {:induction false} AllClaimed(turns: seq<Turn>)
    requires forall t :: t in turns ==> ClaimOf(t).Some?
    ensures |JobsIn(turns)| == |turns|
  {
    if turns != [] { AllClaimed(turns[..|turns| - 1]); }
  }

  /** The times recovery ran, oldest first. */
  function RecoveryTimes(log: seq<Event>): seq<int> {
    if log == [] then []
    else
      var last := log[|log| - 1];
      RecoveryTimes(log[..|log| - 1]) + if last.Requeued? then [last.at] else []
  }

  lemma RecoverySnoc(log: seq<Event>, e: Event)
    ensures RecoveryTimes(log + [e]) == RecoveryTimes(log) + if e.Requeued? then [e.at] else []
  {
    assert (log + [e])[..|log|] == log;
  }

  ghost predicate Spaced(times: seq<int>, interval: int) {
    forall i :: 0 < i < |times| ==> times[i] >= times[i - 1] + interval
  }

  class Worker {
    var service: Option<nat>
    var created: nat
    var nextRecoveryAt: int
    var log: seq<Event>
    const interval: int

    constructor (interval: int)
      ensures this.interval == interval && service == None && nextRecoveryAt == 0 && log == [] && Valid()
    {
      this.interval := interval;
      service, created, nextRecoveryAt, log := None, 0, 0, [];
    }

    /** The variable mirrors the log: it is null exactly when no service is open. */
    ghost predicate Valid()
      reads this
    {
      Replay(log) == Some(Monitor(service, created, false)) && RecoveryOnTime()
    }

    ghost predicate RecoveryOnTime()
      reads this
    {
      var times := RecoveryTimes(log);
      Spaced(times, interval) && (times != [] ==> nextRecoveryAt == times[|times| - 1] + interval)
    }

    ghost function HeadNow(): Head
      reads this
    {
      Head(service.Some?, nextRecoveryAt)
    }

    method Record(e: Event)
      modifies this`log
      ensures log == old(log) + [e]
      ensures Replay(log) == if Replay(old(log)) == None then None else Advance(Replay(old(log)).value, e)
      ensures JobsRun(log) == JobsRun(old(log)) + if e.Ran? then [e.job] else []
      ensures RecoveryTimes(log) == RecoveryTimes(old(log)) + if e.Requeued? then [e.at] else []
      ensures !e.Requeued? && old(RecoveryOnTime()) ==> RecoveryOnTime()
    {
      hide Replay, JobsRun, RecoveryTimes;
      ReplaySnoc(log, e);
      JobsRunSnoc(log, e);
      RecoverySnoc(log, e);
      log := log + [e];
    }

    /** Requeue expired jobs when it is time to. */
    method Recover(t: Turn) returns (raised: bool)
      requires Valid()
      modifies this`log, this`nextRecoveryAt
      ensures Valid() && JobsRun(log) == JobsRun(old(log))
      ensures raised <==> t.now >= old(nextRecoveryAt) && t.recoveryRaises
      ensures log == if t.now >= old(nextRecoveryAt) && !raised then old(log) + [Requeued(t.now)] else old(log)
      ensures !raised ==>
              nextRecoveryAt == if t.now >= old(nextRecoveryAt) then t.now + interval else old(nextRecoveryAt)
    {
      hide Replay, JobsRun, RecoveryTimes;
      if t.now >= nextRecoveryAt {
        if t.recoveryRaises {
          return true;
        }
        Record(Requeued(t.now));
        nextRecoveryAt := t.now + interval;
      }
      return false;
    }

    /** `_close_refresh_service`, then forget the service. An exception from close is swallowed, an interruption is
        not. */
    method CloseService(interrupted: bool, ghost mustClose: bool) returns (raised: bool)
      requires Replay(log) == Some(Monitor(service, created, mustClose)) && RecoveryOnTime()
      requires mustClose ==> service.Some?
      modifies this`service, this`log
      ensures raised <==> old(service).Some? && interrupted
      ensures service == if raised then old(service) else None
      ensures Replay(log) == Some(Monitor(service, created, raised)) && RecoveryOnTime()
      ensures log == if old(service).Some? then old(log) + [CloseAttempt(old(service).value, interrupted)] else old(log)
      ensures JobsRun(log) == JobsRun(old(log))
    {
      hide Replay, JobsRun, RecoveryTimes;
      if service.Some? {
        Record(CloseAttempt(service.value, interrupted));
        if interrupted {
          return true;
        }
        service := None;
      }
      return false;
    }

    /** Run one claimed job on the open service, creating one if there is none. */
    method Serve(job: nat, t: Turn) returns (exit: Option<Exit>, ghost mustClose: bool)
      requires Valid()
      modifies this`service, this`created, this`log
      ensures Replay(log) == Some(Monitor(service, created, mustClose)) && RecoveryOnTime()
      ensures mustClose ==> service.Some?
      ensures exit == None || exit == Some(Raised)
      ensures exit == Some(Raised) <==>
              (old(service) == None && t.createRaises) || t.outcome == Interrupted ||
              (t.outcome == Fails && t.closeInterrupted)
      ensures exit == None ==> !mustClose
      ensures JobsRun(log) == JobsRun(old(log)) + if old(service) == None && t.createRaises then [] else [job]
      ensures service.Some? <==> if exit == None then t.outcome == Completes else old(service).Some? || !t.createRaises
    {
      hide Replay, JobsRun, RecoveryTimes;
      if service == None {
        if t.createRaises {
          return Some(Raised), false;
        }
        Record(Created(created));
        service, created := Some(created), created + 1;
      }
      Record(Ran(job, service.value, t.outcome));
      if t.outcome == Interrupted {
        return Some(Raised), true;
      }
      if t.outcome == Fails {
        var raised := CloseService(t.closeInterrupted, true);
        if raised {
          return Some(Raised), true;
        }
      }
      return None, false;
    }

    /** The body of the loop; None means go round again. */
    method TakeTurn(t: Turn, once: bool) returns (exit: Option<Exit>, ghost mustClose: bool)
      requires Valid()
      modifies this
      ensures Replay(log) == Some(Monitor(service, created, mustClose)) && RecoveryOnTime()
      ensures mustClose ==> service.Some?
      ensures exit == None ==> !mustClose
      ensures exit == None || exit == Some(Returned) || exit == Some(Raised)
      ensures exit == Some(Raised) <==> Leaves(t, old(HeadNow()))
      ensures exit == Some(Returned) <==> once && ClaimOf(t) == None && !Leaves(t, old(HeadNow()))
      ensures exit == None ==> HeadNow() == NextHead(t, old(HeadNow()), interval)
      ensures exit.Some? ==> (service.Some? <==> OpenOnLeaving(t, old(HeadNow())) && exit == Some(Raised))
      ensures JobsRun(log) == JobsRun(old(log)) + if RunsJob(t, old(HeadNow())) then [ClaimOf(t).value] else []
    {
      hide Replay, JobsRun, RecoveryTimes;
      var raised := Recover(t);
      if raised {
        return Some(Raised), false;
      }
      var answer := t.claim;
      if answer == NoJob {
        answer := t.blockingClaim;
      }
      if answer == BrokerRaises {
        return Some(Raised), false;
      }
      if answer == NoJob {
        raised := CloseService(t.closeInterrupted, false);
        if raised {
          return Some(Raised), true;
        }
        Record(Idle);
        return if once then Some(Returned) else None, false;
      }
      exit, mustClose := Serve(answer.id, t);
    }

    /**
     The worker over a script of turns, with the steps of its `finally` when it leaves the loop: join the heartbeat
     thread, clear the heartbeat at the broker, then close the service. A service is left open exactly when one was open
     on leaving and the `finally` is cut short before closing it, or interrupted while closing it.
     */
    method Run(turns: seq<Turn>, once: bool, bye: Farewell) returns (exit: Exit, used: nat)
      requires Valid() && log == []
      modifies this
      ensures Replay(log).Some? && Replay(log).value.open == service && RecoveryOnTime() && used <= |turns|
      ensures exit.StillRunning? ==> Valid() && used == |turns| && JobsRun(log) == JobsIn(turns)
      ensures exit != StillRunning ==> used > 0
      ensures forall k :: 0 <= k < (if exit.StillRunning? then used else used - 1) ==>
                !Ends(turns[k], HeadAfter(turns[..k], old(HeadNow()), interval), once)
      ensures exit != StillRunning ==>
                var (last, head) := (turns[used - 1], HeadAfter(turns[..used - 1], old(HeadNow()), interval));
                && Ends(last, head, once)
                && (service.Some? <==>
                    Leaves(last, head) && OpenOnLeaving(last, head) && (bye.cutShort || bye.closeInterrupted))
                && (exit.Returned? <==> !Leaves(last, head) && !bye.cutShort)
                && JobsRun(log) == JobsIn(turns[..used - 1]) + if RunsJob(last, head) then [ClaimOf(last).value] else []
      ensures once && exit.StillRunning? ==> |JobsIn(turns)| == |turns|
    {
      hide Replay, RecoveryTimes, JobsRun, JobsIn, HeadAfter, Leaves, OpenOnLeaving, NextHead, RunsJob, ClaimOf;
      NoTurns(turns, HeadNow(), interval);
      used := 0;
      while used < |turns|
        invariant Valid() && used <= |turns|
        invariant JobsRun(log) == JobsIn(turns[..used])
        invariant HeadNow() == HeadAfter(turns[..used], old(HeadNow()), interval)
        invariant forall k :: 0 <= k < used ==> !Ends(turns[k], HeadAfter(turns[..k], old(HeadNow()), interval), once)
        invariant once ==> forall t :: t in turns[..used] ==> ClaimOf(t).Some?
      {
        var t := turns[used];
        assert turns[..used + 1] == turns[..used] + [t];
        TurnSnoc(turns, used, old(HeadNow()), interval);
        StaysRuns(t, HeadNow());
        var left, mustClose := TakeTurn(t, once);
        used := used + 1;
        if left.Some? {
          if bye.cutShort {
            return Raised, used;
          }
          var raised := CloseService(bye.closeInterrupted, mustClose);
          return if raised then Raised else left.value, used;
        }
      }
      assert turns[..|turns|] == turns;
      if once { AllClaimed(turns); }
      return StillRunning, used;
    }
  }

  /** A run that leaves a service open: its job is interrupted, and so is the joining of the heartbeat thread. */
  method LeaveServiceOpen() returns (w: Worker, exit: Exit)
    ensures exit == Raised && w.service.Some? && JobsRun(w.log) == [7]
  {
    w := new Worker(60);
    var t := Turn(0, false, Job(7), NoJob, false, Interrupted, false);
    var used: nat;
    assert [t][..0] == [];
    exit, used := w.Run([t], false, Farewell(true, false));
  }

  // ----- what a rule-abiding log means -----

  function Count(log: seq<Event>, e: Event): nat {
    multiset(log)[e]
  }

  lemma CountSnoc(log: seq<Event>, e: Event)
    requires log != []
    ensures Count(log, e) == Count(log[..|log| - 1], e) + if log[|log| - 1] == e then 1 else 0
  {
    assert log == log[..|log| - 1] + [log[|log| - 1]];
  }

  /** Every service is created once, and gets one uninterrupted close attempt unless it is the one still open. */
  lemma {:induction false} EachServiceClosedOnce(log: seq<Event>, n: nat)
    requires Replay(log).Some?
    ensures Count(log, Created(n)) == if n < Replay(log).value.created then 1 else 0
    ensures Count(log, CloseAttempt(n, false)) ==
            Count(log, Created(n)) - if Replay(log).value.open == Some(n) then 1 else 0
    ensures Replay(log).value.open.Some? ==> Replay(log).value.open.value < Replay(log).value.created
  {
    if log != [] {
      EachServiceClosedOnce(log[..|log| - 1], n);
      CountSnoc(log, Created(n));
      CountSnoc(log, CloseAttempt(n, false));
      var open := Replay(log[..|log| - 1]).value.open;
      if open.Some? { EachServiceClosedOnce(log[..|log| - 1], open.value); }
    }
  }

  lemma {:induction false} ReplayPrefix(log: seq<Event>, k: nat)
    requires Replay(log).Some? && k <= |log|
    ensures Replay(log[..k]).Some?
    decreases |log|
  {
    if k == |log| {
      assert log[..k] == log;
    } else {
      assert log[..|log| - 1][..k] == log[..k];
      ReplayPrefix(log[..|log| - 1], k);
    }
  }

  /** A job only ever runs on a service that has been created and has not yet been closed. */
  lemma JobsRunOnOpenServices(log: seq<Event>, k: nat)
    requires Replay(log).Some? && k < |log| && log[k].Ran?
    ensures Count(log[..k], Created(log[k].service)) == 1 && Count(log[..k], CloseAttempt(log[k].service, false)) == 0
  {
    ReplayPrefix(log, k + 1);
    assert log[..k + 1] == log[..k] + [log[k]];
    ReplaySnoc(log[..k], log[k]);
    hide Replay;
    EachServiceClosedOnce(log[..k], log[k].service);
  }

  /** With no service open, every service ever created has had exactly one uninterrupted close attempt. */
  lemma AllClosedOnExit(log: seq<Event>, n: nat)
    requires Replay(log).Some? && Replay(log).value.open == None
    ensures Count(log, CloseAttempt(n, false)) == Count(log, Created(n)) ==
            if n < Replay(log).value.created then 1 else 0
  {
    EachServiceClosedOnce(log, n);
  }

  /** Any two recoveries are at least the interval apart. */
  lemma {:induction false} RecoveriesAreApart(times: seq<int>, interval: int, i: nat, j: nat)
    requires Spaced(times, interval) && interval >= 0 && i < j < |times|
    ensures times[j] >= times[i] + interval
  {
    if i + 1 < j { RecoveriesAreApart(times, interval, i, j - 1); }
  }
}
