/**
 The concurrent queue worker loop: claims fill a bounded set of active jobs, and finished futures are popped from it.
 The broker's answers, the clock and the sets of finished futures come from a script, so a run over a script is a
 finite prefix of a possibly endless run. Futures are numbered in order of submission.
 */
module ConcurrentWorker {
  import opened Wrappers

  datatype Answer = NoJob | Job(id: nat) | BrokerRaises

  /** One iteration of the outer loop: the clock, and which futures `wait` would report. */
  datatype Round = Round(now: int, recoveryRaises: bool, done: set<nat>)

  datatype Event =
    | Requeued(at: int)
    | BlockingClaim
    | Submitted(future: nat, job: nat)
    | Popped(future: nat)
    | Idle

  datatype Exit = StillRunning | Returned | Raised

  /** The loop head: answers taken, active futures, how many were submitted, and when recovery is due. */
  datatype Head = Head(next: nat, active: set<nat>, submitted: nat, nextRecoveryAt: int)

  /** Active futures, finished futures, and how many were submitted. */
  datatype Monitor = Monitor(active: set<nat>, finished: set<nat>, submitted: nat)

  /** The safety rules; None is a violation. */
  function Advance(budget: nat, m: Monitor, e: Event): Option<Monitor> {
    match e
    case Requeued(_) => Some(m)
    case BlockingClaim => if m.active == {} then Some(m) else None
    case Submitted(f, _) =>
      if f == m.submitted && |m.active| < budget then Some(Monitor(m.active + {f}, m.finished, m.submitted + 1))
      else None
    case Popped(f) => if f in m.active then Some(Monitor(m.active - {f}, m.finished + {f}, m.submitted)) else None
    case Idle => if m.active == {} then Some(m) else None
  }

  function Replay(budget: nat, log: seq<Event>): Option<Monitor> {
    if log == [] then Some(Monitor({}, {}, 0))
    else
      var before := Replay(budget, log[..|log| - 1]);
      if before == None then None else Advance(budget, before.value, log[|log| - 1])
  }

  function JobsSubmitted(log: seq<Event>): seq<nat> {
    if log == [] then []
    else
      var last := log[|log| - 1];
      JobsSubmitted(log[..|log| - 1]) + if last.Submitted? then [last.job] else []
  }

  function JobsIn(answers: seq<Answer>): seq<nat> {
    if answers == [] then []
    else
      var last := answers[|answers| - 1];
      JobsIn(answers[..|answers| - 1]) + if last.Job? then [last.id] else []
  }

  lemma JobsInStep(answers: seq<Answer>, n: nat)
    requires n < |answers|
    ensures JobsIn(answers[..n + 1]) == JobsIn(answers[..n]) + if answers[n].Job? then [answers[n].id] else []
  {
    assert answers[..n + 1][..n] == answers[..n];
  }

  function RecoveryTimes(log: seq<Event>): seq<int> {
    if log == [] then []
    else
      var last := log[|log| - 1];
      RecoveryTimes(log[..|log| - 1]) + if last.Requeued? then [last.at] else []
  }

  lemma Snoc(budget: nat, log: seq<Event>, e: Event)
    ensures Replay(budget, log + [e]) ==
            if Replay(budget, log) == None then None else Advance(budget, Replay(budget, log).value, e)
    ensures JobsSubmitted(log + [e]) == JobsSubmitted(log) + if e.Submitted? then [e.job] else []
    ensures RecoveryTimes(log + [e]) == RecoveryTimes(log) + if e.Requeued? then [e.at] else []
  {
    assert (log + [e])[..|log|] == log;
  }

  ghost predicate Spaced(times: seq<int>, interval: int) {
    forall i :: 0 < i < |times| ==> times[i] >= times[i - 1] + interval
  }

  class Worker {
    const budget: nat
    const interval: int
    const answers: seq<Answer>
    var next: nat                   // answers taken from the broker
    var active: map<nat, nat>       // future -> job
    var submitted: nat
    ghost var finished: set<nat>
    var claimedOnce: bool
    var nextRecoveryAt: int
    var log: seq<Event>

    constructor (budget: nat, interval: int, answers: seq<Answer>)
      requires budget > 1
      ensures this.budget == budget && this.interval == interval && this.answers == answers
      ensures Valid() && log == [] && next == 0 && active == map[] && submitted == 0
    {
      this.budget, this.interval, this.answers := budget, interval, answers;
      next, active, submitted, finished, claimedOnce, nextRecoveryAt, log := 0, map[], 0, {}, false, 0, [];
      new;
      assert active.Keys == {} && answers[..0] == [];
    }

    /** The loop-head invariant: the state is what the log established, and claims are accounted for. */
    ghost predicate Valid()
      reads this
    {
      budget > 1 && next <= |answers| && Replay(budget, log) == Some(Monitor(active.Keys, finished, submitted)) &&
      JobsSubmitted(log) == JobsIn(answers[..next]) && claimedOnce == (submitted > 0) && RecoveryOnTime()
    }

    ghost predicate RecoveryOnTime()
      reads this
    {
      var times := RecoveryTimes(log);
      Spaced(times, interval) && (times != [] ==> nextRecoveryAt == times[|times| - 1] + interval)
    }

    ghost function HeadNow(): Head
      reads this
    {
      Head(next, active.Keys, submitted, nextRecoveryAt)
    }

    function WithJob(h: Head): Head {
      Head(h.next + 1, h.active + {h.submitted}, h.submitted + 1, h.nextRecoveryAt)
    }

    /** Claiming, one answer a step; an empty answer is asked again, blocking, when nothing is active. */
    function Filled(h: Head, blocking: bool): (Option<Exit>, Head)
      decreases |answers| - h.next
    {
      if |h.active| >= budget then (None, h)
      else if h.next >= |answers| then (Some(StillRunning), h)
      else
        match answers[h.next]
        case Job(_) => Filled(WithJob(h), false)
        case BrokerRaises => (Some(Raised), h.(next := h.next + 1))
        case NoJob =>
          if h.active == {} && !blocking then Filled(h.(next := h.next + 1), true) else (None, h.(next := h.next + 1))
    }

    /** One round: how it ends the run, if it does, and the loop head after it. */
    function RoundFrom(r: Round, h: Head, once: bool): (Option<Exit>, Head) {
      if r.now >= h.nextRecoveryAt && r.recoveryRaises then (Some(Raised), h)
      else
        var due := if r.now >= h.nextRecoveryAt then r.now + interval else h.nextRecoveryAt;
        var (left, filled) := Filled(h.(nextRecoveryAt := due), false);
        if left.Some? then (left, filled)
        else
          var after := filled.(active := filled.active - r.done);
          (if once && after.active == {} then Some(Returned) else None, after)
    }

    function HeadAfter(rounds: seq<Round>, h: Head, once: bool): Head {
      if rounds == [] then h
      else RoundFrom(rounds[|rounds| - 1], HeadAfter(rounds[..|rounds| - 1], h, once), once).1
    }

    method Record(e: Event)
      modifies this`log
      ensures log == old(log) + [e]
      ensures Replay(budget, log) ==
              if Replay(budget, old(log)) == None then None else Advance(budget, Replay(budget, old(log)).value, e)
      ensures JobsSubmitted(log) == JobsSubmitted(old(log)) + if e.Submitted? then [e.job] else []
      ensures RecoveryTimes(log) == RecoveryTimes(old(log)) + if e.Requeued? then [e.at] else []
      ensures !e.Requeued? && old(RecoveryOnTime()) ==> RecoveryOnTime()
    {
      hide Replay, JobsSubmitted, RecoveryTimes;
      Snoc(budget, log, e);
      log := log + [e];
    }

    method Recover(r: Round) returns (raised: bool)
      requires Valid()
      modifies this`log, this`nextRecoveryAt
      ensures Valid()
      ensures raised <==> r.now >= old(nextRecoveryAt) && r.recoveryRaises
      ensures nextRecoveryAt ==
              if r.now >= old(nextRecoveryAt) && !raised then r.now + interval else old(nextRecoveryAt)
      ensures log == if r.now >= old(nextRecoveryAt) && !raised then old(log) + [Requeued(r.now)] else old(log)
    {
      hide Replay, JobsSubmitted, RecoveryTimes, JobsIn;
      if r.now >= nextRecoveryAt {
        if r.recoveryRaises {
          return true;
        }
        Record(Requeued(r.now));
        nextRecoveryAt := r.now + interval;
      }
      return false;
    }

    /** A blocking claim or an idle pause, with nothing active. */
    method RecordIdle(e: Event)
      requires Valid() && active == map[] && (e == BlockingClaim || e == Idle)
      modifies this`log
      ensures Valid() && log == old(log) + [e]
    {
      hide Replay, JobsSubmitted, RecoveryTimes, JobsIn;
      assert active.Keys == {};
      Record(e);
    }

    lemma ValidFacts()
      requires Valid()
      ensures budget > 1 && next <= |answers| && (active != map[] ==> claimedOnce)
      ensures |active| == |active.Keys|
      ensures active == map[] <==> active.Keys == {}
      ensures active == map[] <==> |active| == 0
      ensures forall f: nat :: f in active || f in finished <==> f < submitted
    {
      hide Replay, JobsSubmitted, RecoveryTimes, JobsIn;
      ActiveAndFinishedPartition(budget, log);
      if active != map[] { var future :| future in active.Keys; }
    }

    /** The broker's next answer that is not a job; a job is taken by Submit. */
    method Skip()
      requires Valid() && next < |answers| && !answers[next].Job?
      modifies this`next
      ensures Valid() && HeadNow() == old(HeadNow()).(next := old(next) + 1)
    {
      hide Replay, JobsSubmitted, RecoveryTimes, JobsIn;
      JobsInStep(answers, next);
      next := next + 1;
    }

    method Submit()
      requires Valid() && next < |answers| && answers[next].Job? && |active| < budget
      modifies this
      ensures Valid() && HeadNow() == WithJob(old(HeadNow()))
    {
      hide Replay, JobsSubmitted, RecoveryTimes, JobsIn;
      JobsInStep(answers, next);
      assert |active| == |active.Keys|;
      Record(Submitted(submitted, answers[next].id));
      active := active[submitted := answers[next].id];
      assert active.Keys == old(active.Keys) + {submitted};
      submitted := submitted + 1;
      claimedOnce := true;
      next := next + 1;
    }

    /** An empty answer with nothing active is followed by a blocking claim. */
    method ClaimBlocking()
      requires Valid() && next < |answers| && answers[next].NoJob? && active == map[]
      modifies this`next, this`log
      ensures Valid() && HeadNow() == old(HeadNow()).(next := old(next) + 1) && log == old(log) + [BlockingClaim]
      ensures Filled(HeadNow(), true) == Filled(old(HeadNow()), false) && next <= |answers|
      ensures next == |answers| ==> Filled(HeadNow(), true) == (Some(StillRunning), HeadNow())
    {
      hide Valid;
      ValidFacts();
      Skip();
      RecordIdle(BlockingClaim);
      ValidFacts();
    }

    lemma FilledEnds(h: Head, blocking: bool)
      ensures |h.active| >= budget ==> Filled(h, blocking) == (None, h)
      ensures |h.active| < budget && h.next >= |answers| ==> Filled(h, blocking) == (Some(StillRunning), h)
    {
    }

    lemma FilledStep(h: Head, blocking: bool)
      requires |h.active| < budget && h.next < |answers|
      ensures answers[h.next].Job? ==> Filled(h, blocking) == Filled(WithJob(h), false)
      ensures answers[h.next].BrokerRaises? ==> Filled(h, blocking) == (Some(Raised), h.(next := h.next + 1))
      ensures answers[h.next].NoJob? && (blocking || h.active != {}) ==>
                Filled(h, blocking) == (None, h.(next := h.next + 1))
    {
    }

    /**
     The inner loop: claim while there is room. A blocking claim is made only when nothing is active. The script may
     run out, which cuts the run short.
     */
    method Fill() returns (left: Option<Exit>)
      requires Valid()
      modifies this
      ensures Valid()
      ensures (left, HeadNow()) == Filled(old(HeadNow()), false)
      ensures left != Some(Returned)
      ensures left == Some(StillRunning) ==> next == |answers|
      ensures left == Some(Raised) ==> next > 0 && answers[next - 1].BrokerRaises?
      ensures left == None ==> |active| >= budget || (next > 0 && answers[next - 1].NoJob?)
      ensures left == None && active == map[] ==> log != [] && log[|log| - 1] == BlockingClaim
    {
      hide Valid, Filled;
      while |active| < budget
        invariant Valid()
        invariant Filled(HeadNow(), false) == Filled(old(HeadNow()), false)
        decreases |answers| - next
      {
        ValidFacts();
        FilledEnds(HeadNow(), false);
        if next == |answers| {
          return Some(StillRunning);
        }
        var blocking := answers[next].NoJob? && |active| == 0;
        if blocking {
          ClaimBlocking();
          if next == |answers| {
            return Some(StillRunning);
          }
        }
        FilledStep(HeadNow(), blocking);
        if answers[next].BrokerRaises? {
          Skip();
          return Some(Raised);
        }
        if answers[next].NoJob? {
          Skip();
          return None;
        }
        Submit();
      }
      ValidFacts();
      FilledEnds(HeadNow(), false);
      return None;
    }

    /** Pop the futures `wait` reports, one by one; their failures are only logged. */
    method PopDone(done: set<nat>)
      requires Valid() && done <= active.Keys
      modifies this`active, this`finished, this`log
      ensures Valid() && active.Keys == old(active.Keys) - done && finished == old(finished) + done
    {
      hide Replay, JobsSubmitted, RecoveryTimes, JobsIn;
      var rest := done;
      while rest != {}
        invariant Valid() && rest <= done && rest <= active.Keys
        invariant active.Keys == old(active.Keys) - (done - rest) && finished == old(finished) + (done - rest)
        decreases rest
      {
        var future :| future in rest;
        Record(Popped(future));
        active := active - {future};
        finished := finished + {future};
        rest := rest - {future};
      }
    }

    /** The rest of a round: an idle pause, or popping what has finished. */
    method Settle(done: set<nat>, once: bool) returns (exit: Option<Exit>)
      requires Valid()
      modifies this
      ensures Valid() && HeadNow() == old(HeadNow()).(active := old(active.Keys) - done)
      ensures exit == if once && active == map[] then Some(Returned) else None
    {
      hide Valid;
      ValidFacts();
      if |active| == 0 {
        RecordIdle(Idle);
        return if once then Some(Returned) else None;
      }
      PopDone(done * active.Keys);
      assert active.Keys == old(active.Keys) - done;
      ValidFacts();
      return if once && claimedOnce && |active| == 0 then Some(Returned) else None;
    }

    /**
     One round of the outer loop; None means go round again. Every future reported finished has then been popped, and
     a round that claims to its end returns exactly when it is in once mode and leaves nothing active.
     */
    method TakeRound(r: Round, once: bool) returns (exit: Option<Exit>)
      requires Valid()
      modifies this
      ensures Valid()
      ensures (exit, HeadNow()) == RoundFrom(r, old(HeadNow()), once)
      ensures exit == None || exit == Some(Returned) ==>
                active.Keys !! r.done && (exit == Some(Returned) <==> once && active == map[])
      ensures exit == Some(StillRunning) ==> next == |answers|
      ensures exit == Some(Raised) ==>
                (r.now >= old(nextRecoveryAt) && r.recoveryRaises) || (next > 0 && answers[next - 1].BrokerRaises?)
    {
      hide Valid, Filled;
      var raised := Recover(r);
      if raised {
        return Some(Raised);
      }
      var left := Fill();
      if left.Some? {
        return left;
      }
      exit := Settle(r.done, once);
    }

    /**
     The outer loop over a script of rounds. It ends at the first round that raises or, in once mode, leaves nothing
     active, unless the broker's answers run out before; on return every submitted future has finished.
     */
    method Run(rounds: seq<Round>, once: bool) returns (exit: Exit, used: nat)
      requires Valid() && log == []
      modifies this
      ensures Valid() && used <= |rounds|
      ensures forall k :: 0 <= k < used - 1 ==>
                RoundFrom(rounds[k], HeadAfter(rounds[..k], old(HeadNow()), once), once).0 == None
      ensures exit.StillRunning? ==> next == |answers| || used == |rounds|
      ensures exit != StillRunning ==> used > 0
      ensures exit != StillRunning ==>
                RoundFrom(rounds[used - 1], HeadAfter(rounds[..used - 1], old(HeadNow()), once), once).0 == Some(exit)
      ensures HeadNow() == HeadAfter(rounds[..used], old(HeadNow()), once)
      ensures once ==> forall k :: 0 < k < used ==> HeadAfter(rounds[..k], old(HeadNow()), once).active != {}
      ensures exit.Returned? ==> once && active == map[] && forall f: nat :: f in finished <==> f < submitted
    {
      hide Valid, Filled, HeadAfter, RoundFrom;
      NoRounds(HeadNow(), once);
      used := 0;
      while used < |rounds|
        invariant Valid() && used <= |rounds|
        invariant HeadNow() == HeadAfter(rounds[..used], old(HeadNow()), once)
        invariant forall k :: 0 <= k < used ==>
                    RoundFrom(rounds[k], HeadAfter(rounds[..k], old(HeadNow()), once), once).0 == None
        invariant once ==> forall k :: 0 < k <= used ==> HeadAfter(rounds[..k], old(HeadNow()), once).active != {}
      {
        RoundSnoc(rounds, used, old(HeadNow()), once);
        var left := TakeRound(rounds[used], once);
        used := used + 1;
        if left.Some? {
          ValidFacts();
          return left.value, used;
        }
        assert active == map[] || active.Keys != {};
      }
      return StillRunning, used;
    }

    lemma NoRounds(h: Head, once: bool)
      ensures HeadAfter([], h, once) == h
    {
    }

    lemma RoundSnoc(rounds: seq<Round>, n: nat, h: Head, once: bool)
      requires n < |rounds|
      ensures HeadAfter(rounds[..n + 1], h, once) == RoundFrom(rounds[n], HeadAfter(rounds[..n], h, once), once).1
    {
      assert rounds[..n + 1][..n] == rounds[..n];
    }
  }

  // ----- what a rule-abiding log means -----

  function SubmissionsOf(log: seq<Event>, f: nat): nat {
    if log == [] then 0
    else
      var last := log[|log| - 1];
      SubmissionsOf(log[..|log| - 1], f) + if last.Submitted? && last.future == f then 1 else 0
  }

  function PopsOf(log: seq<Event>, f: nat): nat {
    if log == [] then 0
    else
      var last := log[|log| - 1];
      PopsOf(log[..|log| - 1], f) + if last == Popped(f) then 1 else 0
  }

  /** Active and finished futures are disjoint, together they are the submitted ones, and the budget holds. */
  ghost predicate Partitioned(budget: nat, m: Monitor) {
    m.active !! m.finished && (forall f: nat :: f in m.active || f in m.finished <==> f < m.submitted) &&
      |m.active| <= budget
  }

  lemma {:induction false} ActiveAndFinishedPartition(budget: nat, log: seq<Event>)
    requires Replay(budget, log).Some?
    ensures Partitioned(budget, Replay(budget, log).value)
  {
    hide Advance;
    NothingSubmitted(budget);
    if log != [] {
      ActiveAndFinishedPartition(budget, log[..|log| - 1]);
      AdvanceKeepsPartition(budget, Replay(budget, log[..|log| - 1]).value, log[|log| - 1]);
    }
  }

  lemma NothingSubmitted(budget: nat)
    ensures Partitioned(budget, Monitor({}, {}, 0))
  {
  }

  lemma AdvanceKeepsPartition(budget: nat, m: Monitor, e: Event)
    requires Partitioned(budget, m) && Advance(budget, m, e).Some?
    ensures Partitioned(budget, Advance(budget, m, e).value)
  {
    if e.Popped? {
      var next := Advance(budget, m, e).value;
      assert |next.active| <= |m.active|;
      assert forall f: nat :: f in next.active || f in next.finished <==> f in m.active || f in m.finished;
    }
  }

  /** Each future is submitted exactly once. */
  lemma {:induction false} SubmittedOnce(budget: nat, log: seq<Event>, f: nat)
    requires Replay(budget, log).Some?
    ensures SubmissionsOf(log, f) == if f < Replay(budget, log).value.submitted then 1 else 0
  {
    if log != [] { SubmittedOnce(budget, log[..|log| - 1], f); }
  }

  /** Each future is popped at most once, exactly when it has finished. */
  lemma {:induction false} PoppedAtMostOnce(budget: nat, log: seq<Event>, f: nat)
    requires Replay(budget, log).Some?
    ensures PopsOf(log, f) == if f in Replay(budget, log).value.finished then 1 else 0
  {
    if log != [] {
      PoppedAtMostOnce(budget, log[..|log| - 1], f);
      ActiveAndFinishedPartition(budget, log[..|log| - 1]);
    }
  }

  lemma {:induction false} ReplayPrefix(budget: nat, log: seq<Event>, k: nat)
    requires Replay(budget, log).Some? && k <= |log|
    ensures Replay(budget, log[..k]).Some?
    decreases |log|
  {
    if k == |log| {
      assert log[..k] == log;
    } else {
      assert log[..|log| - 1][..k] == log[..k];
      ReplayPrefix(budget, log[..|log| - 1], k);
    }
  }

  /** At every moment of a run the active set is within the budget, and blocking claims happen with none active. */
  lemma SafeAtEveryMoment(budget: nat, log: seq<Event>, k: nat)
    requires Replay(budget, log).Some? && k < |log|
    ensures Replay(budget, log[..k]).Some? && |Replay(budget, log[..k]).value.active| <= budget
    ensures log[k].BlockingClaim? ==> forall f: nat :: SubmissionsOf(log[..k], f) == PopsOf(log[..k], f)
  {
    ReplayPrefix(budget, log, k + 1);
    assert log[..k + 1] == log[..k] + [log[k]];
    Snoc(budget, log[..k], log[k]);
    hide Replay;
    ActiveAndFinishedPartition(budget, log[..k]);
    if log[k].BlockingClaim? {
      forall f: nat ensures SubmissionsOf(log[..k], f) == PopsOf(log[..k], f) {
        SubmittedOnce(budget, log[..k], f);
        PoppedAtMostOnce(budget, log[..k], f);
      }
    }
  }
}
