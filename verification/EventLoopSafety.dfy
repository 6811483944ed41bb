/** What every run of the event loop keeps. */
module EventLoopSafety {
  import opened EventLoop

  ghost predicate Safe(s: State) { WakeupsKept(s) && SessionsSound(s) && DeadlinesKept(s) && RoundsKept(s) }

  // ---------------------------------------------------------------- wakeups

  lemma EnvKeepsWakeups(s: State, act: EnvAction)
    requires SessionsSound(s) && WakeupsKept(s) && EnvEnabled(s, act)
    ensures WakeupsKept(EnvAfter(s, act))
  {
  }

  lemma LoopKeepsWakeups(s: State, act: LoopAction)
    requires WakeupsKept(s) && LoopEnabled(s, act)
    ensures WakeupsKept(LoopAfter(s, act))
  {
  }

  lemma SessionKeepsWakeups(s: State, act: SessionAction)
    requires WakeupsKept(s) && SessionEnabled(s, act)
    ensures WakeupsKept(SessionAfter(s, act))
  {
  }

  // ---------------------------------------------------------------- lifetime

  lemma EnvKeepsSessions(s: State, act: EnvAction)
    requires SessionsSound(s) && EnvEnabled(s, act)
    ensures SessionsSound(EnvAfter(s, act))
  {
    if act.Construct? {
      assert multiset(s.live + {act.a}) == multiset(s.live) + multiset{act.a};
    }
  }

  predicate Calls(act: LoopAction) { act.Process? || act.Wake? || act.Scan? || act.Delete? }

  lemma CallingKeepsSessions(s: State, act: LoopAction)
    requires SessionsSound(s) && LoopEnabled(s, act) && Calls(act)
    ensures SessionsSound(LoopAfter(s, act))
  {
  }

  lemma LoopKeepsSessions(s: State, act: LoopAction)
    requires SessionsSound(s) && LoopEnabled(s, act)
    ensures SessionsSound(LoopAfter(s, act))
  {
    hide Call, ScanOne;
    if Calls(act) { CallingKeepsSessions(s, act); }
  }

  lemma SessionKeepsSessions(s: State, act: SessionAction)
    requires SessionsSound(s) && SessionEnabled(s, act) && EpollSucceeds(s, Session(act))
    ensures SessionsSound(SessionAfter(s, act))
  {
    if act.Return? && s.pc.Deleting? {
      assert multiset(s.live) == multiset(s.live - {s.frame.a}) + multiset{s.frame.a};
    }
  }

  // ---------------------------------------------------------------- deadlines

  lemma EnvKeepsDeadline(s: State, act: EnvAction, a: Addr)
    requires SessionsSound(s) && Timely(s) && Booked(s, a) && Covered(s, a) && EnvEnabled(s, act)
    ensures Booked(EnvAfter(s, act), a) && Covered(EnvAfter(s, act), a)
  {
  }

  lemma EnvKeepsDeadlines(s: State, act: EnvAction)
    requires SessionsSound(s) && DeadlinesKept(s) && EnvEnabled(s, act)
    ensures DeadlinesKept(EnvAfter(s, act))
  {
    assert Timely(EnvAfter(s, act));
    hide SessionsSound, Timely, Booked, Covered, EnvEnabled;
    forall a ensures Booked(EnvAfter(s, act), a) && Covered(EnvAfter(s, act), a) { EnvKeepsDeadline(s, act, a); }
  }

  lemma CallingKeepsBooked(s: State, act: LoopAction, a: Addr)
    requires SessionsSound(s) && Timely(s) && Booked(s, a) && LoopEnabled(s, act) && Calls(act)
    ensures Booked(LoopAfter(s, act), a)
  {
  }

  lemma CallingKeepsCovered(s: State, act: LoopAction, a: Addr)
    requires SessionsSound(s) && Timely(s) && Booked(s, a) && Covered(s, a) && LoopEnabled(s, act) && Calls(act)
    ensures Covered(LoopAfter(s, act), a)
  {
  }

  lemma LoopKeepsDeadline(s: State, act: LoopAction, a: Addr)
    requires SessionsSound(s) && Timely(s) && Booked(s, a) && Covered(s, a) && LoopEnabled(s, act)
    ensures Booked(LoopAfter(s, act), a) && Covered(LoopAfter(s, act), a)
  {
    hide Call, ScanOne, ListSound, CallSound;
    if Calls(act) {
      CallingKeepsBooked(s, act, a);
      CallingKeepsCovered(s, act, a);
    }
  }

  lemma LoopKeepsDeadlines(s: State, act: LoopAction)
    requires SessionsSound(s) && DeadlinesKept(s) && LoopEnabled(s, act)
    ensures DeadlinesKept(LoopAfter(s, act))
  {
    assert Timely(LoopAfter(s, act));
    hide SessionsSound, Timely, Booked, Covered, LoopEnabled;
    forall a ensures Booked(LoopAfter(s, act), a) && Covered(LoopAfter(s, act), a) { LoopKeepsDeadline(s, act, a); }
  }

  lemma SessionKeepsBooked(s: State, act: SessionAction, a: Addr)
    requires SessionsSound(s) && Booked(s, a) && SessionEnabled(s, act)
    ensures Booked(SessionAfter(s, act), a)
  {
  }

  lemma SessionKeepsCovered(s: State, act: SessionAction, a: Addr)
    requires SessionsSound(s) && Timely(s) && Booked(s, a) && Covered(s, a) && SessionEnabled(s, act)
    ensures Covered(SessionAfter(s, act), a)
  {
  }

  lemma SessionKeepsDeadlines(s: State, act: SessionAction)
    requires SessionsSound(s) && DeadlinesKept(s) && SessionEnabled(s, act)
    ensures DeadlinesKept(SessionAfter(s, act))
  {
    assert Timely(SessionAfter(s, act));
    hide SessionsSound, Timely, Booked, Covered, SessionEnabled;
    forall a ensures Booked(SessionAfter(s, act), a) && Covered(SessionAfter(s, act), a) {
      SessionKeepsBooked(s, act, a);
      SessionKeepsCovered(s, act, a);
    }
  }

  // ---------------------------------------------------------------- rounds

  lemma EnvKeepsRounds(s: State, act: EnvAction)
    requires SessionsSound(s) && RoundsKept(s) && EnvEnabled(s, act)
    ensures RoundsKept(EnvAfter(s, act))
  {
    assert Ahead(EnvAfter(s, act));
    forall a ensures Handled(EnvAfter(s, act), a) { assert Handled(s, a); }
  }

  lemma CallingKeepsHandled(s: State, act: LoopAction, a: Addr)
    requires SessionsSound(s) && Booked(s, a) && Handled(s, a) && LoopEnabled(s, act) && Calls(act)
    ensures Handled(LoopAfter(s, act), a)
  {
  }

  lemma LoopKeepsHandled(s: State, act: LoopAction, a: Addr)
    requires SessionsSound(s) && Booked(s, a) && Handled(s, a) && LoopEnabled(s, act)
    ensures Handled(LoopAfter(s, act), a)
  {
    hide Call, ScanOne, ListSound, CallSound, Booked;
    if Calls(act) { CallingKeepsHandled(s, act, a); }
  }

  lemma LoopKeepsRounds(s: State, act: LoopAction)
    requires SessionsSound(s) && DeadlinesKept(s) && RoundsKept(s) && LoopEnabled(s, act)
    ensures RoundsKept(LoopAfter(s, act))
  {
    assert Ahead(LoopAfter(s, act));
    hide SessionsSound, Booked, Covered, Timely, LoopEnabled, Handled, Ahead;
    forall a ensures Handled(LoopAfter(s, act), a) { LoopKeepsHandled(s, act, a); }
  }

  lemma SessionKeepsHandled(s: State, act: SessionAction, a: Addr)
    requires SessionsSound(s) && Handled(s, a) && SessionEnabled(s, act)
    ensures Handled(SessionAfter(s, act), a)
  {
  }

  lemma SessionKeepsRounds(s: State, act: SessionAction)
    requires SessionsSound(s) && RoundsKept(s) && SessionEnabled(s, act)
    ensures RoundsKept(SessionAfter(s, act))
  {
    assert Ahead(SessionAfter(s, act));
    hide SessionsSound, SessionEnabled, Handled, Ahead;
    forall a ensures Handled(SessionAfter(s, act), a) { SessionKeepsHandled(s, act, a); }
  }

  // ---------------------------------------------------------------- runs

  lemma StepKeepsSafe(s: State, act: Action)
    requires Safe(s) && Enabled(s, act) && EpollSucceeds(s, act)
    ensures Safe(After(s, act))
  {
    hide WakeupsKept, SessionsSound, DeadlinesKept, RoundsKept, EnvEnabled, LoopEnabled, SessionEnabled;
    match act
    case Env(env) =>
      EnvKeepsWakeups(s, env);
      EnvKeepsSessions(s, env);
      EnvKeepsDeadlines(s, env);
      EnvKeepsRounds(s, env);
    case Loop(step) =>
      LoopKeepsWakeups(s, step);
      LoopKeepsSessions(s, step);
      LoopKeepsDeadlines(s, step);
      LoopKeepsRounds(s, step);
    case Session(call) =>
      SessionKeepsWakeups(s, call);
      SessionKeepsSessions(s, call);
      SessionKeepsDeadlines(s, call);
      SessionKeepsRounds(s, call);
  }

  lemma {:induction false} RunKeepsSafe(s: State, acts: seq<Action>)
    requires Safe(s) && Possible(s, acts) && AllSucceed(s, acts)
    ensures Safe(Outcome(s, acts))
    decreases |acts|
  {
    hide Safe, Enabled, EpollSucceeds, After;
    if acts != [] {
      StepKeepsSafe(s, acts[0]);
      RunKeepsSafe(After(s, acts[0]), acts[1..]);
    }
  }

  /** A state the loop gets to from its start while the epoll calls succeed. */
  ghost predicate Reachable(s: State) {
    exists acts :: Possible(START, acts) && AllSucceed(START, acts) && Outcome(START, acts) == s
  }

  lemma ReachableSafe(s: State)
    requires Reachable(s)
    ensures Safe(s)
  {
    var acts :| Possible(START, acts) && AllSucceed(START, acts) && Outcome(START, acts) == s;
    RunKeepsSafe(START, acts);
  }

  // ---------------------------------------------------------------- what follows

  /** A request to wake a session is not lost: as long as one is queued and its writer is done,
      epoll has the event to report or the loop is about to take the queue. */
  lemma NoLostWakeup(s: State)
    requires Reachable(s) && s.writers == 0 && s.wake != {}
    ensures Signalled(s) || Woken(s.pc)
  {
    ReachableSafe(s);
  }

  /** When the loop sleeps, no waker is on its way and there is nothing to report, every session
      which was asked to run while it was registered has run since, or is gone. */
  lemma NobodySleepsThroughAWakeup(s: State)
    requires Reachable(s) && s.pc.Waiting? && s.writers == 0 && !Signalled(s)
    ensures s.wake == {} && s.asked !! s.registered
  {
    ReachableSafe(s);
  }

  /** Whatever a thread still has in hand is alive. The registered sessions, those to be deleted
      and those the loop took to delete are disjoint, and no session is destroyed twice. */
  lemma NothingDeadInHand(s: State)
    requires Reachable(s)
    ensures InHand(s) <= s.live && s.registered <= s.live && s.doomed <= s.live
    ensures s.registered !! s.doomed && (s.pc.Deleting? ==> s.pc.todo !! s.registered && s.pc.todo !! s.doomed)
    ensures forall a :: s.births[a] == s.deaths[a] + if a in s.live then 1 else 0
  {
    ReachableSafe(s);
    hide WakeupsKept, DeadlinesKept, RoundsKept, Reachable;
  }

  /** When the loop is about to wait, the published deadline and the time it waits for are at most the
      deadline of every registered session it has resumed, unless this is still the first one and a
      scan passed the session while it was being built; it waits forever only if there is none. */
  lemma NoLostDeadline(s: State, a: Addr)
    requires Reachable(s) && s.pc.Waiting? && a in s.registered && a in s.resumed && a !in s.passed
    requires a in s.deadline && s.deadline[a] != 0
    ensures s.earliest <= s.deadline[a] && s.pc.limit <= s.deadline[a] && s.pc.limit != NEVER
  {
    ReachableSafe(s);
    assert Booked(s, a) && Covered(s, a);
  }

  /** It does not wake up before the earliest deadline which is published. */
  lemma NoBusyWait(s: State)
    requires Reachable(s) && s.pc.Waiting?
    ensures s.earliest <= s.pc.limit
  {
    ReachableSafe(s);
  }

  /** A session which has its stream is one of these. */
  lemma StreamIsSafe(s: State, a: Addr)
    requires Reachable(s) && a in s.streamed
    ensures a in s.resumed && a !in s.passed
  {
    ReachableSafe(s);
    assert Booked(s, a);
  }

  /** The first deadline is published before the session is resumed, and stays so until it has a stream. */
  lemma FirstDeadlineKept(s: State, a: Addr)
    requires Reachable(s) && s.pc.Waiting? && a in s.registered && a !in s.streamed && a !in s.passed
    ensures a in s.deadline && 0 < s.deadline[a] && s.earliest <= s.deadline[a]
  {
    ReachableSafe(s);
    assert Booked(s, a) && Covered(s, a);
  }

  /** The scan never comes to a session which is not there. */
  lemma ScanFindsItsSession(s: State, a: Addr)
    requires Reachable(s) && s.frame.Idle? && s.notice.Quiet? && s.pc.Scanning? && a in s.pc.todo
    ensures LoopEnabled(s, Scan(a)) && a in s.live
  {
    ReachableSafe(s);
    assert Booked(s, a);
  }

  /** The scan calls timeout() exactly for the sessions whose deadline has passed. */
  lemma TimedOutIff(s: State, a: Addr)
    requires Reachable(s) && LoopEnabled(s, Scan(a))
    ensures LoopAfter(s, Scan(a)).frame == Running(a) <==> 0 < s.deadline[a] <= s.pc.t
    ensures s.pc.t <= s.now
  {
    ReachableSafe(s);
  }

  /** When a scan ends, no session of its copy is left whose deadline had passed when it read the
      clock: those it found so have been called and are going to be deleted. The deadline it publishes
      has not passed either. */
  lemma NoTimeoutMissed(s: State, a: Addr)
    requires Reachable(s) && LoopEnabled(s, ScanDone) && a in s.taken
    ensures if a in s.called then a in s.doomed && a !in s.registered
            else a in s.deadline && (s.deadline[a] == 0 || s.pc.t < s.deadline[a])
    ensures s.pc.t < NEVER ==> s.pc.t < s.pc.e
  {
    ReachableSafe(s);
    assert Handled(s, a);
  }

  /** There is a scan whenever there is a deadline which it has to find. */
  lemma OverdueIsScanned(s: State, a: Addr)
    requires Reachable(s) && LoopEnabled(s, CheckDue) && Binding(s, a) && s.deadline[a] <= s.pc.t
    ensures LoopAfter(s, CheckDue).pc == Resetting(s.pc.t)
  {
    ReachableSafe(s);
    assert Covered(s, a);
  }

  /** Every session epoll has reported has been called when the loop is done with the events. */
  lemma EventsHandled(s: State)
    requires Reachable(s) && LoopEnabled(s, EventsDone)
    ensures s.taken <= s.called
  {
    ReachableSafe(s);
    forall a | a in s.taken ensures a in s.called { assert Handled(s, a); }
  }

  /** No session is forgotten: while the loop waits, those which are not destroyed are being built,
      registered or on the list of those to be deleted. */
  lemma NoSessionForgotten(s: State)
    requires Reachable(s) && s.pc.Waiting?
    ensures s.live == s.building + s.registered + s.doomed
  {
    ReachableSafe(s);
    forall a | a in s.live ensures a in s.building + s.registered + s.doomed { assert Handled(s, a); }
  }
}
