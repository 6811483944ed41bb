/** Runs of the event loop which show where its promises end. */
module EventLoopRuns {
  import opened EventLoop
  import opened EventLoopSafety

  // ---------------------------------------------------------------- building runs

  lemma {:induction false} Extend(s: State, acts: seq<Action>, act: Action)
    requires Possible(s, acts) && Enabled(Outcome(s, acts), act)
    ensures Possible(s, acts + [act]) && Outcome(s, acts + [act]) == After(Outcome(s, acts), act)
    decreases |acts|
  {
    hide Enabled, After;
    if acts == [] {
      assert acts + [act] == [act] && [act][1..] == [];
    } else {
      assert (acts + [act])[1..] == acts[1..] + [act];
      Extend(After(s, acts[0]), acts[1..], act);
    }
  }

  lemma Then(acts: seq<Action>, act: Action) returns (more: seq<Action>)
    requires Possible(START, acts) && Enabled(Outcome(START, acts), act)
    ensures Possible(START, more) && Outcome(START, more) == After(Outcome(START, acts), act)
    ensures more == acts + [act]
  {
    more := acts + [act];
    Extend(START, acts, act);
  }

  lemma First(s: State, act: Action, rest: seq<Action>)
    requires Enabled(s, act) && Possible(After(s, act), rest)
    ensures Possible(s, [act] + rest) && Outcome(s, [act] + rest) == Outcome(After(s, act), rest)
  {
    hide Enabled, After;
    assert ([act] + rest)[1..] == rest;
  }

  lemma {:induction false} NothingDeleted(s: State, acts: seq<Action>)
    requires Possible(s, acts) && Session(DeleteLater) !in acts
    ensures AllSucceed(s, acts)
    decreases |acts|
  {
    hide Enabled, After;
    if acts != [] { NothingDeleted(After(s, acts[0]), acts[1..]); }
  }

  // ---------------------------------------------------------------- deadlines

  /** The deadline of a session passes while it is being built. */
  lemma HeldUp(a: Addr, d: nat) returns (acts: seq<Action>)
    requires 0 < d < NEVER
    ensures Possible(START, acts) && Session(DeleteLater) !in acts
    ensures var s := Outcome(START, acts);
            && s.pc == Due(d) && s.frame.Idle? && s.notice.Quiet? && s.earliest == d && s.doomed == {} && s.adding == {}
            && s.registered == {} && s.polled == {} && s.building == {a} && s.live == {a} && s.deadline == map[a := d]
            && s.streamed == {} && s.now == d
  {
    acts := [];
    assert Possible(START, acts) && Outcome(START, acts) == START;
    hide Possible, Outcome;
    acts := Then(acts, Env(Construct(a, d)));
    acts := Then(acts, Env(Tick(d)));
    acts := Then(acts, Loop(Wait({}, false)));
    acts := Then(acts, Loop(EventsDone));
    acts := Then(acts, Loop(ReadClock));
  }

  /** A scan passes it before it is registered. */
  lemma PassedBy(a: Addr, d: nat) returns (acts: seq<Action>)
    requires 0 < d < NEVER
    ensures Possible(START, acts) && Session(DeleteLater) !in acts
    ensures var s := Outcome(START, acts);
            && s.pc == Waiting(NEVER) && s.frame.Idle? && s.notice.Quiet? && s.earliest == NEVER && s.doomed == {}
            && s.building == {a} && s.registered == {} && s.polled == {} && s.adding == {} && s.deadline == map[a := d]
            && s.streamed == {} && s.now == d
  {
    hide Possible, Outcome;
    acts := HeldUp(a, d);
    acts := Then(acts, Loop(CheckDue));
    acts := Then(acts, Loop(Reset));
    acts := Then(acts, Loop(Copy));
    acts := Then(acts, Loop(ScanDone));
    acts := Then(acts, Session(Load));
    acts := Then(acts, Session(Exchange(false)));
    acts := Then(acts, Loop(Compute));
    acts := Then(acts, Loop(Purge));
    acts := Then(acts, Loop(DeletesDone));
  }

  /** The deadline a session gets when it is constructed is lost if a scan passes before the session
      is registered: the loop then waits without a limit. */
  lemma FirstDeadlineLost(a: Addr, d: nat)
    requires 0 < d < NEVER
    ensures exists s :: Reachable(s) && s.pc == Waiting(NEVER) && a in s.polled && a in s.deadline && s.deadline[a] == d
  {
    hide Possible, Outcome, AllSucceed;
    var acts := PassedBy(a, d);
    acts := Then(acts, Env(Insert(a)));
    acts := Then(acts, Env(Add(a)));
    NothingDeleted(START, acts);
    assert Reachable(Outcome(START, acts));
  }

  /** Then it is registered and resumed. */
  lemma Resumed(a: Addr, d: nat) returns (acts: seq<Action>)
    requires 0 < d < NEVER
    ensures Possible(START, acts) && Session(DeleteLater) !in acts
    ensures var s := Outcome(START, acts);
            && s.pc == Events({}, false) && s.frame == Running(a) && s.notice.Quiet? && s.earliest == NEVER
            && s.doomed == {}
            && s.registered == {a} && s.deadline == map[a := d] && a in s.resumed && s.streamed == {} && s.now == d
  {
    hide Possible, Outcome;
    acts := PassedBy(a, d);
    acts := Then(acts, Env(Insert(a)));
    acts := Then(acts, Env(Add(a)));
    acts := Then(acts, Loop(Wait({a}, false)));
    acts := Then(acts, Loop(Process(a)));
  }

  /** In its handshake it publishes a later deadline. */
  lemma Handshake(a: Addr, d: nat, later: nat) returns (acts: seq<Action>)
    requires 0 < d < later < NEVER
    ensures Possible(START, acts) && Session(DeleteLater) !in acts
    ensures var s := Outcome(START, acts);
            && s.pc == Events({}, false) && s.frame.Idle? && s.notice.Quiet? && s.earliest == later && s.doomed == {}
            && s.registered == {a} && s.deadline == map[a := d] && a in s.resumed && s.streamed == {} && s.now == d
  {
    hide Possible, Outcome;
    acts := Resumed(a, d);
    acts := Then(acts, Session(SetDeadline(later)));
    acts := Then(acts, Session(Load));
    acts := Then(acts, Session(Exchange(false)));
    acts := Then(acts, Session(Return));
  }

  /** Being resumed is not enough. While a TLS session is in its handshake its first deadline still
      counts, but only that of the stream in the making is published, so the loop waits past it. */
  lemma HandshakeDeadlineLost(a: Addr, d: nat, later: nat)
    requires 0 < d < later < NEVER
    ensures exists s ::
              && Reachable(s) && s.pc == Waiting(later) && s.earliest == later
              && a in s.registered && a in s.resumed && a in s.deadline && s.deadline[a] == d
  {
    hide Possible, Outcome, AllSucceed;
    var acts := Handshake(a, d, later);
    acts := Then(acts, Loop(EventsDone));
    acts := Then(acts, Loop(ReadClock));
    acts := Then(acts, Loop(CheckDue));
    acts := Then(acts, Loop(Compute));
    acts := Then(acts, Loop(Purge));
    acts := Then(acts, Loop(DeletesDone));
    NothingDeleted(START, acts);
    assert Reachable(Outcome(START, acts));
  }

  // ---------------------------------------------------------------- a failing epoll call

  /** The accepting thread is held up inside register_session until the deadline of its session
      passes, and the loop times the session out: removing it from epoll now fails. */
  lemma StalledRegistration(a: Addr, d: nat)
    requires 0 < d < NEVER
    ensures exists s ::
              Reachable(s) && s.frame == Running(a) && s.notice.Quiet? && !EpollSucceeds(s, Session(DeleteLater))
  {
    hide Possible, Outcome, AllSucceed;
    var acts := HeldUp(a, d);
    acts := Then(acts, Env(Insert(a)));
    acts := Then(acts, Loop(CheckDue));
    acts := Then(acts, Loop(Reset));
    acts := Then(acts, Loop(Copy));
    acts := Then(acts, Loop(Scan(a)));
    NothingDeleted(START, acts);
    assert Reachable(Outcome(START, acts));
  }

  /** The loop is in the middle of a round, and will delete `a` at its end. */
  predicate Ending(s: State, a: Addr) {
    && s.frame.Idle? && s.notice.Quiet? && a in s.doomed && a in s.adding
    && !s.pc.Waiting? && !s.pc.Deleting?
    && s.registered <= s.deadline.Keys && (s.pc.Scanning? ==> s.pc.todo <= s.deadline.Keys)
  }

  function Stage(pc: Pc): nat {
    match pc
    case Events(_, _) => 10
    case Draining => 9
    case Swapping => 8
    case Waking(_) => 7
    case Timing => 6
    case Due(_) => 5
    case Resetting(_) => 4
    case Copying(_) => 3
    case Scanning(_, _, _) => 2
    case Computing => 1
    case _ => 0
  }

  function Todo(pc: Pc): set<Addr> {
    match pc
    case Events(batch, _) => batch
    case Waking(todo) => todo
    case Scanning(_, todo, _) => todo
    case _ => {}
  }

  /** The loop alone can always take its next step: a call on a session may return at once, and one
      which is timed out after its deletion was asked for. */
  lemma NextStep(s: State, a: Addr) returns (acts: seq<Action>)
    requires Ending(s, a) && !s.pc.Purging?
    ensures Possible(s, acts) && Ending(Outcome(s, acts), a)
    ensures var pc := Outcome(s, acts).pc;
            Stage(pc) < Stage(s.pc) || (Stage(pc) == Stage(s.pc) && Todo(pc) < Todo(s.pc))
  {
    match s.pc
    case Events(batch, woken) =>
      if b :| b in batch { acts := CallAndReturn(s, a, Process(b)); } else { acts := One(s, Loop(EventsDone)); }
    case Waking(todo) =>
      if b :| b in todo { acts := CallAndReturn(s, a, Wake(b)); } else { acts := One(s, Loop(WakesDone)); }
    case Scanning(_, todo, _) =>
      if b :| b in todo { acts := ScanAndReturn(s, a, b); } else { acts := PublishAll(s, a); }
    case Draining => acts := One(s, Loop(Drain));
    case Swapping => acts := One(s, Loop(Swap));
    case Timing => acts := One(s, Loop(ReadClock));
    case Due(_) => acts := One(s, Loop(CheckDue));
    case Resetting(_) => acts := One(s, Loop(Reset));
    case Copying(_) => acts := One(s, Loop(Copy));
    case Computing => acts := One(s, Loop(Compute));
  }

  lemma One(s: State, act: Action) returns (acts: seq<Action>)
    requires Enabled(s, act)
    ensures Possible(s, acts) && Outcome(s, acts) == After(s, act) && acts == [act]
  {
    hide Enabled, After;
    acts := [act];
    assert Possible(After(s, act), []);
    First(s, act, []);
    assert [act] + [] == [act];
  }

  lemma Two(s: State, act: Action, next: Action) returns (acts: seq<Action>)
    requires Enabled(s, act) && Enabled(After(s, act), next)
    ensures Possible(s, acts) && Outcome(s, acts) == After(After(s, act), next) && acts == [act, next]
  {
    hide Enabled, After;
    var rest := One(After(s, act), next);
    acts := [act] + rest;
    First(s, act, rest);
  }

  lemma CallAndReturn(s: State, a: Addr, act: LoopAction) returns (acts: seq<Action>)
    requires Ending(s, a) && LoopEnabled(s, act) && (act.Process? || act.Wake?)
    ensures Possible(s, acts) && Ending(Outcome(s, acts), a)
    ensures var pc := Outcome(s, acts).pc; Stage(pc) == Stage(s.pc) && Todo(pc) < Todo(s.pc)
  {
    if LoopAfter(s, act).frame.Running? {
      acts := Two(s, Loop(act), Session(Return));
    } else {
      acts := One(s, Loop(act));
    }
  }

  lemma ScanAndReturn(s: State, a: Addr, b: Addr) returns (acts: seq<Action>)
    requires Ending(s, a) && s.pc.Scanning? && b in s.pc.todo
    ensures Possible(s, acts) && Ending(Outcome(s, acts), a)
    ensures var pc := Outcome(s, acts).pc; Stage(pc) == Stage(s.pc) && Todo(pc) < Todo(s.pc)
  {
    if LoopAfter(s, Scan(b)).frame.Running? {
      var rest := Two(LoopAfter(s, Scan(b)), Session(DeleteLater), Session(Return));
      acts := [Loop(Scan(b))] + rest;
      First(s, Loop(Scan(b)), rest);
    } else {
      acts := One(s, Loop(Scan(b)));
    }
  }

  lemma PublishAll(s: State, a: Addr) returns (acts: seq<Action>)
    requires Ending(s, a) && s.pc.Scanning? && s.pc.todo == {}
    ensures Possible(s, acts) && Ending(Outcome(s, acts), a) && Outcome(s, acts).pc.Computing?
  {
    var rest := Two(LoopAfter(s, ScanDone), Session(Load), Session(Exchange(false)));
    acts := [Loop(ScanDone)] + rest;
    First(s, Loop(ScanDone), rest);
  }

  lemma DeleteAtEnd(s: State, a: Addr) returns (acts: seq<Action>)
    requires Ending(s, a) && s.pc.Purging?
    ensures Possible(s, acts) && a in InHand(Outcome(s, acts)) && a !in Outcome(s, acts).live
  {
    var rest := Two(LoopAfter(s, Purge), Loop(Delete(a)), Session(Return));
    acts := [Loop(Purge)] + rest;
    First(s, Loop(Purge), rest);
  }

  lemma {:induction false} RoundEnds(s: State, a: Addr) returns (acts: seq<Action>)
    requires Ending(s, a)
    ensures Possible(s, acts) && a in InHand(Outcome(s, acts)) && a !in Outcome(s, acts).live
    decreases Stage(s.pc), Todo(s.pc)
  {
    hide Enabled, After, Possible, Outcome, Ending, InHand;
    if s.pc.Purging? {
      acts := DeleteAtEnd(s, a);
    } else {
      var step := NextStep(s, a);
      var rest := RoundEnds(Outcome(s, step), a);
      acts := step + rest;
      Join(s, step, rest);
    }
  }

  lemma {:induction false} Join(s: State, acts: seq<Action>, more: seq<Action>)
    requires Possible(s, acts) && Possible(Outcome(s, acts), more)
    ensures Possible(s, acts + more) && Outcome(s, acts + more) == Outcome(Outcome(s, acts), more)
    decreases |acts|
  {
    hide Enabled, After;
    if acts == [] {
      assert acts + more == more;
    } else {
      assert (acts + more)[1..] == acts[1..] + more;
      Join(After(s, acts[0]), acts[1..], more);
    }
  }

  /** The assumption on epoll is needed wherever it fails: whenever removing a session from epoll
      fails, the loop can go on to destroy the session, which the accepting thread then still has in
      hand. */
  lemma FailedRemovalKills(s: State, a: Addr)
    requires Reachable(s) && s.frame == Running(a) && s.notice.Quiet? && !EpollSucceeds(s, Session(DeleteLater))
    ensures exists more :: Possible(s, [Session(DeleteLater)] + more) &&
                           var s' := Outcome(s, [Session(DeleteLater)] + more); a in InHand(s') && a !in s'.live
  {
    var start := FailedRemoval(s, a);
    hide Enabled, After, Possible, Outcome, Ending, InHand, Reachable;
    var rest := RoundEnds(Outcome(s, start), a);
    Join(s, start, rest);
    assert start + rest == [Session(DeleteLater)] + ([Session(Return)] + rest);
  }

  lemma FailedRemoval(s: State, a: Addr) returns (acts: seq<Action>)
    requires Reachable(s) && s.frame == Running(a) && s.notice.Quiet? && !EpollSucceeds(s, Session(DeleteLater))
    ensures acts == [Session(DeleteLater), Session(Return)] && Possible(s, acts) && Ending(Outcome(s, acts), a)
  {
    ReachableSafe(s);
    hide Reachable, WakeupsKept, Covered;
    forall b | b in s.live ensures b in s.deadline { assert Booked(s, b); }
    acts := Two(s, Session(DeleteLater), Session(Return));
  }
}
