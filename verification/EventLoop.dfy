/** sessions_event_loop and the sessions it serves, as a transition system. Every action is one
    atomic step of the loop thread, of the accepting thread or of a thread with a wakeupper, so a
    run is one interleaving of all of them.

    A session is known by its address, which may be used again once the session is destroyed.
    Waiting on epoll, the clock and what a resumed session does are left open. */
module EventLoop {
  type Addr = nat

  /** time_point::max() */
  const NEVER: nat := 0x7FFF_FFFF_FFFF_FFFF

  /** Where the loop thread is. */
  datatype Pc =
    | Waiting(limit: nat)                            // in epoll_wait, until `limit` is due
    | Events(batch: set<Addr>, woken: bool)          // handles what epoll_wait reported
    | Draining                                       // empties the event fd
    | Swapping                                       // takes the wakeup set
    | Waking(todo: set<Addr>)                        // goes through what it took
    | Timing                                         // reads the clock
    | Due(t: nat)                                    // compares it with the earliest deadline
    | Resetting(t: nat)                              // forgets the earliest deadline
    | Copying(t: nat)                                // copies the registered sessions
    | Scanning(t: nat, todo: set<Addr>, e: nat)      // goes through the copy
    | Computing                                      // computes how long to wait
    | Purging(limit: nat)                            // takes the sessions to be deleted
    | Deleting(todo: set<Addr>, limit: nat)          // goes through what it took

  /** The call on a session it is in. */
  datatype Frame = Idle | Running(a: Addr)

  /** The notify_deadline it is in: before its load, or before the exchange which follows it. */
  datatype Notice = Quiet | Loading(v: nat) | Comparing(v: nat, cur: nat)

  datatype State = State(
    now: nat,
    // the loop thread
    pc: Pc,
    frame: Frame,
    notice: Notice,
    // sessions
    live: set<Addr>,          // constructed and not destroyed
    building: set<Addr>,      // constructed, on their way to be registered
    registered: set<Addr>,    // m_sessions
    adding: set<Addr>,        // registered, but not yet known to epoll
    polled: set<Addr>,        // known to epoll
    doomed: set<Addr>,        // m_delete_later_objects
    births: multiset<Addr>,   // every construction and every destruction so far
    deaths: multiset<Addr>,
    // wakeups
    wake: set<Addr>,          // m_wakeup_sessions
    asked: set<Addr>,         // registered sessions with a wakeup requested since they last ran
    writers: nat,             // threads between the insertion and the write to the event fd
    counter: nat,             // the event fd
    edge: bool,               // epoll has an event of the event fd to report
    // deadlines
    deadline: map<Addr, nat>, // next_timeout(), 0 for none
    resumed: set<Addr>,       // ran at least once
    streamed: set<Addr>,      // have their stream, whose deadline then counts
    exposed: set<Addr>,       // were being built when the scan forgot the earliest deadline, and still are
    passed: set<Addr>,        // were passed by a scan while being built, and have no stream yet
    earliest: nat,            // m_earliest_deadline
    // the list the loop has gone through last: the events, or the copy of the registered sessions
    taken: set<Addr>,
    called: set<Addr>)        // ... and the sessions it has called since it has it

  const START := State(0, Waiting(NEVER), Idle, Quiet, {}, {}, {}, {}, {}, {}, multiset{}, multiset{},
                       {}, {}, 0, 0, false, map[], {}, {}, {}, {}, NEVER, {}, {})

  datatype Action = Env(env: EnvAction) | Loop(step: LoopAction) | Session(call: SessionAction)

  /** The other threads and the world. */
  datatype EnvAction =
    | Tick(t: nat)                    // time passes
    | Construct(a: Addr, d: nat)      // a session is accepted and publishes its first deadline
    | Lower(v: nat)                   // a notify_deadline of another thread takes effect
    | Insert(a: Addr)                 // register_session puts it into m_sessions
    | Add(a: Addr)                    // ... and gives it to epoll
    | WakeInsert(a: Addr)             // wakeup_session queues it, whether it still exists or not
    | WakeWrite                       // ... and writes to the event fd

  /** The loop thread outside of calls on sessions. */
  datatype LoopAction =
    | Wait(batch: set<Addr>, woken: bool)
    | Process(a: Addr)
    | EventsDone
    | Drain
    | Swap
    | Wake(a: Addr)
    | WakesDone
    | ReadClock
    | CheckDue
    | Reset
    | Copy
    | Scan(a: Addr)
    | ScanDone
    | Compute
    | Purge
    | Delete(a: Addr)
    | DeletesDone

  /** The loop thread inside a call on a session. */
  datatype SessionAction =
    | SetDeadline(d: nat)             // set_session_timeout
    | MakeStream(d: nat)              // the session gets its stream, which then sets its first deadline
    | DeleteLater
    | Return
    | Load
    | Exchange(spurious: bool)

  // ---------------------------------------------------------------- the other threads

  predicate EnvEnabled(s: State, act: EnvAction) {
    match act
    case Tick(t) => s.now <= t
    case Construct(a, d) => a !in s.live && 0 < d < NEVER
    case Lower(_) => true
    case Insert(a) => a in s.building
    case Add(a) => a in s.adding
    case WakeInsert(_) => true
    case WakeWrite => s.writers > 0
  }

  function EnvAfter(s: State, act: EnvAction): State
    requires EnvEnabled(s, act)
  {
    match act
    case Tick(t) => s.(now := t)
    case Construct(a, d) =>
      s.(live := s.live + {a}, building := s.building + {a}, births := s.births + multiset{a},
         deadline := s.deadline[a := d], earliest := if d < s.earliest then d else s.earliest,
         asked := s.asked - {a}, resumed := s.resumed - {a}, streamed := s.streamed - {a}, passed := s.passed - {a})
    case Lower(v) => s.(earliest := if v < s.earliest then v else s.earliest)
    case Insert(a) =>
      s.(building := s.building - {a}, registered := s.registered + {a}, adding := s.adding + {a},
         exposed := s.exposed - {a})
    case Add(a) => s.(adding := s.adding - {a}, polled := s.polled + {a})
    case WakeInsert(a) =>
      s.(wake := s.wake + {a}, writers := s.writers + 1,
         asked := if a in s.registered then s.asked + {a} else s.asked)
    case WakeWrite => s.(writers := s.writers - 1, counter := s.counter + 1, edge := true)
  }

  // ---------------------------------------------------------------- the loop

  predicate LoopEnabled(s: State, act: LoopAction) {
    s.frame.Idle? && s.notice.Quiet? &&
    match act
    case Wait(batch, woken) => s.pc.Waiting? && batch <= s.polled && (woken ==> s.edge && s.counter > 0)
    case Process(a) => s.pc.Events? && a in s.pc.batch
    case EventsDone => s.pc.Events? && s.pc.batch == {}
    case Drain => s.pc.Draining?
    case Swap => s.pc.Swapping?
    case Wake(a) => s.pc.Waking? && a in s.pc.todo
    case WakesDone => s.pc.Waking? && s.pc.todo == {}
    case ReadClock => s.pc.Timing?
    case CheckDue => s.pc.Due?
    case Reset => s.pc.Resetting?
    case Copy => s.pc.Copying?
    case Scan(a) => s.pc.Scanning? && a in s.pc.todo && a in s.deadline
    case ScanDone => s.pc.Scanning? && s.pc.todo == {}
    case Compute => s.pc.Computing?
    case Purge => s.pc.Purging?
    case Delete(a) => s.pc.Deleting? && a in s.pc.todo
    case DeletesDone => s.pc.Deleting? && s.pc.todo == {}
  }

  /** A call on a session which resumes it. */
  function Call(s: State, a: Addr, pc: Pc): State {
    s.(pc := pc, frame := Running(a), asked := s.asked - {a}, resumed := s.resumed + {a}, called := s.called + {a})
  }

  function LoopAfter(s: State, act: LoopAction): State
    requires LoopEnabled(s, act)
  {
    match act
    // An edge is used up when it is reported, or when the event fd turns out to be empty.
    case Wait(batch, woken) =>
      s.(pc := Events(batch, woken), edge := s.edge && s.counter > 0 && !woken, taken := batch, called := {})
    case Process(a) => Call(s, a, Events(s.pc.batch - {a}, s.pc.woken))
    case EventsDone => s.(pc := if s.pc.woken then Draining else Timing)
    case Drain => s.(pc := Swapping, counter := 0)
    case Swap => s.(pc := Waking(s.wake), wake := {})
    case Wake(a) =>
      var pc := Waking(s.pc.todo - {a});
      if a in s.registered then Call(s, a, pc) else s.(pc := pc)
    case WakesDone => s.(pc := Timing)
    case ReadClock => s.(pc := Due(s.now))
    case CheckDue => s.(pc := if s.pc.t >= s.earliest then Resetting(s.pc.t) else Computing)
    case Reset => s.(pc := Copying(s.pc.t), earliest := NEVER, exposed := s.building)
    case Copy =>
      s.(pc := Scanning(s.pc.t, s.registered, NEVER), passed := s.passed + s.exposed, exposed := {},
         taken := s.registered, called := {})
    case Scan(a) => ScanOne(s, a)
    case ScanDone => s.(pc := Computing, notice := Loading(s.pc.e))
    case Compute => s.(pc := Purging(s.earliest))
    case Purge => s.(pc := Deleting(s.doomed, s.pc.limit), doomed := {})
    case Delete(a) => Call(s, a, Deleting(s.pc.todo - {a}, s.pc.limit))
    case DeletesDone => s.(pc := Waiting(s.pc.limit))
  }

  function ScanOne(s: State, a: Addr): State
    requires s.pc.Scanning? && a in s.pc.todo && a in s.deadline
  {
    var d, pc := s.deadline[a], Scanning(s.pc.t, s.pc.todo - {a}, s.pc.e);
    if d == 0 then s.(pc := pc)
    else if d <= s.pc.t then Call(s, a, pc)
    else s.(pc := if d < pc.e then pc.(e := d) else pc)
  }

  // ---------------------------------------------------------------- sessions

  predicate SessionEnabled(s: State, act: SessionAction) {
    match act
    case SetDeadline(d) => s.frame.Running? && s.notice.Quiet? && d < NEVER
    case MakeStream(d) => s.frame.Running? && s.notice.Quiet? && d < NEVER && s.frame.a !in s.streamed
    case DeleteLater => s.frame.Running? && s.notice.Quiet?
    // timeout() does not return before the session is to be deleted
    case Return => s.frame.Running? && s.notice.Quiet? && (s.pc.Scanning? ==> s.frame.a !in s.registered)
    case Load => s.notice.Loading?
    case Exchange(_) => s.notice.Comparing?
  }

  function SessionAfter(s: State, act: SessionAction): State
    requires SessionEnabled(s, act)
  {
    match act
    // while the stream is still being made, as in a TLS handshake, its deadline is only published
    case SetDeadline(d) =>
      s.(deadline := if s.frame.a in s.streamed then s.deadline[s.frame.a := d] else s.deadline,
         notice := if d == 0 then Quiet else Loading(d))
    case MakeStream(d) =>
      s.(deadline := s.deadline[s.frame.a := d], notice := if d == 0 then Quiet else Loading(d),
         streamed := s.streamed + {s.frame.a}, passed := s.passed - {s.frame.a})
    case DeleteLater => if s.pc.Deleting? then s else Doom(s, s.frame.a)
    case Return => if s.pc.Deleting? then Destroy(s, s.frame.a) else s.(frame := Idle)
    case Load => s.(notice := Comparing(s.notice.v, s.earliest))
    case Exchange(spurious) =>
      if s.notice.v >= s.notice.cur then s.(notice := Quiet)
      else if s.earliest == s.notice.cur && !spurious then s.(earliest := s.notice.v, notice := Quiet)
      else s.(notice := s.notice.(cur := s.earliest))
  }

  /** delete_later of a session which is not being destroyed. */
  function Doom(s: State, a: Addr): State {
    s.(registered := s.registered - {a}, polled := s.polled - {a}, doomed := s.doomed + {a})
  }

  /** The end of the destructor. */
  function Destroy(s: State, a: Addr): State {
    s.(frame := Idle, live := s.live - {a}, deaths := s.deaths + multiset{a}, resumed := s.resumed - {a},
       streamed := s.streamed - {a}, passed := s.passed - {a}, deadline := s.deadline - {a})
  }

  // ---------------------------------------------------------------- runs

  predicate Enabled(s: State, act: Action) {
    match act
    case Env(env) => EnvEnabled(s, env)
    case Loop(step) => LoopEnabled(s, step)
    case Session(call) => SessionEnabled(s, call)
  }

  function After(s: State, act: Action): State
    requires Enabled(s, act)
  {
    match act
    case Env(env) => EnvAfter(s, env)
    case Loop(step) => LoopAfter(s, step)
    case Session(call) => SessionAfter(s, call)
  }

  /** EPOLL_CTL_DEL fails for a session which epoll does not know yet. */
  predicate EpollSucceeds(s: State, act: Action) {
    act == Session(DeleteLater) && s.frame.Running? ==> s.frame.a !in s.adding
  }

  /** The actions are possible one after the other. */
  predicate Possible(s: State, acts: seq<Action>)
    decreases |acts|
  {
    acts == [] || (Enabled(s, acts[0]) && Possible(After(s, acts[0]), acts[1..]))
  }

  function Outcome(s: State, acts: seq<Action>): State
    requires Possible(s, acts)
    decreases |acts|
  {
    if acts == [] then s else Outcome(After(s, acts[0]), acts[1..])
  }

  predicate AllSucceed(s: State, acts: seq<Action>)
    requires Possible(s, acts)
    decreases |acts|
  {
    acts == [] || (EpollSucceeds(s, acts[0]) && AllSucceed(After(s, acts[0]), acts[1..]))
  }

  // ---------------------------------------------------------------- wakeups

  /** The loop will still take the wakeup set in this round. */
  predicate Woken(pc: Pc) { (pc.Events? && pc.woken) || pc.Draining? || pc.Swapping? }

  predicate StillToWake(pc: Pc, a: Addr) { pc.Waking? && a in pc.todo }

  /** epoll_wait would report the event fd. */
  predicate Signalled(s: State) { s.edge && s.counter > 0 }

  predicate WakeupsKept(s: State) {
    && (s.wake != {} ==> s.writers > 0 || Signalled(s) || Woken(s.pc))
    && s.asked !! s.building
    && (forall a :: a in s.asked && a in s.registered ==> a in s.wake || StillToWake(s.pc, a))
  }

  // ---------------------------------------------------------------- lifetime

  /** The sessions the accepting thread and the loop still have in hand. */
  function InHand(s: State): set<Addr> {
    s.building + s.adding + Listed(s.pc) + if s.frame.Running? then {s.frame.a} else {}
  }

  function Listed(pc: Pc): set<Addr> {
    match pc
    case Events(batch, _) => batch
    case Scanning(_, todo, _) => todo
    case Deleting(todo, _) => todo
    case _ => {}
  }

  /** The sessions somebody still has to end. */
  function Held(s: State): set<Addr> {
    s.building + s.registered + s.doomed + (if s.pc.Deleting? then s.pc.todo else {}) +
    if s.frame.Running? then {s.frame.a} else {}
  }

  predicate ListSound(s: State) {
    match s.pc
    case Events(batch, _) => batch <= s.registered
    case Scanning(_, todo, _) => todo <= s.registered
    case Deleting(todo, _) => todo <= s.live && todo !! s.registered && todo !! s.doomed && todo !! s.building
    case _ => true
  }

  predicate CallSound(s: State) {
    s.frame.Running? ==>
      && s.frame.a in s.live && s.frame.a !in s.building && s.frame.a !in Listed(s.pc)
      && (s.pc.Events? || s.pc.Waking? || s.pc.Scanning? || s.pc.Deleting?)
      && if s.pc.Deleting? then s.frame.a !in s.registered && s.frame.a !in s.doomed
         else s.frame.a in s.registered || s.frame.a in s.doomed
  }

  predicate SessionsSound(s: State) {
    && s.registered <= s.live && s.doomed <= s.live && s.building <= s.live
    && s.registered !! s.doomed && s.building !! s.registered && s.building !! s.doomed
    && s.adding !! s.polled && s.registered == s.adding + s.polled
    && s.births == s.deaths + multiset(s.live)
    && ListSound(s) && CallSound(s) && (s.notice.Quiet? || s.frame.Running? || s.pc.Computing?)
  }

  // ---------------------------------------------------------------- rounds

  /** The scan has come to this session of its copy and called it if its deadline had passed, or it
      will; a session it has called is going to be deleted. */
  predicate Scanned(s: State, a: Addr)
    requires s.pc.Scanning?
  {
    || a in s.pc.todo
    || if a in s.called then s.frame == Running(a) || a in s.doomed
       else a in s.registered && a in s.deadline && (s.deadline[a] == 0 || s.pc.t < s.deadline[a])
  }

  /** The session is not forgotten, and the loop goes through all of what it has taken. */
  predicate Handled(s: State, a: Addr) {
    && (a in s.live ==> a in Held(s))
    && (s.pc.Events? && a in s.taken ==> a in s.pc.batch || a in s.called)
    && (s.pc.Scanning? && a in s.taken ==> Scanned(s, a))
    && (s.pc.Scanning? && a in s.pc.todo ==> a !in s.called)
    && (s.pc.Scanning? && s.frame == Running(a) ==> a in s.called)
  }

  /** The deadline the scan is going to publish has not passed, and the loop does not wait less than it
      may: until the earliest deadline. */
  predicate Ahead(s: State) {
    && (s.pc.Scanning? && s.pc.t < NEVER ==> s.pc.t < s.pc.e)
    && (s.pc.Waiting? || s.pc.Purging? || s.pc.Deleting? ==> s.earliest <= s.pc.limit)
  }

  ghost predicate RoundsKept(s: State) { Ahead(s) && forall a :: Handled(s, a) }

  // ---------------------------------------------------------------- deadlines

  /** The loop will still publish a deadline of at most `d` for session `a`, or end it. */
  predicate Owed(s: State, a: Addr, d: nat) {
    || (!s.notice.Quiet? && s.notice.v <= d)
    || s.pc.Copying?
    || (s.pc.Scanning? && (a in s.pc.todo || s.pc.e <= d || s.frame == Running(a)))
  }

  /** How long the loop has already decided to wait. */
  function LimitOf(pc: Pc): nat { if pc.Waiting? || pc.Purging? || pc.Deleting? then pc.limit else 0 }

  function ClockOf(pc: Pc): nat {
    if pc.Due? || pc.Resetting? || pc.Copying? || pc.Scanning? then pc.t else 0
  }

  /** A deadline the loop has to keep: that of a registered session, unless it is the first one and
      a scan passed the session while it was being built. */
  predicate Binding(s: State, a: Addr) {
    a in s.registered && a !in s.passed && a in s.deadline && s.deadline[a] != 0
  }

  /** The same for a session on its way to be registered. */
  predicate Coming(s: State, a: Addr) { a in s.building && a !in s.exposed && a !in s.passed && a in s.deadline }

  predicate Booked(s: State, a: Addr) {
    && (a in s.deadline <==> a in s.live)
    && (a in s.resumed || a in s.streamed || a in s.passed ==> a in s.live)
    && (a in s.streamed ==> a in s.resumed && a !in s.passed)
    && (a in s.resumed ==> a !in s.building)
    && (s.frame == Running(a) ==> a in s.resumed)
    && (a in s.exposed ==> a in s.building && s.pc.Copying?)
    && (a in s.deadline ==> s.deadline[a] < NEVER && (s.deadline[a] == 0 ==> a in s.streamed))
  }

  /** The deadline of `a` is published or will be, and the loop does not wait past it. */
  predicate Covered(s: State, a: Addr) {
    && (Binding(s, a) ==> s.earliest <= s.deadline[a] || Owed(s, a, s.deadline[a]))
    && (Coming(s, a) ==> s.earliest <= s.deadline[a])
    && (Binding(s, a) && a in s.resumed ==> LimitOf(s.pc) <= s.deadline[a])
  }

  /** What the loop remembers of the clock and of the earliest deadline is not out of date. */
  predicate Timely(s: State) { (s.notice.Comparing? ==> s.earliest <= s.notice.cur) && ClockOf(s.pc) <= s.now }

  ghost predicate DeadlinesKept(s: State) { Timely(s) && forall a :: Booked(s, a) && Covered(s, a) }
}
