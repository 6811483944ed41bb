/** How the server counts its connections. The accepting thread and the threads which destroy
    sessions take the steps below in any order; each step is one critical section. */
module Accounting {

  type Id = nat

  datatype Phase = Accepted | Active | Leaving

  /** A connection, from the step which counts it to the step which releases it. */
  datatype Conn = Conn(address: string, phase: Phase)

  datatype State = State(
    limit: nat,                   // max_connections_per_ip
    conns: map<Id, Conn>,
    perIp: map<string, nat>,      // m_connections_per_ip
    active: set<Id>,              // m_active_sessions
    published: nat,               // m_active_sessions_count
    peak: nat)                    // m_peak_sessions

  datatype Action =
    | Accept(id: Id, address: string)   // the accept loop counts a connection or closes it
    | Create(id: Id)                    // server_session_created
    | Erase(id: Id)                     // server_session_deleted, first half
    | Release(id: Id)                   // server_session_deleted, second half

  function Start(limit: nat): State { State(limit, map[], map[], {}, 0, 0) }

  predicate Enabled(s: State, act: Action) {
    match act
    case Accept(id, _) => id !in s.conns
    case Create(id) => id in s.conns && s.conns[id].phase.Accepted?
    case Erase(id) => id in s.conns && s.conns[id].phase.Active?
    case Release(id) => id in s.conns && s.conns[id].phase.Leaving? && s.conns[id].address in s.perIp
                        && s.perIp[s.conns[id].address] > 0
  }

  function After(s: State, act: Action): State
    requires Enabled(s, act)
  {
    match act
    case Accept(id, address) =>
      // looking an address up makes an entry for it
      var perIp := if address in s.perIp then s.perIp else s.perIp[address := 0];
      if perIp[address] >= s.limit then s.(perIp := perIp)
      else s.(perIp := perIp[address := perIp[address] + 1], conns := s.conns[id := Conn(address, Accepted)])
    case Create(id) =>
      var active := s.active + {id};
      s.(active := active, published := |active|, peak := Max(s.peak, |active|), conns := Move(s.conns, id, Active))
    case Erase(id) =>
      var active := s.active - {id};
      s.(active := active, published := |active|, conns := Move(s.conns, id, Leaving))
    case Release(id) =>
      var address := s.conns[id].address;
      s.(conns := s.conns - {id},
         perIp := if s.perIp[address] == 1 then s.perIp - {address} else s.perIp[address := s.perIp[address] - 1])
  }

  function Max(a: nat, b: nat): nat { if a < b then b else a }

  function Move(conns: map<Id, Conn>, id: Id, phase: Phase): map<Id, Conn>
    requires id in conns
  {
    conns[id := conns[id].(phase := phase)]
  }

  // ---------------------------------------------------------------- what the counters mean

  /** The connections of an address which are counted and not released. */
  function From(conns: map<Id, Conn>, address: string): set<Id> {
    set id | id in conns && conns[id].address == address
  }

  function Counter(perIp: map<string, nat>, address: string): nat { if address in perIp then perIp[address] else 0 }

  ghost predicate Counted(s: State) {
    && (forall address :: Counter(s.perIp, address) == |From(s.conns, address)| <= s.limit)
    && (forall address :: address in s.perIp ==> s.perIp[address] > 0)
  }

  ghost predicate Published(s: State) {
    && (forall id :: id in s.active <==> id in s.conns && s.conns[id].phase.Active?)
    && s.published == |s.active| <= s.peak
  }

  lemma FromAdded(conns: map<Id, Conn>, id: Id, conn: Conn, address: string)
    requires id !in conns
    ensures |From(conns[id := conn], address)| == |From(conns, address)| + if conn.address == address then 1 else 0
  {
    assert From(conns[id := conn], address) == From(conns, address) + if conn.address == address then {id} else {};
  }

  lemma FromMoved(conns: map<Id, Conn>, id: Id, phase: Phase, address: string)
    requires id in conns
    ensures From(Move(conns, id, phase), address) == From(conns, address)
  {
  }

  lemma FromRemoved(conns: map<Id, Conn>, id: Id, address: string)
    requires id in conns
    ensures |From(conns - {id}, address)| == |From(conns, address)| - if conns[id].address == address then 1 else 0
  {
    assert From(conns - {id}, address) == From(conns, address) - {id};
  }

  lemma StepCounted(s: State, act: Action)
    requires Counted(s) && Enabled(s, act) && s.limit >= 1
    ensures Counted(After(s, act))
  {
    var s' := After(s, act);
    forall address ensures Counter(s'.perIp, address) == |From(s'.conns, address)| <= s'.limit {
      assert Counter(s.perIp, address) == |From(s.conns, address)| <= s.limit;
      match act
      case Accept(id, a) =>
        assert Counter(s.perIp, a) == |From(s.conns, a)| <= s.limit;
        FromAdded(s.conns, id, Conn(a, Accepted), address);
      case Create(id) => FromMoved(s.conns, id, Active, address);
      case Erase(id) => FromMoved(s.conns, id, Leaving, address);
      case Release(id) => FromRemoved(s.conns, id, address);
    }
  }

  lemma StepPublished(s: State, act: Action)
    requires Published(s) && Enabled(s, act)
    ensures Published(After(s, act))
  {
    if act.Erase? { assert |s.active - {act.id}| == |s.active| - 1; }
  }

  // ---------------------------------------------------------------- runs

  predicate Possible(s: State, acts: seq<Action>)
    decreases |acts|
  {
    acts == [] || (Enabled(s, acts[0]) && Possible(After(s, acts[0]), acts[1..]))
  }

  function Outcome(s: State, acts: seq<Action>): State
    requires Possible(s, acts)
    decreases |acts|
  {
    if acts == [] then s else Outcome(After(s, acts[0]), acts[1..])
  }

  /** The most sessions there were at once in a run. */
  function MostActive(s: State, acts: seq<Action>): nat
    requires Possible(s, acts)
    decreases |acts|
  {
    if acts == [] then |s.active| else Max(|s.active|, MostActive(After(s, acts[0]), acts[1..]))
  }

  lemma {:induction false} RunConserves(s: State, acts: seq<Action>)
    requires Counted(s) && Published(s) && s.limit >= 1 && Possible(s, acts)
    ensures Counted(Outcome(s, acts)) && Published(Outcome(s, acts)) && Outcome(s, acts).limit == s.limit
    ensures Outcome(s, acts).peak == Max(s.peak, MostActive(s, acts))
    decreases |acts|
  {
    if acts != [] {
      StepCounted(s, acts[0]);
      StepPublished(s, acts[0]);
      assert After(s, acts[0]).peak == Max(s.peak, |After(s, acts[0]).active|);
      assert After(s, acts[0]).limit == s.limit;
      hide Counted, Published, Enabled, After;
      RunConserves(After(s, acts[0]), acts[1..]);
      ActiveCounts(After(s, acts[0]), acts[1..]);
    }
  }

  lemma ActiveCounts(s: State, acts: seq<Action>)
    requires Possible(s, acts)
    ensures |s.active| <= MostActive(s, acts)
  {
  }

  /** In every interleaving the counter of an address is the number of its connections, which
      stays within the limit; no entry is zero; the published count is the number of sessions,
      and the peak is the most there ever were. */
  lemma AccountingConserved(limit: nat, acts: seq<Action>)
    requires limit >= 1 && Possible(Start(limit), acts)
    ensures var s := Outcome(Start(limit), acts);
            && (forall address :: Counter(s.perIp, address) == |From(s.conns, address)| <= limit)
            && (forall address :: address in s.perIp ==> s.perIp[address] > 0)
            && (forall id :: id in s.active <==> id in s.conns && s.conns[id].phase.Active?)
            && s.published == |s.active| && s.peak == MostActive(Start(limit), acts)
  {
    var s0 := Start(limit);
    assert forall address :: From(s0.conns, address) == {};
    RunConserves(s0, acts);
  }

  /** A session which leaves can always be released: its address still has an entry. */
  lemma ReleaseFindsItsEntry(limit: nat, acts: seq<Action>, id: Id)
    requires limit >= 1 && Possible(Start(limit), acts)
    requires var s := Outcome(Start(limit), acts); id in s.conns && s.conns[id].phase.Leaving?
    ensures Enabled(Outcome(Start(limit), acts), Release(id))
  {
    AccountingConserved(limit, acts);
    var s := Outcome(Start(limit), acts);
    var address := s.conns[id].address;
    assert id in From(s.conns, address);
    assert Counter(s.perIp, address) == |From(s.conns, address)|;
  }

  /** A connection is admitted exactly if its address has fewer than the limit which are not released;
      otherwise no connection changes. */
  lemma AdmittedIff(limit: nat, acts: seq<Action>, id: Id, address: string)
    requires limit >= 1 && Possible(Start(limit), acts) && id !in Outcome(Start(limit), acts).conns
    ensures var s := Outcome(Start(limit), acts);
            After(s, Accept(id, address)).conns ==
            if |From(s.conns, address)| < limit then s.conns[id := Conn(address, Accepted)] else s.conns
  {
    AccountingConserved(limit, acts);
    var s := Outcome(Start(limit), acts);
    assert Counter(s.perIp, address) == |From(s.conns, address)|;
    SameLimit(Start(limit), acts);
  }

  lemma {:induction false} SameLimit(s: State, acts: seq<Action>)
    requires Possible(s, acts)
    ensures Outcome(s, acts).limit == s.limit
    decreases |acts|
  {
    if acts != [] { SameLimit(After(s, acts[0]), acts[1..]); }
  }

  /** A limit of zero leaves entries of zero behind: every address which connects gets one. */
  lemma ZeroLimitLeavesEntries(id: Id, address: string)
    ensures Possible(Start(0), [Accept(id, address)])
    ensures Outcome(Start(0), [Accept(id, address)]).perIp == map[address := 0]
  {
    assert Possible(After(Start(0), Accept(id, address)), []);
    assert [Accept(id, address)][1..] == [];
  }
}
