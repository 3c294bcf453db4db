/** Event ids of sockets (NetworkState in src/net/poll.rs).  The poller itself is a parameter. */
module Poll {
  import opened Prelude
  import Positional

  // ---- the circular probe ----

  function Next(id: nat, capacity: nat): (n: nat)
    requires capacity > 0
    ensures n < capacity
  {
    (id + 1) % capacity
  }

  /** The id examined after `n` steps from `cur`. */
  function ProbeAt(cur: nat, n: nat, capacity: nat): (id: nat)
    requires capacity > 0
    ensures id < capacity || (n == 0 && id == cur)
  {
    if n == 0 then cur else Next(ProbeAt(cur, n - 1, capacity), capacity)
  }

  lemma {:induction false} ProbeForm(cur: nat, n: nat, capacity: nat)
    requires cur < capacity
    ensures ProbeAt(cur, n, capacity) == (cur + n) % capacity
  {
    if n > 0 {
      ProbeForm(cur, n - 1, capacity);
      OneOn(cur + n - 1, capacity);
    }
  }

  lemma OneOn(x: nat, capacity: nat)
    requires capacity > 0
    ensures (x % capacity + 1) % capacity == (x + 1) % capacity
  {
    var q, r := x / capacity, x % capacity;
    Positional.DivMod(x, capacity);
    if r + 1 < capacity {
      Positional.DivModUnique(q, capacity, r + 1);
    } else {
      Positional.Distribute(capacity, q, 1);
      Positional.DivModUnique(q + 1, capacity, 0);
    }
  }

  lemma {:induction false} ProbeSum(cur: nat, m: nat, n: nat, capacity: nat)
    requires capacity > 0
    ensures ProbeAt(cur, m + n, capacity) == ProbeAt(ProbeAt(cur, m, capacity), n, capacity)
  {
    hide Next;
    if n > 0 {
      ProbeSum(cur, m, n - 1, capacity);
    }
  }

  /** After `n` steps, at most once around, the probe first meets a free id. */
  ghost predicate FoundAfter(cur: nat, n: nat, used: set<nat>, capacity: nat, ret: nat)
    requires capacity > 0
  {
    && n <= capacity && ret == ProbeAt(cur, n, capacity) && ret !in used
    && forall m: nat :: m < n ==> ProbeAt(cur, m, capacity) in used
  }

  lemma ReachesFromBelow(cur: nat, id: nat, capacity: nat) returns (n: nat)
    requires id < capacity && cur < capacity
    ensures n < capacity && ProbeAt(cur, n, capacity) == id
  {
    n := if id >= cur then id - cur else id + capacity - cur;
    ProbeForm(cur, n, capacity);
    Positional.DivModUnique(if id >= cur then 0 else 1, capacity, id);
  }

  /** Every id below the capacity is examined within `capacity` steps. */
  lemma ProbeReaches(cur: nat, id: nat, capacity: nat) returns (n: nat)
    requires id < capacity
    ensures n <= capacity && ProbeAt(cur, n, capacity) == id
  {
    if cur < capacity {
      n := ReachesFromBelow(cur, id, capacity);
    } else {
      assert ProbeAt(cur, 1, capacity) == Next(cur, capacity);
      n := ReachesFromBelow(Next(cur, capacity), id, capacity);
      ProbeSum(cur, 1, n, capacity);
      n := 1 + n;
    }
  }

  /** The probe finds something exactly when its start, or some id below the capacity, is free. */
  lemma ProbeEndsIff(cur: nat, used: set<nat>, capacity: nat)
    requires capacity > 0
    ensures (exists n: nat :: ProbeAt(cur, n, capacity) !in used)
       <==> cur !in used || exists id: nat :: id < capacity && id !in used
  {
    if cur !in used {
      assert ProbeAt(cur, 0, capacity) !in used;
    } else if id: nat :| id < capacity && id !in used {
      var n := ProbeReaches(cur, id, capacity);
    }
  }

  // ---- free ids ----

  function FreeIds(used: set<nat>, capacity: nat): (s: set<nat>)
  {
    set id | 0 <= id < capacity && id !in used
  }

  lemma {:induction false} AllIds(capacity: nat)
    ensures |FreeIds({}, capacity)| == capacity
  {
    if capacity == 0 {
      assert FreeIds({}, 0) == {};
    } else {
      AllIds(capacity - 1);
      assert FreeIds({}, capacity) == FreeIds({}, capacity - 1) + {capacity - 1};
    }
  }

  /** Pigeonhole: fewer ids in use than the capacity leave that many free, at least. */
  lemma Pigeonhole(used: set<nat>, capacity: nat)
    ensures |FreeIds(used, capacity)| >= capacity - |used|
  {
    AllIds(capacity);
    var all, free := FreeIds({}, capacity), FreeIds(used, capacity);
    SubsetSize(all - free, used);
    assert all == free + (all - free);
  }

  lemma NotEmpty(s: set<nat>)
    requires |s| > 0
    ensures s != {}
  {
  }

  lemma TakeOne(keys: set<nat>, taken: set<nat>, id: nat, capacity: nat)
    ensures |FreeIds(keys + (taken + {id}), capacity)| >= |FreeIds(keys + taken, capacity)| - 1
  {
    var before, after := FreeIds(keys + taken, capacity), FreeIds(keys + (taken + {id}), capacity);
    assert before == after + (if id in before then {id} else {});
  }

  // ---- the state ----

  /** A ready event: connections to accept on a server, and whether accepting then fails, or any other event. */
  datatype Ready = Server(id: nat, accepts: nat, fails: bool) | Socket(id: nat)

  datatype PollState = PollState(incoming: set<nat>, ready: seq<nat>)

  datatype PollError = AcceptError

  datatype Polled = Polled(states: map<nat, PollState>, newEvents: set<nat>) | Refused(error: PollError) | Crashed

  function Accepts(events: seq<Ready>): (n: nat)
  {
    if events == [] then 0 else
    var last := |events| - 1;
    Accepts(events[..last]) + if events[last].Server? then events[last].accepts else 0
  }

  lemma {:induction false} AcceptsPrefix(events: seq<Ready>, i: nat)
    requires i <= |events|
    ensures Accepts(events[..i]) <= Accepts(events)
    decreases |events| - i
  {
    if i == |events| {
      Split(events, i);
    } else {
      AcceptsPrefix(events, i + 1);
      assert events[..i + 1][..i] == events[..i];
    }
  }

  /** A call ends early at a failure to accept, and panics at an event of no socket or of a socket of no server. */
  predicate Stops(e: Ready, servers: seq<nat>, eventMap: map<nat, nat>) {
    if e.Server? then e.fails else e.id !in eventMap || eventMap[e.id] !in servers
  }

  ghost predicate FirstStop(events: seq<Ready>, servers: seq<nat>, eventMap: map<nat, nat>, i: int) {
    && 0 <= i < |events| && Stops(events[i], servers, eventMap)
    && forall j :: 0 <= j < i ==> !Stops(events[j], servers, eventMap)
  }

  lemma AcceptsStep(events: seq<Ready>, i: nat)
    requires i < |events|
    ensures Accepts(events[..i + 1]) == Accepts(events[..i]) + if events[i].Server? then events[i].accepts else 0
  {
    assert events[..i + 1][..i] == events[..i];
  }

  lemma ReadyStep(events: seq<Ready>, i: nat, eventMap: map<nat, nat>, server: nat)
    requires i < |events|
    ensures ReadyOf(events[..i + 1], eventMap, server)
         == ReadyOf(events[..i], eventMap, server) + Wakes(events[i], eventMap, server)
  {
    assert events[..i + 1][..i] == events[..i];
  }

  function Wakes(e: Ready, eventMap: map<nat, nat>, server: nat): (s: seq<nat>)
  {
    if e.Socket? && e.id in eventMap && eventMap[e.id] == server then [e.id] else []
  }

  /** The sockets of a server among the events, in order. */
  function ReadyOf(events: seq<Ready>, eventMap: map<nat, nat>, server: nat): (s: seq<nat>)
  {
    if events == [] then [] else
    var last := |events| - 1;
    ReadyOf(events[..last], eventMap, server) + Wakes(events[last], eventMap, server)
  }

  /** The ids issued for a server. */
  ghost function IssuedFor(owner: map<nat, nat>, server: nat): (s: set<nat>)
  {
    set e | e in owner && owner[e] == server
  }

  ghost function Issue(owner: map<nat, nat>, issued: set<nat>, server: nat): (m: map<nat, nat>)
  {
    owner + map e | e in issued :: server
  }

  /**
   What a call reports of the events it has seen; `owner` says which server each new id was
   issued for, so no id is issued twice.
   */
  ghost predicate Reported(servers: seq<nat>, eventMap: map<nat, nat>, states: map<nat, PollState>,
                           owner: map<nat, nat>, events: seq<Ready>)
  {
    && states.Keys == (set s | s in servers)
    && owner.Keys !! eventMap.Keys && |owner.Keys| == Accepts(events)
    && (forall e :: e in owner ==> owner[e] in servers)
    && (forall s :: s in states ==> states[s].incoming == IssuedFor(owner, s))
    && (forall s :: s in states ==> states[s].ready == ReadyOf(events, eventMap, s))
  }

  lemma ReportedServers(servers: seq<nat>, eventMap: map<nat, nat>, states: map<nat, PollState>, owner: map<nat, nat>,
                        events: seq<Ready>)
    requires Reported(servers, eventMap, states, owner, events)
    ensures forall s :: s in states <==> s in servers
  {
  }

  lemma NothingReported(servers: seq<nat>, eventMap: map<nat, nat>, events: seq<Ready>)
    ensures Reported(servers, eventMap, map s | s in servers :: PollState({}, []), map[], events[..0])
    ensures eventMap.Keys + {} == eventMap.Keys && Accepts(events[..0]) == 0 && events[..|events|] == events
  {
  }

  lemma IssueKeys(owner: map<nat, nat>, issued: set<nat>, server: nat)
    requires issued !! owner.Keys
    ensures Issue(owner, issued, server).Keys == owner.Keys + issued
    ensures |owner.Keys + issued| == |owner.Keys| + |issued|
  {
  }

  lemma IssueFor(owner: map<nat, nat>, issued: set<nat>, server: nat, s: nat)
    requires issued !! owner.Keys
    ensures IssuedFor(Issue(owner, issued, server), s) ==
      if s == server then IssuedFor(owner, s) + issued else IssuedFor(owner, s)
  {
  }

  lemma ReportAccepted(servers: seq<nat>, eventMap: map<nat, nat>, states: map<nat, PollState>, owner: map<nat, nat>,
                       events: seq<Ready>, i: nat, issued: set<nat>)
    requires i < |events| && Reported(servers, eventMap, states, owner, events[..i])
    requires events[i].Server? && events[i].id in servers
    requires issued !! owner.Keys && issued !! eventMap.Keys && |issued| == events[i].accepts
    ensures var id := events[i].id;
      Reported(servers, eventMap, states[id := states[id].(incoming := states[id].incoming + issued)],
               Issue(owner, issued, id), events[..i + 1])
  {
    hide Accepts, ReadyOf, IssuedFor;
    AcceptsStep(events, i);
    var id := events[i].id;
    IssueKeys(owner, issued, id);
    var states' := states[id := states[id].(incoming := states[id].incoming + issued)];
    forall s | s in states'
      ensures states'[s].ready == ReadyOf(events[..i + 1], eventMap, s)
      ensures states'[s].incoming == IssuedFor(Issue(owner, issued, id), s)
    {
      ReadyStep(events, i, eventMap, s);
      IssueFor(owner, issued, id, s);
    }
  }

  lemma ReportReady(servers: seq<nat>, eventMap: map<nat, nat>, states: map<nat, PollState>, owner: map<nat, nat>,
                    events: seq<Ready>, i: nat)
    requires i < |events| && Reported(servers, eventMap, states, owner, events[..i])
    requires events[i].Socket? && events[i].id in eventMap && eventMap[events[i].id] in servers
    ensures var server := eventMap[events[i].id];
      Reported(servers, eventMap, states[server := states[server].(ready := states[server].ready + [events[i].id])],
               owner, events[..i + 1])
  {
    hide Accepts, ReadyOf, IssuedFor;
    AcceptsStep(events, i);
    forall s | s in states
      ensures ReadyOf(events[..i + 1], eventMap, s) == ReadyOf(events[..i], eventMap, s) + Wakes(events[i], eventMap, s)
    {
      ReadyStep(events, i, eventMap, s);
    }
  }

  // ---- handles over whole runs ----

  datatype Net = Net(capacity: nat, servers: seq<nat>, count: nat, eventMap: map<nat, nat>)

  /** What always holds: servers are distinct, registered, and mapped to 0. */
  ghost predicate Sound(n: Net) {
    && n.capacity > 0 && NoDups(n.servers)
    && (forall s :: s in n.servers ==> s in n.eventMap && n.eventMap[s] == 0)
  }

  /** Every event is a server or belongs to one. */
  ghost predicate Owned(n: Net) {
    forall e :: e in n.eventMap && e !in n.servers ==> n.eventMap[e] in n.servers
  }

  /** Being mapped to 0, which is what registration asserts of a server, tells servers apart from sockets. */
  ghost predicate Marked(n: Net) {
    forall e :: e in n.eventMap ==> (n.eventMap[e] == 0 <==> e in n.servers)
  }

  datatype Op =
    | Bind(id: nat)
    | IssueId(id: nat)
    | Register(server: nat, id: nat)
    | Deregister(id: nat)
    | Poll(count: nat)

  ghost predicate IsNext(n: Net, id: nat)
    requires n.capacity > 0
  {
    exists k: nat :: FoundAfter(n.count, k, n.eventMap.Keys, n.capacity, id)
  }

  /** An id is the next free one, or what is asserted of the arguments holds. */
  ghost predicate Passes(n: Net, op: Op)
    requires n.capacity > 0
  {
    match op
    case Bind(id) => IsNext(n, id)
    case IssueId(id) => IsNext(n, id)
    case Register(server, id) => server in n.eventMap && n.eventMap[server] == 0 && id !in n.eventMap
    case Deregister(id) => id !in n.servers
    case Poll(_) => true
  }

  function Apply(n: Net, op: Op): (n': Net)
    requires n.capacity > 0
  {
    match op
    case Bind(id) => Net(n.capacity, n.servers + [id], Next(id, n.capacity), n.eventMap[id := 0])
    case IssueId(id) => n.(count := Next(id, n.capacity))
    case Register(server, id) => n.(eventMap := n.eventMap[id := server])
    case Deregister(id) => n.(eventMap := n.eventMap - {id})
    case Poll(count) => n.(count := count)
  }

  /** One operation that passes the assertions made on it. */
  ghost predicate Steps(n: Net, op: Op, n': Net)
    requires n.capacity > 0
  {
    Passes(n, op) && n' == Apply(n, op)
  }

  predicate OnHandleZero(op: Op) {
    op.Register? && op.server == 0
  }

  lemma StepKeeps(n: Net, op: Op, n': Net)
    requires Sound(n) && Steps(n, op, n')
    ensures Sound(n')
    ensures Marked(n) && Owned(n) && !OnHandleZero(op) ==> Marked(n') && Owned(n')
    ensures OnHandleZero(op) ==> !Marked(n')
  {
    hide FoundAfter;
    if op.Bind? {
      NextIsFree(n, op.id);
    } else if op.Register? {
      assert op.id in n'.eventMap && op.id !in n.servers;
    }
  }

  lemma NextIsFree(n: Net, id: nat)
    requires n.capacity > 0 && IsNext(n, id)
    ensures id !in n.eventMap
  {
  }

  ghost predicate IsRun(run: seq<Net>, ops: seq<Op>) {
    && |run| == |ops| + 1
    && run[0].capacity > 0 && run[0] == Net(run[0].capacity, [], 1, map[])
    && forall i :: 0 <= i < |ops| ==> run[i].capacity > 0 && Steps(run[i], ops[i], run[i + 1])
  }

  lemma {:induction false} RunKeeps(run: seq<Net>, ops: seq<Op>, i: nat)
    requires IsRun(run, ops) && i < |run|
    ensures Sound(run[i])
    ensures (forall j :: 0 <= j < i ==> !OnHandleZero(ops[j])) ==> Marked(run[i]) && Owned(run[i])
  {
    hide Sound, Owned, Marked, Steps;
    if i == 0 {
      FreshSound(run[0].capacity);
    } else {
      RunKeeps(run, ops, i - 1);
      StepKeeps(run[i - 1], ops[i - 1], run[i]);
    }
  }

  lemma FreshSound(capacity: nat)
    requires capacity > 0
    ensures var n := Net(capacity, [], 1, map[]); Sound(n) && Marked(n) && Owned(n)
  {
  }

  /**
   Over any run from the start, the assertion made on a server handle accepts servers and only
   servers throughout exactly when no call registers a socket on handle 0; and then every
   socket belongs to a server throughout, so that no event of a socket makes a poll panic.
   */
  lemma MarkedIffNoHandleZero(run: seq<Net>, ops: seq<Op>)
    requires IsRun(run, ops)
    ensures (forall i :: 0 <= i < |run| ==> Marked(run[i])) <==> forall j :: 0 <= j < |ops| ==> !OnHandleZero(ops[j])
    ensures (forall j :: 0 <= j < |ops| ==> !OnHandleZero(ops[j])) ==> forall i :: 0 <= i < |run| ==> Owned(run[i])
  {
    hide Sound, Owned, Marked, Steps;
    forall i | 0 <= i < |run|
      ensures (forall j :: 0 <= j < i ==> !OnHandleZero(ops[j])) ==> Marked(run[i]) && Owned(run[i])
    {
      RunKeeps(run, ops, i);
    }
    forall j | 0 <= j < |ops| && OnHandleZero(ops[j])
      ensures !Marked(run[j + 1])
    {
      RunKeeps(run, ops, j);
      StepKeeps(run[j], ops[j], run[j + 1]);
    }
  }

  lemma CountIsNext(n: Net)
    requires n.capacity > 0 && n.count !in n.eventMap
    ensures IsNext(n, n.count)
  {
    assert FoundAfter(n.count, 0, n.eventMap.Keys, n.capacity, n.count);
  }

  lemma OnePastIsNext(n: Net)
    requires n.capacity > 0 && n.count in n.eventMap && Next(n.count, n.capacity) !in n.eventMap
    ensures IsNext(n, Next(n.count, n.capacity))
  {
    assert ProbeAt(n.count, 1, n.capacity) == Next(ProbeAt(n.count, 0, n.capacity), n.capacity);
    assert FoundAfter(n.count, 1, n.eventMap.Keys, n.capacity, Next(n.count, n.capacity));
  }

  ghost predicate EndsAt(run: seq<Net>, ops: seq<Op>, n: Net) {
    IsRun(run, ops) && run[|ops|] == n
  }

  lemma RunOn(run: seq<Net>, ops: seq<Op>, n: Net, op: Op) returns (run': seq<Net>, ops': seq<Op>, n': Net)
    requires EndsAt(run, ops, n) && n.capacity > 0 && Passes(n, op)
    ensures n' == Apply(n, op) && EndsAt(run', ops', n')
  {
    hide Passes, Apply;
    n' := Apply(n, op);
    run', ops' := run + [n'], ops + [op];
    forall i | 0 <= i < |ops'| ensures run'[i].capacity > 0 && Steps(run'[i], ops'[i], run'[i + 1]) {
      assert i < |ops| ==> run'[i] == run[i] && ops'[i] == ops[i] && run'[i + 1] == run[i + 1];
    }
  }

  lemma FreshRun(n: Net)
    requires n.capacity > 0 && n == Net(n.capacity, [], 1, map[])
    ensures EndsAt([n], [], n)
  {
  }

  /** With room for four ids, the second server bound can be numbered 0. */
  lemma ServerZero() returns (run: seq<Net>, ops: seq<Op>, n: Net)
    ensures n == Net(4, [1, 0], 1, map[1 := 0, 0 := 0]) && EndsAt(run, ops, n)
  {
    hide IsNext, EndsAt;
    n := Net(4, [], 1, map[]);
    FreshRun(n);
    CountIsNext(n);
    run, ops, n := RunOn([n], [], n, Bind(1));
    CountIsNext(n);
    run, ops, n := RunOn(run, ops, n, IssueId(2));
    CountIsNext(n);
    run, ops, n := RunOn(run, ops, n, IssueId(3));
    CountIsNext(n);
    run, ops, n := RunOn(run, ops, n, Bind(0));
  }

  /** A socket registered on it is mapped to 0, so a further socket can be registered on that one. */
  lemma SocketsOfZero() returns (run: seq<Net>, ops: seq<Op>, n: Net)
    ensures n == Net(4, [1, 0], 0, map[1 := 0, 0 := 0, 2 := 0, 3 := 2]) && EndsAt(run, ops, n)
  {
    hide IsNext, EndsAt;
    run, ops, n := ServerZero();
    OnePastIsNext(n);
    run, ops, n := RunOn(run, ops, n, IssueId(2));
    run, ops, n := RunOn(run, ops, n, Register(0, 2));
    CountIsNext(n);
    run, ops, n := RunOn(run, ops, n, IssueId(3));
    run, ops, n := RunOn(run, ops, n, Register(2, 3));
  }

  /** Such runs exist: a socket passes for a server, and another belongs to none. */
  lemma HandleZeroMisleads() returns (run: seq<Net>, ops: seq<Op>)
    ensures IsRun(run, ops) && !Marked(run[|ops|]) && !Owned(run[|ops|])
    ensures 3 in run[|ops|].eventMap && Stops(Socket(3), run[|ops|].servers, run[|ops|].eventMap)
  {
    hide Steps;
    var n;
    run, ops, n := SocketsOfZero();
    assert 2 in n.eventMap && n.eventMap[2] == 0 && n.eventMap[3] == 2 && 2 !in n.servers;
  }

  class NetworkState {
    const eventCapacity: nat
    var servers: seq<nat>
    var count: nat
    var eventMap: map<nat, nat>

    constructor (eventCapacity: nat)
      requires eventCapacity > 0
      ensures Valid() && Now() == Net(eventCapacity, [], 1, map[])
    {
      this.eventCapacity := eventCapacity;
      servers, count, eventMap := [], 1, map[];
    }

    ghost function Now(): (n: Net)
      reads this
    {
      Net(eventCapacity, servers, count, eventMap)
    }

    ghost predicate Valid()
      reads this
    {
      Sound(Now())
    }

    /** The first free id on the circle from `curCount`, found within `eventCapacity` steps. */
    method MakeNextEventId(curCount: nat, inUse: set<nat>) returns (ret: nat)
      requires eventCapacity > 0 && FreeIds(eventMap.Keys + inUse, eventCapacity) != {}
      ensures ret !in eventMap && ret !in inUse
      ensures exists n: nat :: FoundAfter(curCount, n, eventMap.Keys + inUse, eventCapacity, ret)
    {
      ghost var id :| id in FreeIds(eventMap.Keys + inUse, eventCapacity);
      ghost var bound := ProbeReaches(curCount, id, eventCapacity);
      ghost var n: nat := 0;
      ret := curCount;
      while ret in eventMap || ret in inUse
        invariant n <= bound && ret == ProbeAt(curCount, n, eventCapacity)
        invariant forall m: nat :: m < n ==> ProbeAt(curCount, m, eventCapacity) in eventMap.Keys + inUse
        decreases bound - n
      {
        ret := Next(ret, eventCapacity);
        n := n + 1;
      }
      assert FoundAfter(curCount, n, eventMap.Keys + inUse, eventCapacity, ret);
    }

    method NextEventId() returns (ret: nat)
      requires Valid() && FreeIds(eventMap.Keys, eventCapacity) != {}
      modifies this`count
      ensures Valid() && Steps(old(Now()), Op.IssueId(ret), Now())
    {
      assert eventMap.Keys + {} == eventMap.Keys;
      ret := MakeNextEventId(count, {});
      count := Next(ret, eventCapacity);
    }

    method Bind() returns (serverEvent: nat)
      requires Valid() && FreeIds(eventMap.Keys, eventCapacity) != {}
      modifies this
      ensures Valid() && Steps(old(Now()), Op.Bind(serverEvent), Now())
    {
      serverEvent := NextEventId();
      NextIsFree(old(Now()), serverEvent);
      assert serverEvent !in eventMap;
      servers := servers + [serverEvent];
      eventMap := eventMap[serverEvent := 0];
      StepKeeps(old(Now()), Op.Bind(serverEvent), Now());
    }

    method Register(serverEventId: nat, eventId: nat)
      requires Valid() && serverEventId in eventMap && eventMap[serverEventId] == 0 && eventId !in eventMap
      modifies this`eventMap
      ensures Valid() && Steps(old(Now()), Op.Register(serverEventId, eventId), Now())
    {
      eventMap := eventMap[eventId := serverEventId];
      StepKeeps(old(Now()), Op.Register(serverEventId, eventId), Now());
    }

    method Deregister(eventId: nat)
      requires Valid() && eventId !in servers
      modifies this`eventMap
      ensures Valid() && Steps(old(Now()), Op.Deregister(eventId), Now())
    {
      eventMap := eventMap - {eventId};
      StepKeeps(old(Now()), Op.Deregister(eventId), Now());
    }

    /** Give an id to each connection accepted on one server. */
    method AcceptAll(accepts: nat, newEvents: set<nat>) returns (issued: set<nat>)
      requires Valid() && accepts <= |FreeIds(eventMap.Keys + newEvents, eventCapacity)|
      modifies this`count
      ensures Valid() && |issued| == accepts && issued !! newEvents && issued !! eventMap.Keys
      ensures |FreeIds(eventMap.Keys + (newEvents + issued), eventCapacity)|
           >= |FreeIds(eventMap.Keys + newEvents, eventCapacity)| - accepts
    {
      hide FreeIds, FoundAfter, Next;
      issued := {};
      var taken := newEvents;
      for i := 0 to accepts
        invariant |issued| == i && issued !! newEvents && issued !! eventMap.Keys && taken == newEvents + issued
        invariant |FreeIds(eventMap.Keys + taken, eventCapacity)|
               >= |FreeIds(eventMap.Keys + newEvents, eventCapacity)| - i
      {
        NotEmpty(FreeIds(eventMap.Keys + taken, eventCapacity));
        var id := MakeNextEventId(count, taken);
        count := Next(id, eventCapacity);
        TakeOne(eventMap.Keys, taken, id, eventCapacity);
        taken := taken + {id};
        issued := issued + {id};
      }
    }

    /**
     Every connection accepted in one call gets its own id, registered to no socket, and every
     readable socket is reported, in order, to the server it belongs to.  The call goes through
     unless an event stops it, and does not panic over a socket if every one belongs to a server.
     */
    method PollOnce(events: seq<Ready>) returns (r: Polled, ghost owner: map<nat, nat>)
      requires Valid() && forall i :: 0 <= i < |events| ==> (events[i].Server? <==> events[i].id in servers)
      requires Accepts(events) <= |FreeIds(eventMap.Keys, eventCapacity)|
      modifies this`count
      ensures Valid() && Steps(old(Now()), Op.Poll(count), Now())
      ensures r.Polled? <==> forall i :: 0 <= i < |events| ==> !Stops(events[i], servers, eventMap)
      ensures r.Polled? ==> r.newEvents == owner.Keys && Reported(servers, eventMap, r.states, owner, events)
      ensures !r.Polled? ==>
        exists i :: FirstStop(events, servers, eventMap, i) &&
          r == if events[i].Server? then Refused(AcceptError) else Crashed
      ensures Owned(Now()) && (forall i :: 0 <= i < |events| ==> events[i].id in eventMap) ==> !r.Crashed?
    {
      var states: map<nat, PollState> := map s | s in servers :: PollState({}, []);
      var newEvents: set<nat> := {};
      owner := map[];
      hide Reported, FreeIds, ReadyOf, Issue, Accepts, Sound;
      NothingReported(servers, eventMap, events);
      for i := 0 to |events|
        invariant Valid() && newEvents == owner.Keys
        invariant Reported(servers, eventMap, states, owner, events[..i])
        invariant |FreeIds(eventMap.Keys + newEvents, eventCapacity)| >= Accepts(events) - Accepts(events[..i])
        invariant forall j :: 0 <= j < i ==> !Stops(events[j], servers, eventMap)
      {
        var stopped;
        states, newEvents, stopped, owner := HandleEvent(events, i, states, newEvents, owner);
        if stopped {
          assert FirstStop(events, servers, eventMap, i);
          return if events[i].Server? then Refused(AcceptError) else Crashed, owner;
        }
      }
      r := Polled(states, newEvents);
    }

    method HandleEvent(events: seq<Ready>, i: nat, states: map<nat, PollState>, newEvents: set<nat>,
                       ghost owner: map<nat, nat>)
      returns (states': map<nat, PollState>, newEvents': set<nat>, stopped: bool, ghost owner': map<nat, nat>)
      requires Valid() && i < |events| && newEvents == owner.Keys
      requires Reported(servers, eventMap, states, owner, events[..i])
      requires events[i].Server? <==> events[i].id in servers
      requires |FreeIds(eventMap.Keys + newEvents, eventCapacity)| >= Accepts(events) - Accepts(events[..i])
      modifies this`count
      ensures Valid() && (stopped <==> Stops(events[i], servers, eventMap))
      ensures !stopped ==>
        && newEvents' == owner'.Keys && Reported(servers, eventMap, states', owner', events[..i + 1])
        && |FreeIds(eventMap.Keys + newEvents', eventCapacity)| >= Accepts(events) - Accepts(events[..i + 1])
    {
      hide Reported, FreeIds, ReadyOf, Issue, Accepts, Sound;
      ReportedServers(servers, eventMap, states, owner, events[..i]);
      AcceptsStep(events, i);
      AcceptsPrefix(events, i + 1);
      states', newEvents', stopped, owner' := states, newEvents, false, owner;
      match events[i]
      case Server(id, accepts, fails) =>
        var issued := AcceptAll(accepts, newEvents);
        if fails {
          stopped := true;
          return;
        }
        ReportAccepted(servers, eventMap, states, owner, events, i, issued);
        IssueKeys(owner, issued, id);
        states' := states[id := states[id].(incoming := states[id].incoming + issued)];
        newEvents', owner' := newEvents + issued, Issue(owner, issued, id);
      case Socket(id) =>
        if id !in eventMap || eventMap[id] !in states {
          stopped := true;
          return;
        }
        ReportReady(servers, eventMap, states, owner, events, i);
        var server := eventMap[id];
        states' := states[server := states[server].(ready := states[server].ready + [id])];
    }
  }
}
