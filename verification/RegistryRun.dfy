// Every interleaving of `connect` and `do_task` handlers over the registry (src/server/mod.rs), each lock
// section a step of its own.
module RegistryRun {
  import opened Common
  import opened Schema
  import opened Registry

  /** A `connect` handler: called, with an id, registered, and unregistered when its stream ends. */
  datatype ConnPhase = Called | Numbered(id: u32) | Registered(id: u32) | Gone(id: u32)

  datatype Conn = Conn(metadata: Metadata, phase: ConnPhase)

  /** A `do_task` handler for a ping: called, with a channel, with a task id, and answered. */
  datatype ReqPhase = Asked | Found(to: nat) | Assigned(to: nat, id: u32) | Answered(ack: Ack)

  datatype Request = Request(schedule: ScheduleTask, phase: ReqPhase)

  /** A task that a channel took. */
  datatype Placement = Placement(request: nat, to: nat, task: Task)

  /** `connIds` and `taskIds` are the histories of ids issued. */
  datatype State = State(
    conns: seq<Conn>,
    connections: Connections,
    connectionId: u32,
    connIds: seq<u32>,
    requests: seq<Request>,
    currentTaskId: u32,
    taskIds: seq<u32>,
    placed: seq<Placement>)

  datatype Step =
    | Connect(metadata: Metadata)
    | Generate(conn: nat)
    | Register(conn: nat)
    | Unregister(conn: nat)
    | DoTask(schedule: ScheduleTask)
    | Lookup(request: nat, found: Option<u32>)
    | TakeId(request: nat)
    | SendTask(request: nat, ok: bool)

  const START := State([], map[], 0, [], [], 0, [], [])

  /** A look-up may find any connection that matches, and fails only when none does. */
  ghost predicate Finds(connections: Connections, req: ScheduleTask, found: Option<u32>) {
    if found.Some? then found.value in connections && Matches(req, found.value, connections[found.value].metadata)
    else !Reachable(req, connections)
  }

  ghost predicate Enabled(s: State, e: Step) {
    match e
    case Connect(_) => true
    case Generate(c) => c < |s.conns| && s.conns[c].phase.Called?
    case Register(c) => c < |s.conns| && s.conns[c].phase.Numbered?
    case Unregister(c) => c < |s.conns| && s.conns[c].phase.Registered?
    case DoTask(schedule) => schedule.ping.Some?
    case Lookup(r, found) =>
      r < |s.requests| && s.requests[r].phase.Asked? && Finds(s.connections, s.requests[r].schedule, found)
    case TakeId(r) => r < |s.requests| && s.requests[r].phase.Found?
    case SendTask(r, _) => r < |s.requests| && s.requests[r].phase.Assigned?
  }

  function ConnIn(conns: seq<Conn>, c: nat, phase: ConnPhase): seq<Conn>
    requires c < |conns|
  {
    conns[c := conns[c].(phase := phase)]
  }

  function ReqIn(requests: seq<Request>, r: nat, phase: ReqPhase): seq<Request>
    requires r < |requests|
  {
    requests[r := requests[r].(phase := phase)]
  }

  function Reply(id: u32, ok: bool): Ack {
    if ok then Ack(id, true, "") else Ack(id, false, "client exists, but was unable to send task")
  }

  function AfterGenerate(s: State, c: nat): State
    requires c < |s.conns|
  {
    var id := Add32(s.connectionId, 1);
    s.(connectionId := id, connIds := s.connIds + [id], conns := ConnIn(s.conns, c, Numbered(id)))
  }

  function AfterRegister(s: State, c: nat): State
    requires c < |s.conns| && s.conns[c].phase.Numbered?
  {
    var id := s.conns[c].phase.id;
    s.(connections := s.connections[id := Connection(c, s.conns[c].metadata)], conns := ConnIn(s.conns, c, Registered(id)))
  }

  function AfterUnregister(s: State, c: nat): State
    requires c < |s.conns| && s.conns[c].phase.Registered?
  {
    var id := s.conns[c].phase.id;
    s.(connections := s.connections - {id}, conns := ConnIn(s.conns, c, Gone(id)))
  }

  function AfterLookup(s: State, r: nat, found: Option<u32>): State
    requires r < |s.requests| && (found.Some? ==> found.value in s.connections)
  {
    var phase := if found.Some? then Found(s.connections[found.value].channel)
                 else Answered(Ack(0, false, "client does not exist"));
    s.(requests := ReqIn(s.requests, r, phase))
  }

  function AfterTakeId(s: State, r: nat): State
    requires r < |s.requests| && s.requests[r].phase.Found?
  {
    var id := s.currentTaskId;
    s.(currentTaskId := Add32(id, 1), taskIds := s.taskIds + [id],
       requests := ReqIn(s.requests, r, Assigned(s.requests[r].phase.to, id)))
  }

  function AfterSendTask(s: State, r: nat, ok: bool): State
    requires r < |s.requests| && s.requests[r].phase.Assigned?
  {
    var to, id := s.requests[r].phase.to, s.requests[r].phase.id;
    s.(requests := ReqIn(s.requests, r, Answered(Reply(id, ok))),
       placed := if ok then s.placed + [Placement(r, to, Task(id, s.requests[r].schedule.ping))] else s.placed)
  }

  function Next(s: State, e: Step): State
    requires Enabled(s, e)
  {
    match e
    case Connect(metadata) => s.(conns := s.conns + [Conn(metadata, Called)])
    case Generate(c) => AfterGenerate(s, c)
    case Register(c) => AfterRegister(s, c)
    case Unregister(c) => AfterUnregister(s, c)
    case DoTask(schedule) => s.(requests := s.requests + [Request(schedule, Asked)])
    case Lookup(r, found) => AfterLookup(s, r, found)
    case TakeId(r) => AfterTakeId(s, r)
    case SendTask(r, ok) => AfterSendTask(s, r, ok)
  }

  ghost function Run(es: seq<Step>): Option<State> {
    if es == [] then Some(START)
    else
      var s := Run(es[..|es| - 1]);
      if s.Some? && Enabled(s.value, es[|es| - 1]) then Some(Next(s.value, es[|es| - 1])) else None
  }

  // ----- ids -----

  ghost predicate Distinct(ids: seq<u32>) {
    forall k, l :: 0 <= k < l < |ids| ==> ids[k] != ids[l]
  }

  /** ids that count up from `first` and wrap around. */
  ghost predicate Counting(ids: seq<u32>, first: nat) {
    forall k :: 0 <= k < |ids| ==> ids[k] == (first + k) % TWO32
  }

  lemma {:induction false} SameRemainder(x: nat, y: nat)
    requires x < y
    ensures x % TWO32 == y % TWO32 <==> (y - x) % TWO32 == 0
  {
    var q, r := x / TWO32, x % TWO32;
    var p, t := y / TWO32, y % TWO32;
    assert y - x == TWO32 * (p - q) + (t - r);
    Multiple(y - x, p - q, t - r);
  }

  lemma {:induction false} Multiple(d: nat, q: int, r: int)
    requires d == TWO32 * q + r && -TWO32 < r < TWO32
    ensures d % TWO32 == 0 <==> r == 0
  {
  }

  /** Two ids collide exactly when a whole turn of the counter, or several, lie between them. */
  lemma {:induction false} Collide(ids: seq<u32>, first: nat, k: nat, l: nat)
    requires Counting(ids, first) && k < l < |ids|
    ensures ids[k] == ids[l] <==> (l - k) % TWO32 == 0
  {
    SameRemainder(first + k, first + l);
  }

  /** Ids are pairwise distinct exactly up to 2^32 of them. */
  lemma {:induction false} DistinctUpToTheWrap(ids: seq<u32>, first: nat)
    requires Counting(ids, first)
    ensures Distinct(ids) <==> |ids| <= TWO32
  {
    if |ids| > TWO32 {
      Collide(ids, first, 0, TWO32);
    } else {
      forall k, l | 0 <= k < l < |ids| ensures ids[k] != ids[l] {
        Collide(ids, first, k, l);
      }
    }
  }

  lemma {:induction false} CountUp(n: nat)
    ensures Add32(n % TWO32, 1) == (n + 1) % TWO32
  {
  }

  ghost predicate Numbering(s: State) {
    && Counting(s.connIds, 1) && s.connectionId == |s.connIds| % TWO32
    && Counting(s.taskIds, 0) && s.currentTaskId == |s.taskIds| % TWO32
  }

  lemma {:induction false} NumberingStep(s: State, e: Step)
    requires Numbering(s) && Enabled(s, e)
    ensures Numbering(Next(s, e))
  {
    CountUp(|s.connIds|);
    CountUp(|s.taskIds|);
  }

  lemma {:induction false} RunNumbering(es: seq<Step>)
    requires Run(es).Some?
    ensures Numbering(Run(es).value)
    decreases |es|
  {
    if es != [] {
      RunNumbering(es[..|es| - 1]);
      NumberingStep(Run(es[..|es| - 1]).value, es[|es| - 1]);
    }
  }

  /** In every run: connection ids are pairwise distinct exactly as long as at most 2^32 were issued, and so are
      task ids; the sentinel of the inbound side is issued exactly with the 2^32nd task id. */
  lemma {:induction false} IssuedIds(es: seq<Step>)
    requires Run(es).Some?
    ensures var s := Run(es).value;
            && (Distinct(s.connIds) <==> |s.connIds| <= TWO32)
            && (Distinct(s.taskIds) <==> |s.taskIds| <= TWO32)
            && (MAX32 in s.taskIds <==> |s.taskIds| >= TWO32)
  {
    RunNumbering(es);
    var s := Run(es).value;
    DistinctUpToTheWrap(s.connIds, 1);
    DistinctUpToTheWrap(s.taskIds, 0);
    SentinelIsLast(s.taskIds);
  }

  lemma {:induction false} SentinelIsLast(ids: seq<u32>)
    requires Counting(ids, 0)
    ensures MAX32 in ids <==> |ids| >= TWO32
  {
    if |ids| >= TWO32 {
      assert ids[TWO32 - 1] == MAX32;
    } else {
      forall k | 0 <= k < |ids| ensures ids[k] != MAX32 {
      }
    }
  }

  // ----- connections -----

  function IdOf(c: Conn): Option<u32> {
    if c.phase.Called? then None else Some(c.phase.id)
  }

  /** Every entry of the map is under the id its connection was given. */
  ghost predicate Keyed(s: State) {
    forall id :: id in s.connections ==>
      var c := s.connections[id].channel;
      c < |s.conns| && IdOf(s.conns[c]) == Some(id) && s.connections[id].metadata == s.conns[c].metadata
  }

  lemma {:induction false} KeyedStep(s: State, e: Step)
    requires Keyed(s) && Enabled(s, e)
    ensures Keyed(Next(s, e))
  {
  }

  /** How many ids were issued before this one, as long as the counter has not wrapped. */
  function Rank(id: u32): nat {
    if id == 0 then TWO32 - 1 else id - 1
  }

  /** Ids in use are among those issued, and no two connections share one. */
  ghost predicate Separate(s: State) {
    && (forall c :: 0 <= c < |s.conns| && IdOf(s.conns[c]).Some? ==> Rank(IdOf(s.conns[c]).value) < |s.connIds|)
    && (forall c, d :: 0 <= c < d < |s.conns| && IdOf(s.conns[c]).Some? ==> IdOf(s.conns[c]) != IdOf(s.conns[d]))
  }

  lemma {:induction false} NextRank(s: State)
    requires Numbering(s) && |s.connIds| < TWO32
    ensures Rank(Add32(s.connectionId, 1)) == |s.connIds|
  {
  }

  lemma {:induction false} SeparateStep(s: State, e: Step)
    requires Separate(s) && Numbering(s) && Enabled(s, e) && |Next(s, e).connIds| <= TWO32
    ensures Separate(Next(s, e))
  {
    if e.Generate? { NextRank(s); }
  }

  /** The map holds the connections that are registered and not yet unregistered, each under its own id, and
      nothing else. */
  ghost predicate Exact(s: State) {
    && (forall c :: 0 <= c < |s.conns| && s.conns[c].phase.Registered? ==>
          && s.conns[c].phase.id in s.connections
          && s.connections[s.conns[c].phase.id] == Connection(c, s.conns[c].metadata))
    && (forall id :: id in s.connections ==>
          var c := s.connections[id].channel;
          c < |s.conns| && s.conns[c].phase == Registered(id))
  }

  lemma {:induction false} ExactRegister(s: State, c: nat)
    requires Exact(s) && Separate(s) && c < |s.conns| && s.conns[c].phase.Numbered?
    ensures s.conns[c].phase.id !in s.connections
    ensures Exact(AfterRegister(s, c))
  {
  }

  lemma {:induction false} ExactUnregister(s: State, c: nat)
    requires Exact(s) && Separate(s) && c < |s.conns| && s.conns[c].phase.Registered?
    ensures s.conns[c].phase.id in s.connections && s.connections[s.conns[c].phase.id].channel == c
    ensures Exact(AfterUnregister(s, c))
  {
  }

  lemma {:induction false} ExactStep(s: State, e: Step)
    requires Exact(s) && Separate(s) && Enabled(s, e)
    ensures Exact(Next(s, e))
  {
    match e {
      case Register(c) => ExactRegister(s, c);
      case Unregister(c) => ExactUnregister(s, c);
      case _ =>
    }
  }

  lemma {:induction false} RunExact(es: seq<Step>)
    requires Run(es).Some? && |Run(es).value.connIds| <= TWO32
    ensures Exact(Run(es).value) && Separate(Run(es).value)
    decreases |es|
  {
    if es != [] {
      var front, e := es[..|es| - 1], es[|es| - 1];
      var s := Run(front).value;
      assert |s.connIds| <= |Next(s, e).connIds|;
      RunExact(front);
      RunNumbering(front);
      SeparateStep(s, e);
      ExactStep(s, e);
    }
  }

  /** While at most 2^32 ids were issued, registering overwrites nothing and unregistering removes the
      handler's own entry. */
  lemma {:induction false} RegistrySafe(es: seq<Step>, c: nat)
    requires Run(es).Some? && |Run(es).value.connIds| <= TWO32
    ensures var s := Run(es).value;
            && (Enabled(s, Register(c)) ==> s.conns[c].phase.id !in s.connections)
            && (Enabled(s, Unregister(c)) ==>
                 s.conns[c].phase.id in s.connections && s.connections[s.conns[c].phase.id].channel == c)
  {
    RunExact(es);
    var s := Run(es).value;
    if Enabled(s, Register(c)) { ExactRegister(s, c); }
    if Enabled(s, Unregister(c)) { ExactUnregister(s, c); }
  }

  // ----- what happens past the wrap -----

  /** n clients connect and get their ids, and none is registered yet. */
  function Calls(n: nat): seq<Step> {
    if n == 0 then [] else Calls(n - 1) + [Connect(NEW_METADATA), Generate(n - 1)]
  }

  ghost predicate Waiting(s: State, n: nat) {
    && |s.conns| == |s.connIds| == n && s.connectionId == n % TWO32 && s.connections == map[]
    && forall c :: 0 <= c < n ==> s.conns[c] == Conn(NEW_METADATA, Numbered((c + 1) % TWO32))
  }

  lemma {:induction false} RunSnoc(es: seq<Step>, e: Step)
    requires Run(es).Some? && Enabled(Run(es).value, e)
    ensures Run(es + [e]) == Some(Next(Run(es).value, e))
  {
    assert (es + [e])[..|es|] == es;
  }

  lemma {:induction false} OneMoreWaits(s: State, n: nat)
    requires Waiting(s, n)
    ensures var a := Next(s, Connect(NEW_METADATA));
            Enabled(a, Generate(n)) && Waiting(AfterGenerate(a, n), n + 1)
  {
    CountUp(n);
  }

  lemma {:induction false} CallsWait(n: nat)
    ensures Run(Calls(n)).Some? && Waiting(Run(Calls(n)).value, n)
    decreases n
  {
    if n > 0 {
      CallsWait(n - 1);
      var es := Calls(n - 1);
      OneMoreWaits(Run(es).value, n - 1);
      RunSnoc(es, Connect(NEW_METADATA));
      RunSnoc(es + [Connect(NEW_METADATA)], Generate(n - 1));
      assert Calls(n) == es + [Connect(NEW_METADATA)] + [Generate(n - 1)];
    }
  }

  /** With one id more, the last connection replaces the first. */
  lemma {:induction false} Overwrites() returns (es: seq<Step>)
    ensures Run(es).Some? && |Run(es).value.connIds| == TWO32 + 1
    ensures !Exact(Run(es).value)
  {
    var calls := Calls(TWO32 + 1);
    CallsWait(TWO32 + 1);
    RunSnoc(calls, Register(0));
    RunSnoc(calls + [Register(0)], Register(TWO32));
    es := calls + [Register(0)] + [Register(TWO32)];
    var s := Run(es).value;
    assert s.conns[0].phase == Registered(1) && s.connections[1].channel == TWO32;
  }

  /** The map is exact in all runs that issue at most n ids, exactly when n is at most 2^32. */
  lemma {:induction false} ExactUpToTheWrap(n: nat)
    ensures (forall es :: Run(es).Some? && |Run(es).value.connIds| <= n ==> Exact(Run(es).value)) <==> n <= TWO32
  {
    if n <= TWO32 {
      forall es | Run(es).Some? && |Run(es).value.connIds| <= n ensures Exact(Run(es).value) {
        RunExact(es);
      }
    } else {
      var es := Overwrites();
    }
  }

  // ----- tasks -----

  /** Connection c is one the request asked for: of its hostname, or with its index as id. */
  ghost predicate Suits(s: State, schedule: ScheduleTask, c: nat) {
    && c < |s.conns| && IdOf(s.conns[c]).Some?
    && Matches(schedule, IdOf(s.conns[c]).value, s.conns[c].metadata)
  }

  function TargetOf(p: ReqPhase): Option<nat> {
    if p.Found? || p.Assigned? then Some(p.to) else None
  }

  ghost predicate Routed(s: State) {
    && (forall r :: 0 <= r < |s.requests| && TargetOf(s.requests[r].phase).Some? ==>
          Suits(s, s.requests[r].schedule, TargetOf(s.requests[r].phase).value))
    && (forall k :: 0 <= k < |s.placed| ==>
          && s.placed[k].request < |s.requests|
          && Suits(s, s.requests[s.placed[k].request].schedule, s.placed[k].to))
  }

  /** Connections keep their metadata and their ids. */
  lemma {:induction false} StillSuits(s: State, e: Step, schedule: ScheduleTask, c: nat)
    requires Suits(s, schedule, c) && Enabled(s, e)
    ensures Suits(Next(s, e), schedule, c)
  {
  }

  lemma {:induction false} FoundSuits(s: State, schedule: ScheduleTask, id: u32)
    requires Keyed(s) && id in s.connections && Matches(schedule, id, s.connections[id].metadata)
    ensures Suits(s, schedule, s.connections[id].channel)
  {
  }

  lemma {:induction false} RoutedStep(s: State, e: Step)
    requires Routed(s) && Keyed(s) && Enabled(s, e)
    ensures Routed(Next(s, e))
  {
    var n := Next(s, e);
    forall schedule: ScheduleTask, c: nat | Suits(s, schedule, c) ensures Suits(n, schedule, c) {
      StillSuits(s, e, schedule, c);
    }
    match e {
      case Lookup(r, found) =>
        if found.Some? { FoundSuits(s, s.requests[r].schedule, found.value); }
      case _ =>
    }
  }

  /** The id a request holds: while its task is being sent, and for good once that succeeded. */
  function TaskIdOf(p: ReqPhase): Option<u32> {
    match p
    case Assigned(_, id) => Some(id)
    case Answered(ack) => if ack.success then Some(ack.taskId) else None
    case _ => None
  }

  ghost predicate HoldsIssued(s: State) {
    forall r :: 0 <= r < |s.requests| && TaskIdOf(s.requests[r].phase).Some? ==>
      TaskIdOf(s.requests[r].phase).value in s.taskIds
  }

  ghost predicate Unshared(s: State) {
    forall q, r :: 0 <= q < r < |s.requests| && TaskIdOf(s.requests[q].phase).Some? ==>
      TaskIdOf(s.requests[q].phase) != TaskIdOf(s.requests[r].phase)
  }

  lemma {:induction false} HoldsIssuedStep(s: State, e: Step)
    requires HoldsIssued(s) && Enabled(s, e)
    ensures HoldsIssued(Next(s, e))
  {
  }

  lemma {:induction false} NextIdIsNew(s: State)
    requires Numbering(s) && |s.taskIds| < TWO32
    ensures s.currentTaskId !in s.taskIds
  {
    forall k | 0 <= k < |s.taskIds| ensures s.taskIds[k] != s.currentTaskId {
    }
  }

  lemma {:induction false} UnsharedStep(s: State, e: Step)
    requires Unshared(s) && HoldsIssued(s) && Numbering(s) && Enabled(s, e) && |Next(s, e).taskIds| <= TWO32
    ensures Unshared(Next(s, e))
  {
    if e.TakeId? { NextIdIsNew(s); }
  }

  /** The request of a placement was answered with success and with the id of the task placed. */
  ghost predicate Acknowledged(s: State, p: Placement) {
    && p.request < |s.requests|
    && s.requests[p.request].phase == Answered(Ack(p.task.taskId, true, ""))
    && p.task.ping == s.requests[p.request].schedule.ping
  }

  /** The tasks placed are those of the successful requests, each once. */
  ghost predicate Placed(s: State) {
    && (forall k :: 0 <= k < |s.placed| ==> Acknowledged(s, s.placed[k]))
    && (forall k, l :: 0 <= k < l < |s.placed| ==> s.placed[k].request != s.placed[l].request)
    && (forall r :: 0 <= r < |s.requests| && s.requests[r].phase.Answered? && s.requests[r].phase.ack.success ==>
          exists k :: 0 <= k < |s.placed| && s.placed[k].request == r)
  }

  lemma {:induction false} PlacedSend(s: State, r: nat)
    requires Placed(s) && r < |s.requests| && s.requests[r].phase.Assigned?
    ensures Placed(AfterSendTask(s, r, true))
  {
    var n := AfterSendTask(s, r, true);
    assert n.placed[|s.placed|].request == r;
    forall q | 0 <= q < |n.requests| && n.requests[q].phase.Answered? && n.requests[q].phase.ack.success
      ensures exists k :: 0 <= k < |n.placed| && n.placed[k].request == q
    {
      if q != r {
        var k :| 0 <= k < |s.placed| && s.placed[k].request == q;
        assert n.placed[k].request == q;
      }
    }
  }

  lemma {:induction false} PlacedStep(s: State, e: Step)
    requires Placed(s) && Enabled(s, e)
    ensures Placed(Next(s, e))
  {
    var n := Next(s, e);
    if e.SendTask? && e.ok {
      PlacedSend(s, e.request);
    } else {
      assert n.placed == s.placed;
      assert forall k :: 0 <= k < |s.placed| ==> Acknowledged(s, s.placed[k]);
    }
  }

  lemma {:induction false} RunRouted(es: seq<Step>)
    requires Run(es).Some?
    ensures var s := Run(es).value; Keyed(s) && Routed(s) && HoldsIssued(s) && Placed(s)
    decreases |es|
  {
    if es != [] {
      var front, e := es[..|es| - 1], es[|es| - 1];
      RunRouted(front);
      var s := Run(front).value;
      KeyedStep(s, e);
      RoutedStep(s, e);
      HoldsIssuedStep(s, e);
      PlacedStep(s, e);
    }
  }

  lemma {:induction false} RunUnshared(es: seq<Step>)
    requires Run(es).Some? && |Run(es).value.taskIds| <= TWO32
    ensures Unshared(Run(es).value)
    decreases |es|
  {
    if es != [] {
      var front, e := es[..|es| - 1], es[|es| - 1];
      var s := Run(front).value;
      assert |s.taskIds| <= |Next(s, e).taskIds|;
      RunUnshared(front);
      RunRouted(front);
      RunNumbering(front);
      UnsharedStep(s, e);
    }
  }

  /** Connection c is the one a request asks for, in the request's own fields: of the hostname it names or,
      when it names none, with its index as id, 0 without a client. */
  ghost predicate AskedFor(schedule: ScheduleTask, c: Conn) {
    && !c.phase.Called?
    && (if Named(schedule) then c.metadata.hostname == schedule.client.value.metadata.value.hostname
        else c.phase.id == if schedule.client.Some? then schedule.client.value.index else 0)
  }

  /** What a look-up can give, in every state: with a hostname some connection of that hostname, and nothing
      exactly when there is none; without one the connection with the index, if there is one. */
  lemma {:induction false} LookupExactly(s: State, r: nat, found: Option<u32>)
    requires r < |s.requests| && s.requests[r].phase.Asked?
    ensures Named(s.requests[r].schedule) ==>
              var hostname := s.requests[r].schedule.client.value.metadata.value.hostname;
              && (found.Some? ==> (Enabled(s, Lookup(r, found))
                                   <==> found.value in s.connections && s.connections[found.value].metadata.hostname == hostname))
              && (found.None? ==> (Enabled(s, Lookup(r, found))
                                   <==> forall id :: id in s.connections ==> s.connections[id].metadata.hostname != hostname))
    ensures !Named(s.requests[r].schedule) ==>
              var index := if s.requests[r].schedule.client.Some? then s.requests[r].schedule.client.value.index else 0;
              Enabled(s, Lookup(r, found)) <==> found == if index in s.connections then Some(index) else None
  {
    forall id: u32, metadata: Metadata
      ensures Named(s.requests[r].schedule) ==>
                (Matches(s.requests[r].schedule, id, metadata)
                 <==> metadata.hostname == s.requests[r].schedule.client.value.metadata.value.hostname)
    {
      MatchesExactly(s.requests[r].schedule, id, metadata);
    }
  }

  /** In every run a request is acknowledged with success exactly when its task was placed; that happened once,
      in one channel that the request asked for, with the id of the ack and the ping of the request. */
  lemma {:induction false} SuccessIsOnePlacement(es: seq<Step>, r: nat)
    requires Run(es).Some? && r < |Run(es).value.requests|
    ensures var s := Run(es).value;
            && (s.requests[r].phase.Answered? && s.requests[r].phase.ack.success
                <==> exists k :: 0 <= k < |s.placed| && s.placed[k].request == r)
            && (forall k, l ::
                  0 <= k < l < |s.placed| ==> !(s.placed[k].request == r && s.placed[l].request == r))
            && (forall k :: 0 <= k < |s.placed| && s.placed[k].request == r ==>
                  && Acknowledged(s, s.placed[k])
                  && s.placed[k].to < |s.conns| && AskedFor(s.requests[r].schedule, s.conns[s.placed[k].to]))
  {
    RunRouted(es);
    var s := Run(es).value;
    forall k | 0 <= k < |s.placed| && s.placed[k].request == r
      ensures s.placed[k].to < |s.conns| && AskedFor(s.requests[r].schedule, s.conns[s.placed[k].to])
    {
      var c := s.conns[s.placed[k].to];
      assert Suits(s, s.requests[r].schedule, s.placed[k].to);
      MatchesExactly(s.requests[r].schedule, c.phase.id, c.metadata);
    }
  }

  /** While at most 2^32 task ids were issued, no two placed tasks share an id, and with fewer none is the
      sentinel of the inbound side. */
  lemma {:induction false} PlacedTasksAreDistinct(es: seq<Step>)
    requires Run(es).Some? && |Run(es).value.taskIds| <= TWO32
    ensures var s := Run(es).value;
            && (forall k, l :: 0 <= k < l < |s.placed| ==> s.placed[k].task.taskId != s.placed[l].task.taskId)
            && (|s.taskIds| < TWO32 ==> forall k :: 0 <= k < |s.placed| ==> s.placed[k].task.taskId != MAX32)
  {
    RunRouted(es);
    RunUnshared(es);
    IssuedIds(es);
    var s := Run(es).value;
    forall k | 0 <= k < |s.placed|
      ensures TaskIdOf(s.requests[s.placed[k].request].phase) == Some(s.placed[k].task.taskId)
    {
      assert Acknowledged(s, s.placed[k]);
    }
  }
}
