// Every interleaving of the ping threads of src/client/handlers/ping_outbound.rs, which share one mutex.
module OutboundRun {
  import opened Common
  import opened Schema
  import opened Packet
  import opened Signing
  import opened Addresses
  import opened Outbound

  /** A thread waits for the mutex, holds it with some probes attempted, has released it, or has sent its
      notification. */
  datatype Phase = Waiting | Pinging(attempted: nat) | Released | Notified

  datatype Thread = Thread(task: Task, phase: Phase)

  /** A probe of a thread. */
  datatype Entry = Entry(thread: nat, attempt: Attempt)

  /** `order` is the history of the mutex: the threads in the order they took it. `notices` are the threads
      whose `task_finished` was called. */
  datatype State = State(
    threads: seq<Thread>,
    holder: Option<nat>,
    log: seq<Entry>,
    order: seq<nat>,
    notices: seq<nat>)

  datatype Step =
    | Spawn(task: Task)
    | Lock(thread: nat)
    | Attempting(thread: nat, time: u64, ok: bool)
    | Unlock(thread: nat)
    | Notify(thread: nat)

  const START := State([], None, [], [], [])

  predicate Enabled(s: State, e: Step) {
    match e
    case Spawn(_) => true
    case Lock(i) => i < |s.threads| && s.threads[i].phase.Waiting? && s.holder.None?
    case Attempting(i, _, _) =>
      && i < |s.threads| && s.threads[i].phase.Pinging?
      && s.threads[i].phase.attempted < |Destinations(s.threads[i].task)|
    case Unlock(i) =>
      && i < |s.threads| && s.threads[i].phase.Pinging?
      && s.threads[i].phase.attempted >= |Destinations(s.threads[i].task)|
    case Notify(i) => i < |s.threads| && s.threads[i].phase.Released?
  }

  function In(s: State, i: nat, phase: Phase): seq<Thread>
    requires i < |s.threads|
  {
    s.threads[i := s.threads[i].(phase := phase)]
  }

  function Tried(mac: Mac, task: Task, k: nat, time: u64, ok: bool): Attempt
    requires k < |Destinations(task)|
  {
    var d := Destinations(task)[k];
    Attempt(d, time, GetV4(d), Probe(mac, task, d, time), ok)
  }

  function Next(mac: Mac, s: State, e: Step): State
    requires Enabled(s, e)
  {
    match e
    case Spawn(task) => s.(threads := s.threads + [Thread(task, Waiting)])
    case Lock(i) => s.(threads := In(s, i, Pinging(0)), holder := Some(i), order := s.order + [i])
    case Attempting(i, time, ok) =>
      var k := s.threads[i].phase.attempted;
      s.(threads := In(s, i, Pinging(k + 1)),
         log := s.log + [Entry(i, Tried(mac, s.threads[i].task, k, time, ok))])
    case Unlock(i) => s.(threads := In(s, i, Released), holder := None)
    case Notify(i) => s.(threads := In(s, i, Notified), notices := s.notices + [i])
  }

  function Run(mac: Mac, es: seq<Step>): Option<State> {
    if es == [] then Some(START)
    else
      var s := Run(mac, es[..|es| - 1]);
      if s.Some? && Enabled(s.value, es[|es| - 1]) then Some(Next(mac, s.value, es[|es| - 1])) else None
  }

  // ----- the log as whole tasks -----

  /** Which thread probes what. */
  datatype Target = Target(thread: nat, destination: Address)

  function Targets(log: seq<Entry>): (ts: seq<Target>)
    ensures |ts| == |log|
  {
    if log == [] then []
    else
      var last := log[|log| - 1];
      Targets(log[..|log| - 1]) + [Target(last.thread, last.attempt.destination)]
  }

  lemma {:induction false} TargetsSnoc(log: seq<Entry>, e: Entry)
    ensures Targets(log + [e]) == Targets(log) + [Target(e.thread, e.attempt.destination)]
  {
    assert (log + [e])[..|log|] == log;
  }

  /** The first k probes of a thread. */
  function Prefix(i: nat, ds: seq<Address>, k: nat): seq<Target>
    requires k <= |ds|
  {
    if k == 0 then [] else Prefix(i, ds, k - 1) + [Target(i, ds[k - 1])]
  }

  /** The whole destination lists of some threads, one after the other. */
  function Lists(threads: seq<Thread>, order: seq<nat>): seq<Target>
    requires forall j :: 0 <= j < |order| ==> order[j] < |threads|
  {
    if order == [] then []
    else
      var i := order[|order| - 1];
      var ds := Destinations(threads[i].task);
      Lists(threads, order[..|order| - 1]) + Prefix(i, ds, |ds|)
  }

  /** Only the tasks of the threads matter. */
  lemma {:induction false} ListsFrame(threads: seq<Thread>, after: seq<Thread>, order: seq<nat>)
    requires forall j :: 0 <= j < |order| ==> order[j] < |threads|
    requires |threads| <= |after| && forall i :: 0 <= i < |threads| ==> after[i].task == threads[i].task
    ensures Lists(after, order) == Lists(threads, order)
    decreases |order|
  {
    if order != [] { ListsFrame(threads, after, order[..|order| - 1]); }
  }

  /** The threads that have had the mutex and given it back, in order. */
  function Served(s: State): seq<nat> {
    if s.holder.Some? && s.order != [] then s.order[..|s.order| - 1] else s.order
  }

  ghost predicate Distinct(xs: seq<nat>) {
    forall j, k :: 0 <= j < k < |xs| ==> xs[j] != xs[k]
  }

  /** The mutex is held by the one thread that is probing, and it took it last. */
  ghost predicate Exclusive(s: State) {
    && (forall i :: 0 <= i < |s.threads| ==> (s.threads[i].phase.Pinging? <==> s.holder == Some(i)))
    && (s.holder.Some? ==>
          && s.holder.value < |s.threads|
          && s.threads[s.holder.value].phase.attempted <= |Destinations(s.threads[s.holder.value].task)|
          && s.order != [] && s.order[|s.order| - 1] == s.holder.value)
  }

  /** The threads that took the mutex are those that no longer wait, each once. */
  ghost predicate Ordered(s: State) {
    && (forall j :: 0 <= j < |s.order| ==> s.order[j] < |s.threads|)
    && Distinct(s.order)
    && (forall i :: 0 <= i < |s.threads| ==> (i in s.order <==> !s.threads[i].phase.Waiting?))
  }

  /** The threads that notified are those that say so, each once. */
  ghost predicate Noticed(s: State) {
    && (forall j :: 0 <= j < |s.notices| ==> s.notices[j] < |s.threads|)
    && Distinct(s.notices)
    && (forall i :: 0 <= i < |s.threads| ==> (i in s.notices <==> s.threads[i].phase.Notified?))
  }

  lemma {:induction false} ExclusiveStep(mac: Mac, s: State, e: Step)
    requires Exclusive(s) && Enabled(s, e)
    ensures Exclusive(Next(mac, s, e))
  {
  }

  lemma {:induction false} DistinctSnoc(xs: seq<nat>, x: nat)
    requires Distinct(xs) && x !in xs
    ensures Distinct(xs + [x])
    ensures forall y :: y in xs + [x] <==> y in xs || y == x
  {
  }

  lemma {:induction false} OrderedStep(mac: Mac, s: State, e: Step)
    requires Ordered(s) && Enabled(s, e)
    ensures Ordered(Next(mac, s, e))
  {
    if e.Lock? { DistinctSnoc(s.order, e.thread); }
  }

  lemma {:induction false} NoticedStep(mac: Mac, s: State, e: Step)
    requires Noticed(s) && Enabled(s, e)
    ensures Noticed(Next(mac, s, e))
  {
    if e.Notify? { DistinctSnoc(s.notices, e.thread); }
  }

  /** The probes attempted by the thread that holds the mutex. */
  function Current(s: State): seq<Target>
    requires Exclusive(s)
  {
    if s.holder.None? then []
    else
      var t := s.threads[s.holder.value];
      Prefix(s.holder.value, Destinations(t.task), t.phase.attempted)
  }

  ghost predicate Serial(s: State)
    requires Exclusive(s) && Ordered(s)
  {
    Targets(s.log) == Lists(s.threads, Served(s)) + Current(s)
  }

  lemma {:induction false} SerialAttempt(mac: Mac, s: State, i: nat, time: u64, ok: bool)
    requires Exclusive(s) && Ordered(s) && Serial(s) && Enabled(s, Attempting(i, time, ok))
    requires var n := Next(mac, s, Attempting(i, time, ok)); Exclusive(n) && Ordered(n)
    ensures Serial(Next(mac, s, Attempting(i, time, ok)))
  {
    var k, ds := s.threads[i].phase.attempted, Destinations(s.threads[i].task);
    var n := Next(mac, s, Attempting(i, time, ok));
    ListsFrame(s.threads, n.threads, Served(s));
    TargetsSnoc(s.log, Entry(i, Tried(mac, s.threads[i].task, k, time, ok)));
    assert Current(n) == Current(s) + [Target(i, ds[k])];
    Associative(Lists(s.threads, Served(s)), Current(s), [Target(i, ds[k])]);
  }

  lemma {:induction false} Whole(threads: seq<Thread>, after: seq<Thread>, order: seq<nat>)
    requires order != [] && forall j :: 0 <= j < |order| ==> order[j] < |threads|
    requires |threads| == |after| && forall i :: 0 <= i < |threads| ==> after[i].task == threads[i].task
    ensures var i := order[|order| - 1];
            var ds := Destinations(threads[i].task);
            Lists(after, order) == Lists(threads, order[..|order| - 1]) + Prefix(i, ds, |ds|)
  {
    ListsFrame(threads, after, order);
  }

  lemma {:induction false} SerialUnlock(mac: Mac, s: State, i: nat)
    requires Exclusive(s) && Ordered(s) && Serial(s) && Enabled(s, Unlock(i))
    requires var n := Next(mac, s, Unlock(i)); Exclusive(n) && Ordered(n)
    ensures Serial(Next(mac, s, Unlock(i)))
  {
    var n := Next(mac, s, Unlock(i));
    Whole(s.threads, n.threads, s.order);
    assert Targets(s.log) == Lists(n.threads, s.order);
    assert Served(n) == s.order && Current(n) == [];
  }

  lemma {:induction false} SerialLock(mac: Mac, s: State, i: nat)
    requires Exclusive(s) && Ordered(s) && Serial(s) && Enabled(s, Lock(i))
    requires var n := Next(mac, s, Lock(i)); Exclusive(n) && Ordered(n)
    ensures Serial(Next(mac, s, Lock(i)))
  {
    var n := Next(mac, s, Lock(i));
    ListsFrame(s.threads, n.threads, s.order);
    assert Served(n) == s.order;
    assert Current(n) == [] && Current(s) == [];
  }

  lemma {:induction false} SerialOther(mac: Mac, s: State, e: Step)
    requires Exclusive(s) && Ordered(s) && Serial(s) && Enabled(s, e) && (e.Spawn? || e.Notify?)
    requires Exclusive(Next(mac, s, e)) && Ordered(Next(mac, s, e))
    ensures Serial(Next(mac, s, e))
  {
    var n := Next(mac, s, e);
    ListsFrame(s.threads, n.threads, Served(s));
    assert Current(n) == Current(s);
  }

  ghost predicate Inv(s: State) {
    Exclusive(s) && Ordered(s) && Noticed(s) && Serial(s)
  }

  lemma {:induction false} InvStep(mac: Mac, s: State, e: Step)
    requires Inv(s) && Enabled(s, e)
    ensures Inv(Next(mac, s, e))
  {
    ExclusiveStep(mac, s, e);
    OrderedStep(mac, s, e);
    NoticedStep(mac, s, e);
    match e {
      case Attempting(i, time, ok) => SerialAttempt(mac, s, i, time, ok);
      case Unlock(i) => SerialUnlock(mac, s, i);
      case Lock(i) => SerialLock(mac, s, i);
      case _ => SerialOther(mac, s, e);
    }
  }

  lemma {:induction false} RunInv(mac: Mac, es: seq<Step>)
    requires Run(mac, es).Some?
    ensures Inv(Run(mac, es).value)
    decreases |es|
  {
    if es != [] {
      RunInv(mac, es[..|es| - 1]);
      InvStep(mac, Run(mac, es[..|es| - 1]).value, es[|es| - 1]);
    }
  }

  // ----- the probes of one thread -----

  function OfThread(i: nat, ts: seq<Target>): seq<Target> {
    if ts == [] then []
    else
      var last := ts[|ts| - 1];
      OfThread(i, ts[..|ts| - 1]) + (if last.thread == i then [last] else [])
  }

  lemma {:induction false} OfThreadConcat(i: nat, a: seq<Target>, b: seq<Target>)
    ensures OfThread(i, a + b) == OfThread(i, a) + OfThread(i, b)
    decreases |b|
  {
    if b == [] {
      assert a + b == a;
    } else {
      var front, last := b[..|b| - 1], b[|b| - 1];
      OfThreadConcat(i, a, front);
      assert (a + b)[..|a + b| - 1] == a + front;
      Associative(OfThread(i, a), OfThread(i, front), if last.thread == i then [last] else []);
    }
  }

  lemma {:induction false} OfThreadPrefix(i: nat, j: nat, ds: seq<Address>, k: nat)
    requires k <= |ds|
    ensures OfThread(i, Prefix(j, ds, k)) == if i == j then Prefix(j, ds, k) else []
    decreases k
  {
    if k > 0 {
      OfThreadPrefix(i, j, ds, k - 1);
      assert (Prefix(j, ds, k - 1) + [Target(j, ds[k - 1])])[..|Prefix(j, ds, k - 1)|] == Prefix(j, ds, k - 1);
    }
  }

  lemma {:induction false} LastIsNew(order: seq<nat>, i: nat)
    requires order != [] && Distinct(order)
    ensures var front, j := order[..|order| - 1], order[|order| - 1];
            && Distinct(front) && j !in front
            && (i in order <==> i in front || i == j)
  {
    assert order == order[..|order| - 1] + [order[|order| - 1]];
  }

  lemma {:induction false} OfThreadLists(i: nat, threads: seq<Thread>, order: seq<nat>)
    requires i < |threads| && (forall j :: 0 <= j < |order| ==> order[j] < |threads|) && Distinct(order)
    ensures var ds := Destinations(threads[i].task);
            OfThread(i, Lists(threads, order)) == if i in order then Prefix(i, ds, |ds|) else []
    decreases |order|
  {
    if order != [] {
      var front, j := order[..|order| - 1], order[|order| - 1];
      var ds := Destinations(threads[j].task);
      var before, last := Lists(threads, front), Prefix(j, ds, |ds|);
      assert Lists(threads, order) == before + last;
      LastIsNew(order, i);
      OfThreadLists(i, threads, front);
      OfThreadPrefix(i, j, ds, |ds|);
      assert OfThread(i, Lists(threads, order)) == OfThread(i, before) + OfThread(i, last) by {
        OfThreadConcat(i, before, last);
      }
      if i == j {
        assert OfThread(i, before) == [];
      } else {
        assert OfThread(i, last) == [];
      }
    }
  }

  /** How many destinations a thread has to its name: all once it released the mutex, none before it took it. */
  function Attempted(t: Thread): nat {
    match t.phase
    case Waiting => 0
    case Pinging(k) => k
    case _ => |Destinations(t.task)|
  }

  lemma {:induction false} PrefixAt(i: nat, ds: seq<Address>, k: nat)
    requires k <= |ds|
    ensures |Prefix(i, ds, k)| == k
    ensures forall j :: 0 <= j < k ==> Prefix(i, ds, k)[j] == Target(i, ds[j])
    decreases k
  {
    if k > 0 { PrefixAt(i, ds, k - 1); }
  }

  /** ts are probes by thread i of the first k addresses a task lists, in order. */
  ghost predicate FirstOf(ts: seq<Target>, i: nat, task: Task, k: nat) {
    && |ts| == k
    && (task.ping.None? ==> k == 0)
    && (task.ping.Some? ==>
          && k <= |task.ping.value.destinationAddresses|
          && forall j :: 0 <= j < k ==> ts[j] == Target(i, task.ping.value.destinationAddresses[j]))
  }

  /** ts are probes by thread i of all addresses a task lists, each once, in order. */
  ghost predicate AllOf(ts: seq<Target>, i: nat, task: Task) {
    FirstOf(ts, i, task, if task.ping.Some? then |task.ping.value.destinationAddresses| else 0)
  }

  lemma {:induction false} PrefixIsFirst(i: nat, task: Task, k: nat)
    requires k <= |Destinations(task)|
    ensures FirstOf(Prefix(i, Destinations(task), k), i, task, k)
    ensures k == |Destinations(task)| ==> AllOf(Prefix(i, Destinations(task), k), i, task)
  {
    PrefixAt(i, Destinations(task), k);
  }

  /** At any time a thread has attempted exactly the first destinations of its task, each once and in order:
      none before it takes the mutex, all once it has released it. */
  lemma {:induction false} EachDestinationOnce(mac: Mac, es: seq<Step>, i: nat)
    requires Run(mac, es).Some? && i < |Run(mac, es).value.threads|
    ensures var s := Run(mac, es).value;
            var t := s.threads[i];
            var mine := OfThread(i, Targets(s.log));
            && Attempted(t) <= |Destinations(t.task)|
            && mine == Prefix(i, Destinations(t.task), Attempted(t))
            && match t.phase
               case Waiting => mine == []
               case Pinging(k) => FirstOf(mine, i, t.task, k)
               case Released => AllOf(mine, i, t.task)
               case Notified => AllOf(mine, i, t.task)
  {
    RunInv(mac, es);
    var s := Run(mac, es).value;
    var t := s.threads[i];
    AttemptedExactly(s, i);
    PrefixIsFirst(i, t.task, Attempted(t));
    PrefixAt(i, Destinations(t.task), Attempted(t));
  }

  lemma {:induction false} AttemptedExactly(s: State, i: nat)
    requires Inv(s) && i < |s.threads|
    ensures var t := s.threads[i];
            && Attempted(t) <= |Destinations(t.task)|
            && OfThread(i, Targets(s.log)) == Prefix(i, Destinations(t.task), Attempted(t))
  {
    OfThreadConcat(i, Lists(s.threads, Served(s)), Current(s));
    ServedDistinct(s);
    OfThreadLists(i, s.threads, Served(s));
    if s.holder.Some? {
      var t := s.threads[s.holder.value];
      OfThreadPrefix(i, s.holder.value, Destinations(t.task), t.phase.attempted);
    }
    ServedPhases(s, i);
  }

  lemma {:induction false} ServedDistinct(s: State)
    requires Exclusive(s) && Ordered(s)
    ensures (forall j :: 0 <= j < |Served(s)| ==> Served(s)[j] < |s.threads|) && Distinct(Served(s))
  {
  }

  lemma {:induction false} ServedPhases(s: State, i: nat)
    requires Exclusive(s) && Ordered(s) && i < |s.threads|
    ensures i in Served(s) <==> s.threads[i].phase.Released? || s.threads[i].phase.Notified?
  {
    if s.holder.Some? { assert s.order == Served(s) + [s.holder.value]; }
  }

  /** A notification follows the last probe of its task, and there is at most one per task received. */
  lemma {:induction false} NoticeAfterAllProbes(mac: Mac, es: seq<Step>)
    requires Run(mac, es).Some?
    ensures var s := Run(mac, es).value;
            && Distinct(s.notices)
            && forall i :: i in s.notices ==>
                 i < |s.threads| && AllOf(OfThread(i, Targets(s.log)), i, s.threads[i].task)
  {
    RunInv(mac, es);
    var s := Run(mac, es).value;
    forall i | i in s.notices ensures i < |s.threads| && AllOf(OfThread(i, Targets(s.log)), i, s.threads[i].task) {
      EachDestinationOnce(mac, es, i);
    }
  }

  // ----- lock order -----

  /** i took the mutex before j. */
  ghost predicate Before(order: seq<nat>, i: nat, j: nat) {
    exists x, y :: 0 <= x < y < |order| && order[x] == i && order[y] == j
  }

  /** Every thread in the log has had the mutex, and the log follows the order in which they took it. */
  ghost predicate FollowsOrder(s: State) {
    && (forall a :: 0 <= a < |s.log| ==> s.log[a].thread in s.order)
    && (forall a, b :: 0 <= a < b < |s.log| ==>
          s.log[a].thread == s.log[b].thread || Before(s.order, s.log[a].thread, s.log[b].thread))
  }

  lemma {:induction false} BeforeLast(order: seq<nat>, i: nat)
    requires order != [] && i in order
    ensures i == order[|order| - 1] || Before(order, i, order[|order| - 1])
  {
    var x :| 0 <= x < |order| && order[x] == i;
  }

  lemma {:induction false} BeforeGrows(order: seq<nat>, i: nat, j: nat, k: nat)
    requires Before(order, i, j)
    ensures Before(order + [k], i, j)
  {
    var x, y :| 0 <= x < y < |order| && order[x] == i && order[y] == j;
    assert (order + [k])[x] == i && (order + [k])[y] == j;
  }

  lemma {:induction false} FollowsOrderStep(mac: Mac, s: State, e: Step)
    requires FollowsOrder(s) && Exclusive(s) && Enabled(s, e)
    ensures FollowsOrder(Next(mac, s, e))
  {
    var n := Next(mac, s, e);
    match e {
      case Lock(i) =>
        forall a, b | 0 <= a < b < |n.log| && n.log[a].thread != n.log[b].thread
          ensures Before(n.order, n.log[a].thread, n.log[b].thread)
        {
          BeforeGrows(s.order, s.log[a].thread, s.log[b].thread, i);
        }
      case Attempting(i, _, _) =>
        assert i == s.order[|s.order| - 1];
        forall a | 0 <= a < |s.log| ensures s.log[a].thread == i || Before(s.order, s.log[a].thread, i) {
          BeforeLast(s.order, s.log[a].thread);
        }
      case _ =>
    }
  }

  lemma {:induction false} RunFollowsOrder(mac: Mac, es: seq<Step>)
    requires Run(mac, es).Some?
    ensures FollowsOrder(Run(mac, es).value)
    decreases |es|
  {
    if es != [] {
      RunFollowsOrder(mac, es[..|es| - 1]);
      RunInv(mac, es[..|es| - 1]);
      FollowsOrderStep(mac, Run(mac, es[..|es| - 1]).value, es[|es| - 1]);
    }
  }

  /** In every schedule at most one thread is probing; the log follows the order in which threads took the
      mutex; every thread that has given it back has attempted its task's whole list, and nobody else has
      attempted anything but the one that holds it, who has attempted a prefix. */
  lemma {:induction false} SerializedProbing(mac: Mac, es: seq<Step>)
    requires Run(mac, es).Some?
    ensures var s := Run(mac, es).value;
            && Exclusive(s) && Ordered(s) && FollowsOrder(s)
            && Targets(s.log) == Lists(s.threads, Served(s)) + Current(s)
            && (forall i :: i in Served(s) ==>
                  i < |s.threads| && AllOf(OfThread(i, Targets(s.log)), i, s.threads[i].task))
  {
    RunInv(mac, es);
    RunFollowsOrder(mac, es);
    var s := Run(mac, es).value;
    forall i | i in Served(s) ensures i < |s.threads| && AllOf(OfThread(i, Targets(s.log)), i, s.threads[i].task) {
      ServedDistinct(s);
      ServedPhases(s, i);
      EachDestinationOnce(mac, es, i);
    }
  }

  /** Every packet sent is the probe of one destination of a task received. */
  ghost predicate FromTasks(mac: Mac, s: State) {
    forall j :: 0 <= j < |s.log| ==>
      && s.log[j].thread < |s.threads|
      && s.log[j].attempt.destination in Destinations(s.threads[s.log[j].thread].task)
      && s.log[j].attempt.to == GetV4(s.log[j].attempt.destination)
      && s.log[j].attempt.packet
         == Probe(mac, s.threads[s.log[j].thread].task, s.log[j].attempt.destination, s.log[j].attempt.time)
  }

  lemma {:induction false} FromTasksStep(mac: Mac, s: State, e: Step)
    requires FromTasks(mac, s) && Enabled(s, e)
    ensures FromTasks(mac, Next(mac, s, e))
  {
  }

  /** An attempt is recorded with its thread, time and outcome, for the next address the task lists. */
  lemma {:induction false} AttemptRecorded(mac: Mac, s: State, i: nat, time: u64, ok: bool)
    requires Enabled(s, Attempting(i, time, ok))
    ensures var n := Next(mac, s, Attempting(i, time, ok));
            var ping := s.threads[i].task.ping;
            && |n.log| == |s.log| + 1 && s.log <= n.log
            && n.log[|s.log|].thread == i
            && n.log[|s.log|].attempt.time == time && n.log[|s.log|].attempt.ok == ok
            && ping.Some? && s.threads[i].phase.attempted < |ping.value.destinationAddresses|
            && n.log[|s.log|].attempt.destination == ping.value.destinationAddresses[s.threads[i].phase.attempted]
  {
  }

  /** An entry of the log says what the task of its thread asks for: a listed destination, its own address,
      and, unless the payload is too large for 32-bit sizes, a signed request that describes the probe. */
  ghost predicate AsAsked(mac: Mac, s: State, e: Entry) {
    && e.thread < |s.threads|
    && var task := s.threads[e.thread].task;
    && task.ping.Some? && e.attempt.destination in task.ping.value.destinationAddresses
    && Aimed(e.attempt)
    && (|EncodePayload(Body(task, e.attempt.destination, e.attempt.time))| < TWO32 ==>
          Says(mac, e.attempt.packet, task, e.attempt.destination, e.attempt.time))
  }

  lemma {:induction false} PacketsAreProbes(mac: Mac, es: seq<Step>)
    requires Run(mac, es).Some?
    ensures FromTasks(mac, Run(mac, es).value)
    decreases |es|
  {
    if es != [] {
      PacketsAreProbes(mac, es[..|es| - 1]);
      FromTasksStep(mac, Run(mac, es[..|es| - 1]).value, es[|es| - 1]);
    }
  }

  /** Every packet sent in any schedule is one that a task received asks for. */
  lemma {:induction false} PacketsAsAsked(mac: Mac, es: seq<Step>)
    requires Run(mac, es).Some?
    ensures forall j :: 0 <= j < |Run(mac, es).value.log| ==> AsAsked(mac, Run(mac, es).value, Run(mac, es).value.log[j])
  {
    PacketsAreProbes(mac, es);
    var s := Run(mac, es).value;
    forall j | 0 <= j < |s.log| ensures AsAsked(mac, s, s.log[j]) {
      var e := s.log[j];
      var task := s.threads[e.thread].task;
      if |EncodePayload(Body(task, e.attempt.destination, e.attempt.time))| < TWO32 {
        ProbeSays(mac, task, e.attempt.destination, e.attempt.time);
      }
    }
  }
}
