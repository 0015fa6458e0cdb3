// Every interleaving of the receiver, processor and transmitter threads of
// src/client/handlers/ping_inbound.rs.
module InboundRun {
  import opened Common
  import opened Schema
  import opened Packet
  import opened Signing
  import opened Batching
  import opened Inbound

  /** The receiver has ended on a read that was counted (an empty or a malformed packet) or on an error. */
  datatype Receiver = Reading | Holding(arrival: Arrival) | Over(counted: bool)

  datatype Processor = Waiting | Classifying(arrival: Arrival) | Pushing(result: Result)

  /** A round of the transmitter: the queue it took, the sorted results before and behind the loop, the
      current batch and the calls made so far. */
  datatype Round = Round(taken: seq<Result>, done: seq<Result>, todo: seq<Result>, tr: TaskResult, sent: seq<Call>)

  datatype Transmitter = Asleep | Grouping(round: Round) | Crashed | Exited

  /** `arrived`, `pushed` and `finished` are histories; `calls` is what the server was sent. */
  datatype State = State(
    receiver: Receiver,
    channel: seq<Arrival>,
    processor: Processor,
    queue: Option<seq<Result>>,
    transmitter: Transmitter,
    calls: seq<Call>,
    received: nat,
    valid: nat,
    invalid: nat,
    transmitted: nat,
    arrived: seq<Arrival>,
    pushed: seq<Result>,
    finished: seq<Round>)

  datatype Step =
    | Receive(datagram: seq<byte>, time: u64)
    | ReadError
    | Enqueue
    | Take
    | Classify
    | Push
    | Swap
    | Group(ok: bool)
    | Finish(ok: bool)
    | Exit

  const START := State(Reading, [], Waiting, Some([]), Asleep, [], 0, 0, 0, 0, [], [], [])

  predicate Enabled(s: State, e: Step) {
    match e
    case Receive(_, _) => s.receiver.Reading?
    case ReadError => s.receiver.Reading?
    case Enqueue => s.receiver.Holding?
    case Take => s.processor.Waiting? && s.channel != []
    case Classify => s.processor.Classifying?
    case Push => s.processor.Pushing?
    case Swap => s.transmitter.Asleep?
    case Group(_) => s.transmitter.Grouping? && s.transmitter.round.todo != []
    case Finish(_) => s.transmitter.Grouping? && s.transmitter.round.todo == []
    case Exit => s.transmitter.Asleep?
  }

  function AfterReceive(s: State, datagram: seq<byte>, time: u64): State {
    var data := Truncated(datagram);
    var t := s.(received := s.received + 1);
    if data == [] || IPv4Of(data).None? then t.(receiver := Over(true))
    else
      var a := Arrival(time, IPv4Of(data).value);
      t.(receiver := Holding(a), arrived := s.arrived + [a])
  }

  function AfterClassify(mac: Mac, s: State): State
    requires s.processor.Classifying?
  {
    var r := Attribute(mac, s.processor.arrival);
    if r.None? then s.(processor := Waiting, invalid := s.invalid + 1)
    else s.(processor := Pushing(r.value), valid := s.valid + 1)
  }

  function AfterPush(s: State): State
    requires s.processor.Pushing?
  {
    var r := s.processor.result;
    s.(processor := Waiting, pushed := s.pushed + [r],
       queue := if s.queue.Some? then Some(s.queue.value + [r]) else None)
  }

  /** The lock section of the transmitter; unwrapping an absent queue would end its thread. */
  function AfterSwap(s: State): State {
    if s.queue.None? then s.(queue := Some([]), transmitter := Crashed)
    else s.(queue := Some([]),
            transmitter := Grouping(Round(s.queue.value, [], StableSort(PingsOf(s.queue.value)), FIRST_BATCH, [])))
  }

  /** A round after one turn of the grouping loop. */
  function AfterTurn(metadata: Metadata, o: Round, ok: bool): Round
    requires o.todo != []
  {
    var r := o.todo[0];
    Round(o.taken, o.done + [r], o.todo[1..], Grown(o.tr, r, metadata), Closed(o.sent, o.tr, r, ok))
  }

  /** A round after the last batch. */
  function Ended(o: Round, ok: bool): Round {
    if o.tr.resultList != [] then o.(sent := o.sent + [Call(o.tr, ok)]) else o
  }

  function AfterGroup(metadata: Metadata, s: State, ok: bool): State
    requires s.transmitter.Grouping? && s.transmitter.round.todo != []
  {
    var o := s.transmitter.round;
    (if Flushes(o.tr, o.todo[0]) then WithCall(s, o.tr, ok) else s).(transmitter := Grouping(AfterTurn(metadata, o, ok)))
  }

  function AfterFinish(s: State, ok: bool): State
    requires s.transmitter.Grouping?
  {
    var o := s.transmitter.round;
    (if o.tr.resultList != [] then WithCall(s, o.tr, ok) else s)
      .(transmitter := Asleep, finished := s.finished + [Ended(o, ok)])
  }

  function WithCall(s: State, tr: TaskResult, ok: bool): State {
    s.(calls := s.calls + [Call(tr, ok)], transmitted := s.transmitted + (if ok then |tr.resultList| else 0))
  }

  function Next(mac: Mac, metadata: Metadata, s: State, e: Step): State
    requires Enabled(s, e)
  {
    match e
    case Receive(datagram, time) => AfterReceive(s, datagram, time)
    case ReadError => s.(receiver := Over(false))
    case Enqueue => s.(receiver := Reading, channel := s.channel + [s.receiver.arrival])
    case Take => s.(processor := Classifying(s.channel[0]), channel := s.channel[1..])
    case Classify => AfterClassify(mac, s)
    case Push => AfterPush(s)
    case Swap => AfterSwap(s)
    case Group(ok) => AfterGroup(metadata, s, ok)
    case Finish(ok) => AfterFinish(s, ok)
    case Exit => s.(transmitter := Exited)
  }

  /** The state after a run, if its steps are possible in this order. */
  function Run(mac: Mac, metadata: Metadata, es: seq<Step>): Option<State> {
    if es == [] then Some(START)
    else
      var s := Run(mac, metadata, es[..|es| - 1]);
      if s.Some? && Enabled(s.value, es[|es| - 1]) then Some(Next(mac, metadata, s.value, es[|es| - 1])) else None
  }

  /** A turn of `PingInbound.Process` is the steps Take, Classify and, for a valid packet, Push in a row. */
  lemma {:induction false} ProcessIsThreeSteps(mac: Mac, metadata: Metadata, s: State)
    requires Enabled(s, Take)
    ensures var r := Attribute(mac, s.channel[0]);
            var c := Next(mac, metadata, Next(mac, metadata, s, Take), Classify);
            var n := if r.Some? then Next(mac, metadata, c, Push) else c;
            n == s.(channel := s.channel[1..],
                    valid := s.valid + (if r.Some? then 1 else 0),
                    invalid := s.invalid + (if r.None? then 1 else 0),
                    queue := if r.Some? && s.queue.Some? then Some(s.queue.value + [r.value]) else s.queue,
                    pushed := if r.Some? then s.pushed + [r.value] else s.pushed)
  {
  }

  // ----- what is where -----

  /** The results of a list of arrivals, in order. */
  function Results(mac: Mac, ps: seq<Arrival>): seq<Result> {
    if ps == [] then []
    else
      var r := Attribute(mac, ps[0]);
      (if r.Some? then [r.value] else []) + Results(mac, ps[1..])
  }

  lemma {:induction false} ResultsConcat(mac: Mac, a: seq<Arrival>, b: seq<Arrival>)
    ensures Results(mac, a + b) == Results(mac, a) + Results(mac, b)
    decreases |a|
  {
    if a == [] {
      assert a + b == b;
    } else {
      var r := Attribute(mac, a[0]);
      assert (a + b)[1..] == a[1..] + b;
      ResultsConcat(mac, a[1..], b);
      Associative(if r.Some? then [r.value] else [], Results(mac, a[1..]), Results(mac, b));
    }
  }

  function One(mac: Mac, a: Arrival): seq<Result> {
    var r := Attribute(mac, a);
    if r.Some? then [r.value] else []
  }

  lemma {:induction false} OneFirst(mac: Mac, a: Arrival, rest: seq<Arrival>)
    ensures Results(mac, [a] + rest) == One(mac, a) + Results(mac, rest)
  {
    assert ([a] + rest)[1..] == rest;
  }

  /** Arrivals not yet classified, oldest first. */
  function Unclassified(s: State): seq<Arrival> {
    (if s.processor.Classifying? then [s.processor.arrival] else []) + s.channel
    + (if s.receiver.Holding? then [s.receiver.arrival] else [])
  }

  function BeingPushed(s: State): seq<Result> {
    if s.processor.Pushing? then [s.processor.result] else []
  }

  /** The transmitter's working set: the current batch and what is still to be grouped. */
  function Working(s: State): seq<Result> {
    if s.transmitter.Grouping? then s.transmitter.round.tr.resultList + s.transmitter.round.todo else []
  }

  function SentResults(s: State): seq<Result> {
    Flatten(Batches(s.calls))
  }

  function Queued(s: State): seq<Result> {
    if s.queue.Some? then s.queue.value else []
  }

  function Pings(rs: seq<Result>): bool {
    forall i :: 0 <= i < |rs| ==> rs[i].ping.Some?
  }

  // ----- the queue is never missing -----

  ghost predicate Sound(s: State) {
    && s.queue.Some? && !s.transmitter.Crashed?
    && Pings(s.queue.value)
    && (s.processor.Pushing? ==> s.processor.result.ping.Some?)
  }

  lemma {:induction false} SoundStep(mac: Mac, metadata: Metadata, s: State, e: Step)
    requires Sound(s) && Enabled(s, e)
    ensures Sound(Next(mac, metadata, s, e))
  {
  }

  // ----- nothing is lost between the threads, and order is kept -----

  ghost predicate Flow(mac: Mac, s: State) {
    s.pushed + BeingPushed(s) + Results(mac, Unclassified(s)) == Results(mac, s.arrived)
  }

  lemma {:induction false} FlowReceive(mac: Mac, s: State, datagram: seq<byte>, time: u64)
    requires Flow(mac, s) && s.receiver.Reading?
    ensures Flow(mac, AfterReceive(s, datagram, time))
  {
    var n := AfterReceive(s, datagram, time);
    if n.receiver.Holding? {
      var a := [n.receiver.arrival];
      assert Unclassified(n) == Unclassified(s) + a;
      ResultsConcat(mac, Unclassified(s), a);
      ResultsConcat(mac, s.arrived, a);
      Associative(s.pushed + BeingPushed(s), Results(mac, Unclassified(s)), Results(mac, a));
    }
  }

  lemma {:induction false} Classified(mac: Mac, s: State)
    requires s.processor.Classifying?
    ensures var n := AfterClassify(mac, s);
            && Unclassified(s) == [s.processor.arrival] + Unclassified(n)
            && BeingPushed(s) == [] && BeingPushed(n) == One(mac, s.processor.arrival)
            && n.pushed == s.pushed && n.arrived == s.arrived
  {
    var holding := if s.receiver.Holding? then [s.receiver.arrival] else [];
    Associative([s.processor.arrival], s.channel, holding);
    assert [] + s.channel == s.channel;
  }

  lemma {:induction false} FlowClassify(mac: Mac, s: State)
    requires Flow(mac, s) && s.processor.Classifying?
    ensures Flow(mac, AfterClassify(mac, s))
  {
    var rest := Unclassified(AfterClassify(mac, s));
    Classified(mac, s);
    OneFirst(mac, s.processor.arrival, rest);
    Associative(s.pushed, One(mac, s.processor.arrival), Results(mac, rest));
  }

  lemma {:induction false} FlowMoves(s: State)
    ensures s.receiver.Holding? ==>
              Unclassified(s.(receiver := Reading, channel := s.channel + [s.receiver.arrival])) == Unclassified(s)
    ensures s.processor.Waiting? && s.channel != [] ==>
              Unclassified(s.(processor := Classifying(s.channel[0]), channel := s.channel[1..])) == Unclassified(s)
    ensures s.processor.Pushing? ==>
              AfterPush(s).pushed + BeingPushed(AfterPush(s)) == s.pushed + BeingPushed(s)
  {
  }

  lemma {:induction false} FlowStep(mac: Mac, metadata: Metadata, s: State, e: Step)
    requires Flow(mac, s) && Enabled(s, e)
    ensures Flow(mac, Next(mac, metadata, s, e))
  {
    match e {
      case Receive(datagram, time) => FlowReceive(mac, s, datagram, time);
      case Enqueue => FlowMoves(s);
      case Take => FlowMoves(s);
      case Classify => FlowClassify(mac, s);
      case Push => FlowMoves(s);
      case _ =>
    }
  }

  /** The arrivals not yet classified are the last ones. */
  ghost predicate Seen(s: State) {
    s.valid + s.invalid <= |s.arrived| && s.arrived[s.valid + s.invalid..] == Unclassified(s)
  }

  lemma {:induction false} SeenReceive(s: State, datagram: seq<byte>, time: u64)
    requires Seen(s) && s.receiver.Reading?
    ensures Seen(AfterReceive(s, datagram, time))
  {
    var n := AfterReceive(s, datagram, time);
    if n.receiver.Holding? {
      var k := s.valid + s.invalid;
      assert n.arrived[k..] == s.arrived[k..] + [n.receiver.arrival];
      assert Unclassified(n) == Unclassified(s) + [n.receiver.arrival];
    }
  }

  lemma {:induction false} SeenClassify(mac: Mac, s: State)
    requires Seen(s) && s.processor.Classifying?
    ensures Seen(AfterClassify(mac, s))
  {
    var k, n := s.valid + s.invalid, AfterClassify(mac, s);
    Classified(mac, s);
    assert s.arrived[k..][1..] == s.arrived[k + 1..];
    assert Unclassified(s)[1..] == Unclassified(n);
  }

  lemma {:induction false} SeenStep(mac: Mac, metadata: Metadata, s: State, e: Step)
    requires Seen(s) && Enabled(s, e)
    ensures Seen(Next(mac, metadata, s, e))
  {
    match e {
      case Receive(datagram, time) => SeenReceive(s, datagram, time);
      case Enqueue => FlowMoves(s);
      case Take => FlowMoves(s);
      case Classify => SeenClassify(mac, s);
      case _ =>
    }
  }

  /** For one task: what was sent, then the working set, then the queue are what was pushed. */
  ghost predicate InOrder(t: u32, s: State) {
    OfTask(t, SentResults(s) + Working(s)) + OfTask(t, Queued(s)) == OfTask(t, s.pushed)
  }

  lemma {:induction false} OneMoreCall(cs: seq<Call>, c: Call)
    ensures Flatten(Batches(cs + [c])) == Flatten(Batches(cs)) + c.batch.resultList
  {
    DeliveredSnoc(cs, c);
    FlattenSnoc(Batches(cs), c.batch);
  }

  /** A result leaves the list and joins the current batch, or the batch joins what is sent. */
  lemma {:induction false} Moved(sent: seq<Result>, tr: TaskResult, todo: seq<Result>, metadata: Metadata)
    requires todo != []
    ensures var b := Grown(tr, todo[0], metadata).resultList;
            (if Flushes(tr, todo[0]) then sent + tr.resultList + (b + todo[1..]) else sent + (b + todo[1..]))
            == sent + (tr.resultList + todo)
  {
    var r, b := todo[0], Grown(tr, todo[0], metadata).resultList;
    assert todo == [r] + todo[1..];
    if Flushes(tr, r) {
      assert b == [r];
      Associative(sent, tr.resultList, todo);
    } else {
      assert b == tr.resultList + [r];
      Associative(tr.resultList, [r], todo[1..]);
    }
  }

  lemma {:induction false} GroupMoves(metadata: Metadata, s: State, ok: bool)
    requires s.transmitter.Grouping? && s.transmitter.round.todo != []
    ensures var n := AfterGroup(metadata, s, ok);
            SentResults(n) + Working(n) == SentResults(s) + Working(s)
  {
    var o := s.transmitter.round;
    OneMoreCall(s.calls, Call(o.tr, ok));
    Moved(SentResults(s), o.tr, o.todo, metadata);
  }

  lemma {:induction false} FinishMoves(s: State, ok: bool)
    requires s.transmitter.Grouping? && s.transmitter.round.todo == []
    ensures var n := AfterFinish(s, ok);
            SentResults(n) + Working(n) == SentResults(s) + Working(s)
  {
    var o := s.transmitter.round;
    OneMoreCall(s.calls, Call(o.tr, ok));
    assert o.tr.resultList + [] == o.tr.resultList;
  }

  lemma {:induction false} InOrderStep(t: u32, mac: Mac, metadata: Metadata, s: State, e: Step)
    requires InOrder(t, s) && Sound(s) && Enabled(s, e)
    ensures InOrder(t, Next(mac, metadata, s, e))
  {
    var n := Next(mac, metadata, s, e);
    match e {
      case Push =>
        var r := [s.processor.result];
        OfTaskConcat(t, Queued(s), r);
        OfTaskConcat(t, s.pushed, r);
        Associative(OfTask(t, SentResults(s) + Working(s)), OfTask(t, Queued(s)), OfTask(t, r));
      case Swap =>
        var taken := s.queue.value;
        AllPings(taken);
        SortIsStable(t, taken);
        assert SentResults(s) + Working(s) == SentResults(s);
        assert Working(n) == StableSort(taken);
        OfTaskConcat(t, SentResults(s), StableSort(taken));
      case Group(ok) => GroupMoves(metadata, s, ok);
      case Finish(ok) => FinishMoves(s, ok);
      case _ =>
    }
  }

  // ----- counters -----

  function Count(b: bool): nat {
    if b then 1 else 0
  }

  /** Every packet counted is with one of the threads, in the channel, or classified. */
  ghost predicate CountedPackets(s: State) {
    && s.received == Count(s.receiver.Holding?) + |s.channel| + Count(s.processor.Classifying?)
                     + s.valid + s.invalid + Count(s.receiver.Over? && s.receiver.counted)
    && s.valid == |s.pushed| + |BeingPushed(s)|
  }

  ghost predicate CountedResults(s: State) {
    |SentResults(s)| + |Working(s)| + |Queued(s)| == |s.pushed|
  }

  ghost predicate CountedCalls(s: State) {
    s.transmitted == Delivered(s.calls)
  }

  lemma {:induction false} CountedPacketsStep(mac: Mac, metadata: Metadata, s: State, e: Step)
    requires CountedPackets(s) && Enabled(s, e)
    ensures CountedPackets(Next(mac, metadata, s, e))
  {
  }

  lemma {:induction false} CountedResultsStep(mac: Mac, metadata: Metadata, s: State, e: Step)
    requires CountedResults(s) && Sound(s) && Enabled(s, e)
    ensures CountedResults(Next(mac, metadata, s, e))
  {
    match e {
      case Swap => AllPings(s.queue.value);
      case Group(ok) => GroupMoves(metadata, s, ok);
      case Finish(ok) => FinishMoves(s, ok);
      case _ =>
    }
  }

  lemma {:induction false} CountedCall(s: State, tr: TaskResult, ok: bool)
    requires CountedCalls(s)
    ensures CountedCalls(WithCall(s, tr, ok))
  {
    DeliveredSnoc(s.calls, Call(tr, ok));
  }

  lemma {:induction false} CountedCallsStep(mac: Mac, metadata: Metadata, s: State, e: Step)
    requires CountedCalls(s) && Enabled(s, e)
    ensures CountedCalls(Next(mac, metadata, s, e))
  {
    match e {
      case Group(ok) => CountedCall(s, s.transmitter.round.tr, ok);
      case Finish(ok) => CountedCall(s, s.transmitter.round.tr, ok);
      case _ =>
    }
  }

  lemma {:induction false} DeliveredWithinSent(cs: seq<Call>)
    ensures Delivered(cs) <= |Flatten(Batches(cs))|
    decreases |cs|
  {
    if cs != [] {
      var front, last := cs[..|cs| - 1], cs[|cs| - 1];
      DeliveredWithinSent(front);
      assert cs == front + [last];
      DeliveredSnoc(front, last);
      FlattenSnoc(Batches(front), last.batch);
    }
  }

  // ----- rounds -----

  function AllTaken(rounds: seq<Round>): seq<Result> {
    if rounds == [] then [] else AllTaken(rounds[..|rounds| - 1]) + rounds[|rounds| - 1].taken
  }

  function AllSent(rounds: seq<Round>): seq<Call> {
    if rounds == [] then [] else AllSent(rounds[..|rounds| - 1]) + rounds[|rounds| - 1].sent
  }

  lemma {:induction false} RoundsSnoc(rounds: seq<Round>, o: Round)
    ensures AllTaken(rounds + [o]) == AllTaken(rounds) + o.taken
    ensures AllSent(rounds + [o]) == AllSent(rounds) + o.sent
  {
    assert (rounds + [o])[..|rounds|] == rounds;
  }

  /** The batches sent in a finished round partition the stably sorted queue it took. */
  ghost predicate Complete(metadata: Metadata, o: Round) {
    Partitions(Batches(o.sent), StableSort(o.taken), metadata)
  }

  /** A round in the middle of its loop. */
  ghost predicate Underway(metadata: Metadata, o: Round) {
    && o.done + o.todo == StableSort(o.taken)
    && Grouped(Batches(o.sent), o.tr, o.done, metadata)
  }

  ghost predicate Shaped(metadata: Metadata, s: State) {
    && (forall i :: 0 <= i < |s.finished| ==> Complete(metadata, s.finished[i]))
    && (s.transmitter.Grouping? ==> Underway(metadata, s.transmitter.round))
  }

  function RoundsOf(s: State): seq<Round> {
    if s.transmitter.Grouping? then s.finished + [s.transmitter.round] else s.finished
  }

  /** The rounds account for every call and every push, in order. */
  ghost predicate InRounds(s: State) {
    && s.calls == AllSent(RoundsOf(s))
    && s.pushed == AllTaken(RoundsOf(s)) + Queued(s)
  }

  lemma {:induction false} TurnSplits(o: Round)
    requires o.todo != [] && o.done + o.todo == StableSort(o.taken)
    ensures o.done + [o.todo[0]] + o.todo[1..] == StableSort(o.taken)
    ensures Sorted(o.done + [o.todo[0]])
  {
    assert o.todo == [o.todo[0]] + o.todo[1..];
    Associative(o.done, [o.todo[0]], o.todo[1..]);
    SortSorts(o.taken);
    SortedPrefix(o.done + [o.todo[0]], o.todo[1..]);
  }

  lemma {:induction false} UnderwayStep(metadata: Metadata, o: Round, ok: bool)
    requires Underway(metadata, o) && o.todo != []
    ensures Underway(metadata, AfterTurn(metadata, o, ok))
  {
    TurnSplits(o);
    GroupedStep(Batches(o.sent), o.tr, o.done, o.todo[0], metadata);
    DeliveredSnoc(o.sent, Call(o.tr, ok));
  }

  lemma {:induction false} SortedPrefix(a: seq<Result>, b: seq<Result>)
    requires Sorted(a + b)
    ensures Sorted(a)
  {
    assert forall i :: 0 <= i < |a| ==> (a + b)[i] == a[i];
  }

  lemma {:induction false} RoundCompletes(metadata: Metadata, o: Round, ok: bool)
    requires Underway(metadata, o) && o.todo == []
    ensures Complete(metadata, Ended(o, ok))
  {
    assert o.done + o.todo == o.done;
    DeliveredSnoc(o.sent, Call(o.tr, ok));
  }

  lemma {:induction false} ShapedSwap(metadata: Metadata, s: State)
    requires Shaped(metadata, s) && Sound(s) && s.transmitter.Asleep?
    ensures Shaped(metadata, AfterSwap(s))
  {
    AllPings(s.queue.value);
    GroupedStart(metadata);
    assert [] + StableSort(s.queue.value) == StableSort(s.queue.value);
  }

  lemma {:induction false} ShapedFinish(metadata: Metadata, s: State, ok: bool)
    requires Shaped(metadata, s) && Enabled(s, Finish(ok))
    ensures Shaped(metadata, AfterFinish(s, ok))
  {
    var o, n := Ended(s.transmitter.round, ok), AfterFinish(s, ok);
    RoundCompletes(metadata, s.transmitter.round, ok);
    assert n.finished == s.finished + [o];
    forall i | 0 <= i < |n.finished| ensures Complete(metadata, n.finished[i]) {
      assert i < |s.finished| ==> n.finished[i] == s.finished[i];
    }
  }

  lemma {:induction false} ShapedStep(mac: Mac, metadata: Metadata, s: State, e: Step)
    requires Shaped(metadata, s) && Sound(s) && Enabled(s, e)
    ensures Shaped(metadata, Next(mac, metadata, s, e))
  {
    match e {
      case Swap => ShapedSwap(metadata, s);
      case Group(ok) => UnderwayStep(metadata, s.transmitter.round, ok);
      case Finish(ok) => ShapedFinish(metadata, s, ok);
      case _ =>
    }
  }

  /** A round that goes on takes nothing more, and its calls are the new ones. */
  lemma {:induction false} LastRound(rounds: seq<Round>, o: Round, p: Round, more: seq<Call>)
    requires p.taken == o.taken && p.sent == o.sent + more
    ensures AllTaken(rounds + [p]) == AllTaken(rounds + [o])
    ensures AllSent(rounds + [p]) == AllSent(rounds + [o]) + more
  {
    RoundsSnoc(rounds, o);
    RoundsSnoc(rounds, p);
    Associative(AllSent(rounds), o.sent, more);
  }

  lemma {:induction false} InRoundsTurn(metadata: Metadata, s: State, ok: bool)
    requires InRounds(s) && s.transmitter.Grouping? && s.transmitter.round.todo != []
    ensures InRounds(AfterGroup(metadata, s, ok))
  {
    var o := s.transmitter.round;
    LastRound(s.finished, o, AfterTurn(metadata, o, ok), if Flushes(o.tr, o.todo[0]) then [Call(o.tr, ok)] else []);
  }

  lemma {:induction false} InRoundsFinish(s: State, ok: bool)
    requires InRounds(s) && s.transmitter.Grouping?
    ensures InRounds(AfterFinish(s, ok))
  {
    var o := s.transmitter.round;
    LastRound(s.finished, o, Ended(o, ok), if o.tr.resultList != [] then [Call(o.tr, ok)] else []);
  }

  lemma {:induction false} InRoundsSwap(s: State)
    requires InRounds(s) && s.queue.Some? && s.transmitter.Asleep?
    ensures InRounds(AfterSwap(s))
  {
    RoundsSnoc(s.finished, AfterSwap(s).transmitter.round);
  }

  lemma {:induction false} InRoundsPush(s: State)
    requires InRounds(s) && s.queue.Some? && s.processor.Pushing?
    ensures InRounds(AfterPush(s))
  {
    Associative(AllTaken(RoundsOf(s)), Queued(s), [s.processor.result]);
  }

  lemma {:induction false} InRoundsStep(mac: Mac, metadata: Metadata, s: State, e: Step)
    requires InRounds(s) && Sound(s) && Enabled(s, e)
    ensures InRounds(Next(mac, metadata, s, e))
  {
    match e {
      case Swap => InRoundsSwap(s);
      case Group(ok) => InRoundsTurn(metadata, s, ok);
      case Finish(ok) => InRoundsFinish(s, ok);
      case Push => InRoundsPush(s);
      case _ =>
    }
  }

  // ----- whole runs -----

  ghost predicate Inv(mac: Mac, metadata: Metadata, s: State) {
    && Sound(s) && Flow(mac, s) && Seen(s) && Shaped(metadata, s) && InRounds(s)
    && CountedPackets(s) && CountedResults(s) && CountedCalls(s)
  }

  lemma {:induction false} RunInv(mac: Mac, metadata: Metadata, es: seq<Step>)
    requires Run(mac, metadata, es).Some?
    ensures Inv(mac, metadata, Run(mac, metadata, es).value)
    decreases |es|
  {
    if es != [] {
      var front, e := es[..|es| - 1], es[|es| - 1];
      RunInv(mac, metadata, front);
      var s := Run(mac, metadata, front).value;
      SoundStep(mac, metadata, s, e);
      FlowStep(mac, metadata, s, e);
      SeenStep(mac, metadata, s, e);
      ShapedStep(mac, metadata, s, e);
      InRoundsStep(mac, metadata, s, e);
      CountedPacketsStep(mac, metadata, s, e);
      CountedResultsStep(mac, metadata, s, e);
      CountedCallsStep(mac, metadata, s, e);
    }
  }

  lemma {:induction false} RunInOrder(t: u32, mac: Mac, metadata: Metadata, es: seq<Step>)
    requires Run(mac, metadata, es).Some?
    ensures InOrder(t, Run(mac, metadata, es).value)
    decreases |es|
  {
    if es != [] {
      var front, e := es[..|es| - 1], es[|es| - 1];
      RunInOrder(t, mac, metadata, front);
      RunInv(mac, metadata, front);
      InOrderStep(t, mac, metadata, Run(mac, metadata, front).value, e);
    }
  }

  /** In every reachable state, for every task: the results in sent batches, in the order of the calls, then
      those in the working set, then those in the queue are the pushed results in push order, and what was
      pushed is a prefix of the results of the packets, in the order they came in. */
  lemma {:induction false} PerTaskOrder(t: u32, mac: Mac, metadata: Metadata, es: seq<Step>)
    requires Run(mac, metadata, es).Some?
    ensures var s := Run(mac, metadata, es).value;
            && OfTask(t, SentResults(s)) + OfTask(t, Working(s)) + OfTask(t, Queued(s)) == OfTask(t, s.pushed)
            && s.pushed <= Results(mac, s.arrived)
  {
    RunInOrder(t, mac, metadata, es);
    RunInv(mac, metadata, es);
    var s := Run(mac, metadata, es).value;
    OfTaskConcat(t, SentResults(s), Working(s));
    Associative(s.pushed, BeingPushed(s), Results(mac, Unclassified(s)));
  }

  /** The queue is there in every reachable state, so no push is skipped and no swap fails; every packet
      counted is somewhere; the counter of transmitted results is that of the accepted batches. */
  lemma {:induction false} Conservation(mac: Mac, metadata: Metadata, es: seq<Step>)
    requires Run(mac, metadata, es).Some?
    ensures var s := Run(mac, metadata, es).value;
            && s.queue.Some? && !s.transmitter.Crashed?
            && s.received == Count(s.receiver.Holding?) + |s.channel| + Count(s.processor.Classifying?)
                             + s.valid + s.invalid + Count(s.receiver.Over? && s.receiver.counted)
            && s.valid == |SentResults(s)| + |Working(s)| + |Queued(s)| + |BeingPushed(s)|
            && s.transmitted == Delivered(s.calls) <= s.valid
  {
    RunInv(mac, metadata, es);
    DeliveredWithinSent(Run(mac, metadata, es).value.calls);
  }

  /** Every call of a run belongs to a round; rounds take up the pushed results without gap or overlap, and
      the batches of a finished round partition the stably sorted results it took, with the metadata of the
      client. */
  lemma {:induction false} RoundsPartition(mac: Mac, metadata: Metadata, es: seq<Step>)
    requires Run(mac, metadata, es).Some?
    ensures var s := Run(mac, metadata, es).value;
            && s.calls == AllSent(RoundsOf(s))
            && s.pushed == AllTaken(RoundsOf(s)) + Queued(s)
            && forall i :: 0 <= i < |s.finished| ==> InBatches(metadata, s.finished[i])
  {
    RunInv(mac, metadata, es);
    var s := Run(mac, metadata, es).value;
    forall i | 0 <= i < |s.finished| ensures InBatches(metadata, s.finished[i]) {
      assert Complete(metadata, s.finished[i]);
      var cuts := PartitionCuts(Batches(s.finished[i].sent), StableSort(s.finished[i].taken), metadata);
    }
  }

  ghost predicate InBatches(metadata: Metadata, o: Round) {
    && Partitions(Batches(o.sent), StableSort(o.taken), metadata)
    && exists cuts :: CutUp(Batches(o.sent), StableSort(o.taken), metadata, cuts)
  }

  // ----- runs by the content of the packets -----

  ghost predicate Ours(mac: Mac, a: Arrival) {
    exists value :: Signs(mac, a, value)
  }

  /** r reports a payload signed in the body of a. */
  ghost predicate MadeOf(mac: Mac, a: Arrival, r: Result) {
    exists value :: Signs(mac, a, value) && Reports(r, a, DecodePayload(value).value)
  }

  /** rs are the results of the signed packets among ps, at ks, in order; the other packets gave none. */
  ghost predicate Selected(mac: Mac, ps: seq<Arrival>, ks: seq<nat>, rs: seq<Result>) {
    && |ks| == |rs|
    && (forall i, j :: 0 <= i < j < |ks| ==> ks[i] < ks[j])
    && (forall i :: 0 <= i < |ks| ==> ks[i] < |ps| && MadeOf(mac, ps[ks[i]], rs[i]))
    && (forall k :: 0 <= k < |ps| ==> (k in ks <==> Ours(mac, ps[k])))
  }

  lemma {:induction false} OneByContent(mac: Mac, a: Arrival)
    ensures |One(mac, a)| == if Ours(mac, a) then 1 else 0
    ensures Ours(mac, a) ==> MadeOf(mac, a, One(mac, a)[0])
  {
    AttributeExactly(mac, a);
  }

  lemma {:induction false} SelectedNone(mac: Mac, ps: seq<Arrival>, ks: seq<nat>, rs: seq<Result>, a: Arrival)
    requires Selected(mac, ps, ks, rs) && !Ours(mac, a)
    ensures Selected(mac, ps + [a], ks, rs)
  {
    var all := ps + [a];
    forall i | 0 <= i < |ks| ensures ks[i] < |all| && MadeOf(mac, all[ks[i]], rs[i]) {
      assert all[ks[i]] == ps[ks[i]];
    }
    forall k | 0 <= k < |all| ensures k in ks <==> Ours(mac, all[k]) {
      if k < |ps| { assert all[k] == ps[k]; }
    }
  }

  lemma {:induction false} SelectedOne(mac: Mac, ps: seq<Arrival>, ks: seq<nat>, rs: seq<Result>, a: Arrival, r: Result)
    requires Selected(mac, ps, ks, rs) && Ours(mac, a) && MadeOf(mac, a, r)
    ensures Selected(mac, ps + [a], ks + [|ps|], rs + [r])
  {
    var all, ls, ts := ps + [a], ks + [|ps|], rs + [r];
    forall i | 0 <= i < |ls| ensures ls[i] < |all| && MadeOf(mac, all[ls[i]], ts[i]) {
      if i < |ks| { assert ls[i] == ks[i] && all[ks[i]] == ps[ks[i]] && ts[i] == rs[i]; }
    }
    forall k | 0 <= k < |all| ensures k in ls <==> Ours(mac, all[k]) {
      if k < |ps| {
        assert all[k] == ps[k];
        assert k in ks <==> Ours(mac, ps[k]);
      }
    }
  }

  lemma {:induction false} ResultsSnoc(mac: Mac, front: seq<Arrival>, a: Arrival)
    ensures Results(mac, front + [a]) == Results(mac, front) + One(mac, a)
  {
    ResultsConcat(mac, front, [a]);
    assert [a] + [] == [a];
    OneFirst(mac, a, []);
  }

  lemma {:induction false} ResultsByContent(mac: Mac, ps: seq<Arrival>) returns (ks: seq<nat>)
    ensures Selected(mac, ps, ks, Results(mac, ps))
    decreases |ps|
  {
    if ps == [] {
      ks := [];
    } else {
      var front, a := ps[..|ps| - 1], ps[|ps| - 1];
      var rs := Results(mac, front);
      ks := ResultsByContent(mac, front);
      assert ps == front + [a];
      ResultsSnoc(mac, front, a);
      OneByContent(mac, a);
      if Ours(mac, a) {
        SelectedOne(mac, front, ks, rs, a, One(mac, a)[0]);
        assert Results(mac, ps) == rs + [One(mac, a)[0]];
        ks := ks + [|front|];
      } else {
        SelectedNone(mac, front, ks, rs, a);
        assert Results(mac, ps) == rs;
      }
    }
  }

  lemma {:induction false} SameFront<T>(a: seq<T>, b: seq<T>, c: seq<T>)
    requires a + c == b + c
    ensures a == b
  {
    assert |a| == |b|;
    assert (a + c)[..|a|] == a && (b + c)[..|b|] == b;
  }

  /** In every reachable state, of the packets classified so far exactly the ICMP packets with a signed body
      were counted as valid, the others as invalid; and what was pushed, with the result being pushed, are the
      results of the valid ones, each reporting the payload signed in it, in the order of arrival. */
  lemma {:induction false} ValidBySignature(mac: Mac, metadata: Metadata, es: seq<Step>) returns (ks: seq<nat>)
    requires Run(mac, metadata, es).Some?
    ensures var s := Run(mac, metadata, es).value;
            && s.valid + s.invalid <= |s.arrived|
            && s.arrived[s.valid + s.invalid..] == Unclassified(s)
            && |ks| == s.valid
            && Selected(mac, s.arrived[..s.valid + s.invalid], ks, s.pushed + BeingPushed(s))
  {
    RunInv(mac, metadata, es);
    var s := Run(mac, metadata, es).value;
    var front, rest := s.arrived[..s.valid + s.invalid], s.arrived[s.valid + s.invalid..];
    assert s.arrived == front + rest;
    ResultsConcat(mac, front, rest);
    SameFront(Results(mac, front), s.pushed + BeingPushed(s), Results(mac, rest));
    ks := ResultsByContent(mac, front);
  }

  /** Once every thread is idle and the queue is empty, each task's sent results are those of all packets
      that arrived, in their order of arrival. */
  lemma {:induction false} QuietRun(t: u32, mac: Mac, metadata: Metadata, es: seq<Step>)
    requires Run(mac, metadata, es).Some?
    requires var s := Run(mac, metadata, es).value;
             && !s.receiver.Holding? && s.channel == [] && s.processor.Waiting?
             && s.queue == Some([]) && !s.transmitter.Grouping?
    ensures var s := Run(mac, metadata, es).value;
            OfTask(t, SentResults(s)) == OfTask(t, Results(mac, s.arrived))
  {
    RunInOrder(t, mac, metadata, es);
    RunInv(mac, metadata, es);
    var s := Run(mac, metadata, es).value;
    assert SentResults(s) + Working(s) == SentResults(s);
    assert s.pushed == Results(mac, s.arrived);
  }
}
