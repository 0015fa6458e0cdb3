// Sorting results by task and cutting them into one batch per task
// (the transmitter thread of src/client/handlers/ping_inbound.rs).
module Batching {
  import opened Common
  import opened Schema

  /** The task a result belongs to; absent submessages read as their defaults. */
  function TaskIdOf(r: Result): u32 {
    if r.ping.Some? && r.ping.value.payload.Some? then r.ping.value.payload.value.taskId else 0
  }

  /** The results of one task, in order. */
  function OfTask(t: u32, rs: seq<Result>): (s: seq<Result>)
    ensures |s| <= |rs|
  {
    if rs == [] then []
    else if TaskIdOf(rs[0]) == t then [rs[0]] + OfTask(t, rs[1..])
    else OfTask(t, rs[1..])
  }

  lemma {:induction false} OfTaskConcat(t: u32, a: seq<Result>, b: seq<Result>)
    ensures OfTask(t, a + b) == OfTask(t, a) + OfTask(t, b)
    decreases |a|
  {
    if a == [] {
      assert a + b == b;
    } else {
      assert (a + b)[1..] == a[1..] + b;
      OfTaskConcat(t, a[1..], b);
      if TaskIdOf(a[0]) == t { Associative([a[0]], OfTask(t, a[1..]), OfTask(t, b)); }
    }
  }

  // ----- stable sort by task id -----

  function Insert(r: Result, s: seq<Result>): (x: seq<Result>)
    ensures |x| == |s| + 1
  {
    if s == [] || TaskIdOf(r) <= TaskIdOf(s[0]) then [r] + s else [s[0]] + Insert(r, s[1..])
  }

  /** The stable sort of a list: an element goes before the later ones of its own key. */
  function StableSort(rs: seq<Result>): (s: seq<Result>)
    ensures |s| == |rs|
  {
    if rs == [] then [] else Insert(rs[0], StableSort(rs[1..]))
  }

  ghost predicate Sorted(s: seq<Result>) {
    forall i, j :: 0 <= i < j < |s| ==> TaskIdOf(s[i]) <= TaskIdOf(s[j])
  }

  lemma {:induction false} InsertSorted(r: Result, s: seq<Result>)
    requires Sorted(s)
    ensures Sorted(Insert(r, s))
    ensures forall x :: x in Insert(r, s) <==> x == r || x in s
    decreases |s|
  {
    if s != [] && TaskIdOf(s[0]) < TaskIdOf(r) {
      var rest := Insert(r, s[1..]);
      InsertSorted(r, s[1..]);
      assert forall x :: x in rest ==> TaskIdOf(s[0]) <= TaskIdOf(x);
      assert s == [s[0]] + s[1..];
    }
  }

  lemma {:induction false} SortSorts(rs: seq<Result>)
    ensures Sorted(StableSort(rs))
    ensures forall x :: x in StableSort(rs) <==> x in rs
    decreases |rs|
  {
    if rs != [] {
      SortSorts(rs[1..]);
      InsertSorted(rs[0], StableSort(rs[1..]));
      assert rs == [rs[0]] + rs[1..];
    }
  }

  lemma {:induction false} InsertStable(t: u32, r: Result, s: seq<Result>)
    requires Sorted(s)
    ensures OfTask(t, Insert(r, s)) == if TaskIdOf(r) == t then [r] + OfTask(t, s) else OfTask(t, s)
    decreases |s|
  {
    if s != [] && TaskIdOf(s[0]) < TaskIdOf(r) {
      InsertStable(t, r, s[1..]);
      assert Insert(r, s)[1..] == Insert(r, s[1..]);
      if TaskIdOf(r) == t { NoneSmaller(t, s); }
    } else {
      assert Insert(r, s)[1..] == s;
    }
  }

  lemma {:induction false} NoneSmaller(t: u32, s: seq<Result>)
    requires s != [] && TaskIdOf(s[0]) < t
    ensures OfTask(t, s) == OfTask(t, s[1..])
  {
  }

  /** Stability: the results of every task keep their order. */
  lemma {:induction false} SortIsStable(t: u32, rs: seq<Result>)
    ensures OfTask(t, StableSort(rs)) == OfTask(t, rs)
    decreases |rs|
  {
    if rs != [] {
      SortIsStable(t, rs[1..]);
      SortSorts(rs[1..]);
      InsertStable(t, rs[0], StableSort(rs[1..]));
    }
  }

  lemma {:induction false} OfTaskMember(t: u32, rs: seq<Result>)
    ensures forall x :: x in OfTask(t, rs) <==> x in rs && TaskIdOf(x) == t
    decreases |rs|
  {
    if rs != [] {
      OfTaskMember(t, rs[1..]);
      assert rs == [rs[0]] + rs[1..];
    }
  }

  lemma {:induction false} SameMembers(a: seq<Result>, b: seq<Result>)
    requires forall t: u32 :: OfTask(t, a) == OfTask(t, b)
    ensures forall x :: x in a ==> x in b
  {
    forall x | x in a ensures x in b {
      var t := TaskIdOf(x);
      OfTaskMember(t, a);
      OfTaskMember(t, b);
      assert x in OfTask(t, a);
      assert OfTask(t, a) == OfTask(t, b);
    }
  }

  lemma {:induction false} SameEmptiness(a: seq<Result>, b: seq<Result>)
    requires forall t: u32 :: OfTask(t, a) == OfTask(t, b)
    ensures a == [] <==> b == []
  {
    SameMembers(a, b);
    SameMembers(b, a);
    if a != [] { assert a[0] in b; }
    if b != [] { assert b[0] in a; }
  }

  lemma {:induction false} TailOfTask(t: u32, a: seq<Result>)
    requires a != []
    ensures OfTask(t, a[1..]) == if TaskIdOf(a[0]) == t then OfTask(t, a)[1..] else OfTask(t, a)
  {
  }

  lemma {:induction false} SmallestKey(a: seq<Result>, x: Result)
    requires Sorted(a) && x in a
    ensures TaskIdOf(a[0]) <= TaskIdOf(x)
  {
    var i :| 0 <= i < |a| && a[i] == x;
  }

  lemma {:induction false} SameHeads(a: seq<Result>, b: seq<Result>)
    requires a != [] && b != [] && Sorted(a) && Sorted(b)
    requires forall t: u32 :: OfTask(t, a) == OfTask(t, b)
    ensures a[0] == b[0]
  {
    var t := TaskIdOf(a[0]);
    SameMembers(a, b);
    SameMembers(b, a);
    SmallestKey(a, b[0]);
    SmallestKey(b, a[0]);
    assert OfTask(t, a) == OfTask(t, b);
    assert OfTask(t, a)[0] == a[0] && OfTask(t, b)[0] == b[0];
  }

  /** Sortedness and stability leave one list only: the two together are what `StableSort` is. */
  lemma {:induction false} SortUnique(a: seq<Result>, b: seq<Result>)
    requires Sorted(a) && Sorted(b)
    requires forall t: u32 :: OfTask(t, a) == OfTask(t, b)
    ensures a == b
    decreases |a|
  {
    SameEmptiness(a, b);
    if a != [] {
      SameHeads(a, b);
      forall t: u32 ensures OfTask(t, a[1..]) == OfTask(t, b[1..]) {
        TailOfTask(t, a);
        TailOfTask(t, b);
        assert OfTask(t, a) == OfTask(t, b);
      }
      SortUnique(a[1..], b[1..]);
      assert a == [a[0]] + a[1..] && b == [b[0]] + b[1..];
    }
  }

  // ----- batches -----

  /** The batch that collects what has not been sent; the first one carries the sentinel id. */
  const FIRST_BATCH: TaskResult := NEW_TASK_RESULT.(taskId := MAX32)

  function NewBatch(t: u32, metadata: Metadata): TaskResult {
    NEW_TASK_RESULT.(taskId := t, client := Some(NEW_CLIENT.(metadata := Some(metadata))))
  }

  /** Whether the current batch has to be sent before a result is added. */
  predicate Flushes(tr: TaskResult, r: Result) {
    tr.taskId != TaskIdOf(r) && tr.resultList != []
  }

  /** The current batch after a result is added. */
  function Grown(tr: TaskResult, r: Result, metadata: Metadata): TaskResult {
    var batch := if tr.taskId != TaskIdOf(r) then NewBatch(TaskIdOf(r), metadata) else tr;
    batch.(resultList := batch.resultList + [r])
  }

  /** The batches sent and, unless it is empty, the current one. */
  function WithCurrent(sent: seq<TaskResult>, tr: TaskResult): seq<TaskResult> {
    if tr.resultList != [] then sent + [tr] else sent
  }

  function Flatten(bs: seq<TaskResult>): seq<Result> {
    if bs == [] then [] else Flatten(bs[..|bs| - 1]) + bs[|bs| - 1].resultList
  }

  lemma {:induction false} FlattenSnoc(bs: seq<TaskResult>, b: TaskResult)
    ensures Flatten(bs + [b]) == Flatten(bs) + b.resultList
  {
    assert (bs + [b])[..|bs|] == bs;
  }

  ghost predicate AllSentinel(rs: seq<Result>) {
    forall i :: 0 <= i < |rs| ==> TaskIdOf(rs[i]) == MAX32
  }

  ghost predicate OfOneTask(b: TaskResult) {
    b.resultList != [] && forall i :: 0 <= i < |b.resultList| ==> TaskIdOf(b.resultList[i]) == b.taskId
  }

  /** A batch names the client that sends it, by its metadata and without an index. */
  ghost predicate SentBy(b: TaskResult, metadata: Metadata) {
    b.client.Some? && b.client.value.metadata == Some(metadata) && b.client.value.index == 0
  }

  /** bs cuts rs into batches: each non-empty and of one task, the tasks strictly increasing, nothing
      lost, added or reordered; without client exactly when every result carries the sentinel id, and
      otherwise with the metadata of the client that sends it. */
  ghost predicate Partitions(bs: seq<TaskResult>, rs: seq<Result>, metadata: Metadata) {
    && Flatten(bs) == rs
    && (forall i :: 0 <= i < |bs| ==> OfOneTask(bs[i]))
    && (forall i, j :: 0 <= i < j < |bs| ==> bs[i].taskId < bs[j].taskId)
    && (forall i :: 0 <= i < |bs| ==>
          !bs[i].isFinished && if AllSentinel(rs) then bs[i].client == None else SentBy(bs[i], metadata))
  }

  /** Between two rounds of the loop: the batches partition the results taken so far, and the current
      batch is the one of the last result. */
  ghost predicate Grouped(sent: seq<TaskResult>, tr: TaskResult, done: seq<Result>, metadata: Metadata) {
    && Partitions(WithCurrent(sent, tr), done, metadata)
    && (if done == [] then sent == [] && tr == FIRST_BATCH
        else tr.resultList != [] && tr.taskId == TaskIdOf(done[|done| - 1]))
  }

  lemma {:induction false} GroupedStart(metadata: Metadata)
    ensures Grouped([], FIRST_BATCH, [], metadata)
  {
  }

  /** One more batch of a greater task. */
  lemma {:induction false} PartitionNext(bs: seq<TaskResult>, rs: seq<Result>, b: TaskResult, metadata: Metadata)
    requires Partitions(bs, rs, metadata) && OfOneTask(b)
    requires bs != [] ==> bs[|bs| - 1].taskId < b.taskId
    requires !AllSentinel(rs + b.resultList) && (AllSentinel(rs) ==> bs == [])
    requires SentBy(b, metadata) && !b.isFinished
    ensures Partitions(bs + [b], rs + b.resultList, metadata)
  {
    var cs := bs + [b];
    FlattenSnoc(bs, b);
    assert forall i :: 0 <= i < |bs| ==> cs[i] == bs[i];
    assert cs[|bs|] == b;
    assert forall i :: 0 <= i < |bs| ==> bs[i].taskId < b.taskId by {
      assert forall i :: 0 <= i < |bs| - 1 ==> bs[i].taskId < bs[|bs| - 1].taskId;
    }
    assert forall i :: 0 <= i < |cs| ==> OfOneTask(cs[i]);
  }

  /** One more result in the last batch. */
  lemma {:induction false} PartitionGrown(sent: seq<TaskResult>, tr: TaskResult, rs: seq<Result>, r: Result, metadata: Metadata)
    requires Partitions(sent + [tr], rs, metadata) && tr.taskId == TaskIdOf(r)
    requires AllSentinel(rs + [r]) <==> AllSentinel(rs)
    ensures Partitions(sent + [tr.(resultList := tr.resultList + [r])], rs + [r], metadata)
  {
    var b := tr.(resultList := tr.resultList + [r]);
    var bs, cs := sent + [tr], sent + [b];
    assert Flatten(cs) == rs + [r] by {
      FlattenSnoc(sent, tr);
      FlattenSnoc(sent, b);
      Associative(Flatten(sent), tr.resultList, [r]);
    }
    assert forall i :: 0 <= i < |sent| ==> cs[i] == bs[i];
    assert cs[|sent|] == b && bs[|sent|] == tr;
    OneTaskGrown(tr, r);
  }

  lemma {:induction false} OneTaskGrown(tr: TaskResult, r: Result)
    requires OfOneTask(tr) && tr.taskId == TaskIdOf(r)
    ensures OfOneTask(tr.(resultList := tr.resultList + [r]))
  {
  }

  lemma {:induction false} OneMoreSentinel(done: seq<Result>, r: Result)
    ensures AllSentinel(done + [r]) <==> AllSentinel(done) && TaskIdOf(r) == MAX32
  {
    assert forall i :: 0 <= i < |done| ==> (done + [r])[i] == done[i];
    assert (done + [r])[|done|] == r;
  }

  /** The loop body keeps the batches a partition, on sorted input. */
  lemma {:induction false} GroupedStep(sent: seq<TaskResult>, tr: TaskResult, done: seq<Result>, r: Result, metadata: Metadata)
    requires Grouped(sent, tr, done, metadata) && Sorted(done + [r])
    ensures Grouped(if Flushes(tr, r) then sent + [tr] else sent, Grown(tr, r, metadata), done + [r], metadata)
  {
    var b := Grown(tr, r, metadata);
    OneMoreSentinel(done, r);
    if done == [] {
      FirstResult(r, metadata);
      assert [] + [r] == [r];
    } else {
      var all := done + [r];
      assert TaskIdOf(all[|done| - 1]) <= TaskIdOf(all[|done|]);
      assert all[|done| - 1] == done[|done| - 1] && all[|done|] == r;
      if tr.taskId != TaskIdOf(r) {
        assert b.resultList == [r];
        assert !AllSentinel(done);
        PartitionNext(sent + [tr], done, b, metadata);
      } else {
        PartitionGrown(sent, tr, done, r, metadata);
      }
    }
  }

  lemma {:induction false} FirstResult(r: Result, metadata: Metadata)
    ensures Grouped([], Grown(FIRST_BATCH, r, metadata), [r], metadata)
  {
    var b := Grown(FIRST_BATCH, r, metadata);
    assert b.resultList == [r];
    FlattenSnoc([], b);
    assert [] + [b] == [b];
    assert AllSentinel([r]) <==> TaskIdOf(r) == MAX32 by { assert [r][0] == r; }
  }

  /** A result of task t, by its payload; without one it counts as task 0. */
  ghost predicate Keyed(r: Result, t: u32) {
    && (r.ping.Some? && r.ping.value.payload.Some? ==> r.ping.value.payload.value.taskId == t)
    && (r.ping.None? || r.ping.value.payload.None? ==> t == 0)
  }

  /** The results of a batch are those at from..to in a list. */
  ghost predicate Stretch(b: TaskResult, rs: seq<Result>, from: nat, to: nat) {
    from < to <= |rs| && b.resultList == rs[from..to]
  }

  /** A partition in terms of the messages' own fields: each batch is the stretch of the list between two
      cuts, its results have its task id in their payloads, and unless all of them have the sentinel there,
      every batch carries the metadata. */
  ghost predicate CutUp(bs: seq<TaskResult>, rs: seq<Result>, metadata: Metadata, cuts: seq<nat>) {
    && |cuts| == |bs| + 1 && cuts[0] == 0 && cuts[|bs|] == |rs|
    && (forall i :: 0 <= i < |bs| ==> Stretch(bs[i], rs, cuts[i], cuts[i + 1]))
    && (forall i, k :: 0 <= i < |bs| && cuts[i] <= k < cuts[i + 1] ==> Keyed(rs[k], bs[i].taskId))
    && (forall i, j :: 0 <= i < j < |bs| ==> bs[i].taskId < bs[j].taskId)
    && (forall i :: 0 <= i < |bs| ==>
          if forall k :: 0 <= k < |rs| ==> Keyed(rs[k], 0xFFFF_FFFF) then bs[i].client == None
          else bs[i].client.Some? && bs[i].client.value.metadata == Some(metadata))
  }

  lemma {:induction false} KeyIs(r: Result, t: u32)
    ensures Keyed(r, t) <==> TaskIdOf(r) == t
  {
  }

  lemma {:induction false} SentinelKeys(rs: seq<Result>)
    ensures AllSentinel(rs) <==> forall k :: 0 <= k < |rs| ==> Keyed(rs[k], 0xFFFF_FFFF)
  {
    forall r: Result ensures Keyed(r, 0xFFFF_FFFF) <==> TaskIdOf(r) == 0xFFFF_FFFF { KeyIs(r, 0xFFFF_FFFF); }
  }

  lemma {:induction false} PartitionCuts(bs: seq<TaskResult>, rs: seq<Result>, metadata: Metadata) returns (cuts: seq<nat>)
    requires Partitions(bs, rs, metadata)
    ensures CutUp(bs, rs, metadata, cuts)
  {
    assert bs[..|bs|] == bs;
    assert forall i :: 0 <= i < |bs| ==> OfOneTask(bs[i]);
    cuts := CutPoints(bs, |bs|);
    forall i, k | 0 <= i < |bs| && cuts[i] <= k < cuts[i + 1] ensures Keyed(rs[k], bs[i].taskId) {
      assert Stretch(bs[i], rs, cuts[i], cuts[i + 1]);
      assert rs[k] == bs[i].resultList[k - cuts[i]];
      KeyIs(rs[k], bs[i].taskId);
    }
    SentinelKeys(rs);
  }

  lemma {:induction false} CutPoints(bs: seq<TaskResult>, n: nat) returns (cuts: seq<nat>)
    requires n <= |bs| && forall i :: 0 <= i < |bs| ==> bs[i].resultList != []
    ensures |cuts| == n + 1 && cuts[0] == 0 && cuts[n] == |Flatten(bs[..n])|
    ensures forall i :: 0 <= i < n ==> Stretch(bs[i], Flatten(bs[..n]), cuts[i], cuts[i + 1])
    decreases n
  {
    if n == 0 {
      cuts := [0];
    } else {
      var before := CutPoints(bs, n - 1);
      var front, all := Flatten(bs[..n - 1]), Flatten(bs[..n]);
      assert bs[..n] == bs[..n - 1] + [bs[n - 1]];
      FlattenSnoc(bs[..n - 1], bs[n - 1]);
      assert all == front + bs[n - 1].resultList;
      cuts := before + [|all|];
      forall i | 0 <= i < n ensures Stretch(bs[i], all, cuts[i], cuts[i + 1]) {
        if i < n - 1 {
          assert Stretch(bs[i], front, cuts[i], cuts[i + 1]);
          assert front[cuts[i]..cuts[i + 1]] == all[cuts[i]..cuts[i + 1]];
        }
      }
    }
  }

  /** In a partition, the batch of a task holds all results of that task. */
  lemma {:induction false} BatchHoldsItsTask(bs: seq<TaskResult>, rs: seq<Result>, metadata: Metadata, i: nat)
    requires Partitions(bs, rs, metadata) && i < |bs|
    ensures bs[i].resultList == OfTask(bs[i].taskId, rs)
  {
    OnlyIn(bs, i, |bs|);
    assert bs[..|bs|] == bs;
  }

  lemma {:induction false} OnlyIn(bs: seq<TaskResult>, i: nat, n: nat)
    requires i < |bs| && n <= |bs|
    requires forall k :: 0 <= k < |bs| ==> OfOneTask(bs[k])
    requires forall k, l :: 0 <= k < l < |bs| ==> bs[k].taskId < bs[l].taskId
    ensures OfTask(bs[i].taskId, Flatten(bs[..n])) == if i < n then bs[i].resultList else []
    decreases n
  {
    if n > 0 {
      var t, front, last := bs[i].taskId, bs[..n - 1], bs[n - 1];
      OnlyIn(bs, i, n - 1);
      assert Flatten(bs[..n]) == Flatten(front) + last.resultList by {
        assert bs[..n] == front + [last];
        FlattenSnoc(front, last);
      }
      assert OfTask(t, last.resultList) == if i == n - 1 then last.resultList else [] by {
        assert OfOneTask(last);
        OfTaskUniform(t, last.taskId, last.resultList);
      }
      OfTaskConcat(t, Flatten(front), last.resultList);
    }
  }

  lemma {:induction false} OfTaskUniform(t: u32, u: u32, rs: seq<Result>)
    requires forall i :: 0 <= i < |rs| ==> TaskIdOf(rs[i]) == u
    ensures OfTask(t, rs) == if t == u then rs else []
    decreases |rs|
  {
    if rs != [] {
      OfTaskUniform(t, u, rs[1..]);
      assert rs == [rs[0]] + rs[1..];
    }
  }
}
