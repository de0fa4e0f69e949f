/**
 Delivery of the pending command outbox: commands are grouped by thread or plugin in
 creation order, the groups are delivered concurrently, and each stops at its first failure.
 */
module CommandDelivery {
  import opened Common
  import Sorting

  /** What the input says about its target; `Threaded` has a thread field that may be empty. */
  datatype Target = Threaded(threadId: Option<string>) | Plugin(pluginId: string) | Neither

  datatype Command = Command(commandId: string, createdAt: int, target: Target, body: string) {
    function Key(): string {
      match target
      case Threaded(Some(threadId)) => threadId
      case Plugin(pluginId) => "plugin:" + pluginId
      case _ => commandId
    }
  }

  function ByCreation(): Sorting.Less<Command> {
    (a: Command, b: Command) => a.createdAt < b.createdAt
  }

  function Ordered(commands: seq<Command>): seq<Command> {
    Sorting.Sort(commands, ByCreation())
  }

  function OfKey(key: string): Command -> bool {
    (c: Command) => c.Key() == key
  }

  /** The commands of one key, oldest first. */
  function Queue(commands: seq<Command>, key: string): seq<Command> {
    Sorting.Filter(Ordered(commands), OfKey(key))
  }

  // ----- grouping -----

  /** The keys in order of first appearance. */
  function Keys(commands: seq<Command>): seq<string> {
    if commands == [] then []
    else
      var n := |commands| - 1;
      var before := Keys(commands[..n]);
      if commands[n].Key() in before then before else before + [commands[n].Key()]
  }

  function Get(groups: map<string, seq<Command>>, key: string): seq<Command> {
    if key in groups then groups[key] else []
  }

  lemma FilterNext(sorted: seq<Command>, i: nat, key: string)
    requires i < |sorted|
    ensures Sorting.Filter(sorted[..i + 1], OfKey(key))
         == Sorting.Filter(sorted[..i], OfKey(key)) + if sorted[i].Key() == key then [sorted[i]] else []
  {
    assert sorted[..i + 1][..i] == sorted[..i];
  }

  lemma KeysNext(sorted: seq<Command>, i: nat)
    requires i < |sorted|
    ensures Keys(sorted[..i + 1])
         == Keys(sorted[..i]) + if sorted[i].Key() in Keys(sorted[..i]) then [] else [sorted[i].Key()]
  {
    assert sorted[..i + 1][..i] == sorted[..i];
  }

  method GroupByKey(commands: seq<Command>) returns (keys: seq<string>, groups: map<string, seq<Command>>)
    ensures keys == Keys(Ordered(commands))
    ensures forall key :: key in groups <==> key in keys
    ensures Groups(groups, Ordered(commands))
  {
    var sorted := Ordered(commands);
    keys, groups := [], map[];
    for i := 0 to |sorted|
      invariant keys == Keys(sorted[..i])
      invariant forall key :: key in groups <==> key in keys
      invariant Groups(groups, sorted[..i])
    {
      var key := sorted[i].Key();
      ghost var before := groups;
      KeysNext(sorted, i);
      if key !in groups {
        keys := keys + [key];
      }
      groups := groups[key := Get(groups, key) + [sorted[i]]];
      AddedToGroup(before, groups, sorted, i);
    }
    assert sorted[..|sorted|] == sorted;
  }

  /** The groups of a prefix. */
  ghost predicate Groups(groups: map<string, seq<Command>>, prefix: seq<Command>) {
    forall key :: Get(groups, key) == Sorting.Filter(prefix, OfKey(key))
  }

  lemma AddedToGroup(before: map<string, seq<Command>>, after: map<string, seq<Command>>, sorted: seq<Command>, i: nat)
    requires i < |sorted| && Groups(before, sorted[..i])
    requires after == before[sorted[i].Key() := Get(before, sorted[i].Key()) + [sorted[i]]]
    ensures Groups(after, sorted[..i + 1])
  {
    forall key ensures Get(after, key) == Sorting.Filter(sorted[..i + 1], OfKey(key)) {
      FilterNext(sorted, i, key);
    }
  }

  lemma {:induction false} KeysCover(commands: seq<Command>)
    ensures forall i, j :: 0 <= i < j < |Keys(commands)| ==> Keys(commands)[i] != Keys(commands)[j]
    ensures forall c :: c in commands ==> c.Key() in Keys(commands)
  {
    if commands != [] {
      var n := |commands| - 1;
      KeysCover(commands[..n]);
      assert commands == commands[..n] + [commands[n]];
    }
  }

  function Concat(queues: seq<seq<Command>>): seq<Command> {
    if queues == [] then [] else queues[0] + Concat(queues[1..])
  }

  function Partition(commands: seq<Command>, keys: seq<string>): seq<seq<Command>> {
    seq(|keys|, i requires 0 <= i < |keys| => Sorting.Filter(commands, OfKey(keys[i])))
  }

  lemma {:induction false} FilterRest(commands: seq<Command>, key: string)
    ensures multiset(commands) == multiset(Sorting.Filter(commands, OfKey(key)))
      + multiset(Sorting.Filter(commands, (c: Command) => c.Key() != key))
  {
    if commands != [] {
      FilterRest(commands[..|commands| - 1], key);
      Sorting.Snoc(commands);
    }
  }

  /** Leaving out the first key leaves the other groups as they are. */
  lemma PartitionTail(commands: seq<Command>, keys: seq<string>, rest: seq<Command>)
    requires keys != [] && forall i :: 0 < i < |keys| ==> keys[i] != keys[0]
    requires rest == Sorting.Filter(commands, (c: Command) => c.Key() != keys[0])
    ensures Partition(commands, keys)[1..] == Partition(rest, keys[1..])
  {
    forall i | 0 < i < |keys|
      ensures Sorting.Filter(rest, OfKey(keys[i])) == Sorting.Filter(commands, OfKey(keys[i]))
    {
      Sorting.FilterFilter(commands, (c: Command) => c.Key() != keys[0], OfKey(keys[i]), OfKey(keys[i]));
    }
  }

  lemma RestCovered(commands: seq<Command>, keys: seq<string>, rest: seq<Command>)
    requires keys != [] && rest == Sorting.Filter(commands, (c: Command) => c.Key() != keys[0])
    requires forall c :: c in commands ==> c.Key() in keys
    ensures forall c :: c in rest ==> c.Key() in keys[1..]
  {
    Sorting.FilterMembers(commands, (c: Command) => c.Key() != keys[0]);
    assert keys == [keys[0]] + keys[1..];
  }

  /** Each command is in exactly one group. */
  lemma {:induction false} PartitionIsPermutation(commands: seq<Command>, keys: seq<string>)
    requires forall i, j :: 0 <= i < j < |keys| ==> keys[i] != keys[j]
    requires forall c :: c in commands ==> c.Key() in keys
    ensures multiset(Concat(Partition(commands, keys))) == multiset(commands)
    decreases |keys|
  {
    if keys == [] {
      if commands != [] {
        Sorting.InHead(commands);
        assert false;
      }
    } else {
      var rest := Sorting.Filter(commands, (c: Command) => c.Key() != keys[0]);
      FilterRest(commands, keys[0]);
      RestCovered(commands, keys, rest);
      PartitionIsPermutation(rest, keys[1..]);
      PartitionTail(commands, keys, rest);
    }
  }

  // ----- the workers -----

  datatype Phase = Idle | Delivering | Settling | Failed

  /** `next` commands of the queue are settled. */
  datatype Worker = Worker(queue: seq<Command>, next: nat, phase: Phase)

  /** The two histories are shared: delivery attempts and settlements, in the order they happened. */
  datatype State = State(keys: seq<string>, workers: seq<Worker>, attempted: seq<Command>, settled: seq<Command>)

  ghost predicate Init(s: State, commands: seq<Command>) {
    && s.keys == Keys(Ordered(commands))
    && |s.workers| == |s.keys|
    && (forall i :: 0 <= i < |s.keys| ==> s.workers[i] == Worker(Queue(commands, s.keys[i]), 0, Idle))
    && s.attempted == [] && s.settled == []
  }

  /** Worker i takes up its next command; a failed one takes up nothing. */
  ghost predicate Begin(s: State, t: State, i: nat) {
    && i < |s.workers| && s.workers[i].phase == Idle && s.workers[i].next < |s.workers[i].queue|
    && t == s.(
      workers := s.workers[i := s.workers[i].(phase := Delivering)],
      attempted := s.attempted + [s.workers[i].queue[s.workers[i].next]])
  }

  /** The runtime accepted the command. */
  ghost predicate Accepted(s: State, t: State, i: nat) {
    && i < |s.workers| && s.workers[i].phase == Delivering
    && t == s.(workers := s.workers[i := s.workers[i].(phase := Settling)])
  }

  ghost predicate Settled(s: State, t: State, i: nat) {
    && i < |s.workers| && s.workers[i].phase == Settling && s.workers[i].next < |s.workers[i].queue|
    && t == s.(
      workers := s.workers[i := s.workers[i].(next := s.workers[i].next + 1, phase := Idle)],
      settled := s.settled + [s.workers[i].queue[s.workers[i].next]])
  }

  /** Delivery or settlement threw: the worker ends. */
  ghost predicate Threw(s: State, t: State, i: nat) {
    && i < |s.workers| && s.workers[i].phase in {Delivering, Settling}
    && t == s.(workers := s.workers[i := s.workers[i].(phase := Failed)])
  }

  ghost predicate Step(s: State, t: State) {
    exists i: nat :: Begin(s, t, i) || Accepted(s, t, i) || Settled(s, t, i) || Threw(s, t, i)
  }

  ghost predicate IsRun(run: seq<State>, commands: seq<Command>) {
    && run != [] && Init(run[0], commands)
    && forall n :: 0 <= n < |run| - 1 ==> Step(run[n], run[n + 1])
  }

  // ----- what every interleaving keeps -----

  /** The histories of one key, told by its worker. */
  ghost predicate WorkerAgrees(s: State, i: nat, commands: seq<Command>)
    requires i < |s.keys| == |s.workers|
  {
    var mine := OfKey(s.keys[i]);
    Tells(s.workers[i], Queue(commands, s.keys[i]), Sorting.Filter(s.settled, mine), Sorting.Filter(s.attempted, mine))
  }

  predicate Tells(w: Worker, queue: seq<Command>, settled: seq<Command>, attempted: seq<Command>) {
    && w.queue == queue
    && w.next <= |queue|
    && (w.phase != Idle ==> w.next < |queue|)
    && settled == queue[..w.next]
    && attempted == if w.phase == Idle then queue[..w.next] else queue[..w.next + 1]
  }

  ghost predicate Inv(s: State, commands: seq<Command>) {
    && s.keys == Keys(Ordered(commands)) && |s.workers| == |s.keys|
    && (forall i :: 0 <= i < |s.keys| ==> WorkerAgrees(s, i, commands))
    && (forall c :: c in s.settled ==> c in commands)
  }

  lemma QueueMember(commands: seq<Command>, key: string, n: nat)
    requires n < |Queue(commands, key)|
    ensures Queue(commands, key)[n].Key() == key && Queue(commands, key)[n] in commands
  {
    Sorting.FilterMembers(Ordered(commands), OfKey(key));
    assert Queue(commands, key)[n] in Queue(commands, key);
    OrderedIsPermutation(commands);
  }

  lemma ByCreationIsWeak()
    ensures Sorting.StrictWeak(ByCreation())
  {
  }

  lemma InitHolds(s: State, commands: seq<Command>)
    requires Init(s, commands)
    ensures Inv(s, commands)
  {
  }

  /** Appending a command of one key changes the history of that key alone. */
  lemma FilterAppend(history: seq<Command>, c: Command, key: string)
    ensures Sorting.Filter(history + [c], OfKey(key))
         == Sorting.Filter(history, OfKey(key)) + if c.Key() == key then [c] else []
  {
    Sorting.FilterConcat(history, [c], OfKey(key));
    Sorting.FilterOne(c, OfKey(key));
  }

  lemma DistinctKeys(commands: seq<Command>, i: nat, j: nat)
    requires i < |Keys(Ordered(commands))| && j < |Keys(Ordered(commands))| && i != j
    ensures Keys(Ordered(commands))[i] != Keys(Ordered(commands))[j]
  {
    KeysCover(Ordered(commands));
  }

  lemma BeginKeeps(s: State, t: State, i: nat, commands: seq<Command>)
    requires Inv(s, commands) && Begin(s, t, i)
    ensures Inv(t, commands)
  {
    forall j | 0 <= j < |t.keys| ensures WorkerAgrees(t, j, commands) {
      BegunWorker(s, t, i, j, commands);
    }
  }

  lemma BegunWorker(s: State, t: State, i: nat, j: nat, commands: seq<Command>)
    requires Inv(s, commands) && Begin(s, t, i) && j < |t.keys|
    ensures WorkerAgrees(t, j, commands)
  {
    assert WorkerAgrees(s, i, commands) && WorkerAgrees(s, j, commands);
    var w := s.workers[i];
    var c := w.queue[w.next];
    QueueMember(commands, s.keys[i], w.next);
    FilterAppend(s.attempted, c, s.keys[j]);
    if j == i {
      OwnBegun(w, w.queue, Sorting.Filter(s.settled, OfKey(s.keys[i])), Sorting.Filter(s.attempted, OfKey(s.keys[i])));
    } else {
      DistinctKeys(commands, i, j);
      assert Sorting.Filter(t.attempted, OfKey(t.keys[j])) == Sorting.Filter(s.attempted, OfKey(s.keys[j])) + [];
    }
  }

  lemma OwnBegun(w: Worker, queue: seq<Command>, settled: seq<Command>, attempted: seq<Command>)
    requires Tells(w, queue, settled, attempted) && w.phase == Idle && w.next < |queue|
    ensures Tells(w.(phase := Delivering), queue, settled, attempted + [queue[w.next]])
  {
    assert queue[..w.next] + [queue[w.next]] == queue[..w.next + 1];
  }

  lemma SettledWorker(s: State, t: State, i: nat, j: nat, commands: seq<Command>)
    requires Inv(s, commands) && Settled(s, t, i) && j < |t.keys|
    ensures WorkerAgrees(t, j, commands)
  {
    assert WorkerAgrees(s, i, commands) && WorkerAgrees(s, j, commands);
    var w := s.workers[i];
    var c := w.queue[w.next];
    QueueMember(commands, s.keys[i], w.next);
    FilterAppend(s.settled, c, s.keys[j]);
    if j == i {
      OwnSettled(w, w.queue, Sorting.Filter(s.settled, OfKey(s.keys[i])), Sorting.Filter(s.attempted, OfKey(s.keys[i])));
    } else {
      DistinctKeys(commands, i, j);
      assert Sorting.Filter(t.settled, OfKey(t.keys[j])) == Sorting.Filter(s.settled, OfKey(s.keys[j])) + [];
    }
  }

  lemma OwnSettled(w: Worker, queue: seq<Command>, settled: seq<Command>, attempted: seq<Command>)
    requires Tells(w, queue, settled, attempted) && w.phase == Settling
    ensures Tells(w.(next := w.next + 1, phase := Idle), queue, settled + [queue[w.next]], attempted)
  {
    assert queue[..w.next] + [queue[w.next]] == queue[..w.next + 1];
  }

  lemma SettledKeeps(s: State, t: State, i: nat, commands: seq<Command>)
    requires Inv(s, commands) && Settled(s, t, i)
    ensures Inv(t, commands)
  {
    assert WorkerAgrees(s, i, commands);
    QueueMember(commands, s.keys[i], s.workers[i].next);
    forall j | 0 <= j < |t.keys| ensures WorkerAgrees(t, j, commands) {
      SettledWorker(s, t, i, j, commands);
    }
  }

  lemma PhaseKeeps(s: State, t: State, i: nat, commands: seq<Command>)
    requires Inv(s, commands) && (Accepted(s, t, i) || Threw(s, t, i))
    ensures Inv(t, commands)
  {
    forall j | 0 <= j < |t.keys| ensures WorkerAgrees(t, j, commands) {
      assert WorkerAgrees(s, j, commands);
    }
  }

  lemma StepKeeps(s: State, t: State, commands: seq<Command>)
    requires Inv(s, commands) && Step(s, t)
    ensures Inv(t, commands)
  {
    var i: nat :| Begin(s, t, i) || Accepted(s, t, i) || Settled(s, t, i) || Threw(s, t, i);
    if Begin(s, t, i) {
      BeginKeeps(s, t, i, commands);
    } else if Settled(s, t, i) {
      SettledKeeps(s, t, i, commands);
    } else {
      PhaseKeeps(s, t, i, commands);
    }
  }

  lemma {:induction false} RunKeeps(run: seq<State>, commands: seq<Command>)
    requires IsRun(run, commands)
    ensures Inv(run[|run| - 1], commands)
  {
    var n := |run| - 1;
    if n == 0 {
      InitHolds(run[0], commands);
    } else {
      RunKeeps(run[..n], commands);
      assert Step(run[n - 1], run[n]);
      StepKeeps(run[n - 1], run[n], commands);
    }
  }

  /**
   In every interleaving, the settled commands of a key are the oldest of its queue, in order; what was
   attempted is those and at most the next one; and after a failure nothing follows it.
   */
  lemma PerKeyOrder(run: seq<State>, commands: seq<Command>, i: nat)
    requires IsRun(run, commands) && i < |Keys(Ordered(commands))|
    ensures var s, key := run[|run| - 1], Keys(Ordered(commands))[i];
      && |s.workers| == |Keys(Ordered(commands))|
      && var queue, n := Queue(commands, key), s.workers[i].next;
      && n <= |queue|
      && Sorting.Filter(s.settled, OfKey(key)) == queue[..n]
      && (Sorting.Filter(s.attempted, OfKey(key)) == queue[..n]
          || (n < |queue| && Sorting.Filter(s.attempted, OfKey(key)) == queue[..n + 1]))
      && (s.workers[i].phase == Failed ==> n < |queue| && Sorting.Filter(s.attempted, OfKey(key)) == queue[..n + 1])
  {
    RunKeeps(run, commands);
    assert WorkerAgrees(run[|run| - 1], i, commands);
  }

  // ----- oldest first -----

  /** Both are for one thread, or for one plugin. */
  predicate SameGroup(c: Command, d: Command) {
    c.target == d.target && (c.target.Plugin? || (c.target.Threaded? && c.target.threadId.Some?))
  }

  /** A queue holds the commands of its key, oldest first. */
  lemma QueueIsByAge(commands: seq<Command>, key: string, i: nat, j: nat)
    requires i < j < |Queue(commands, key)|
    ensures Queue(commands, key)[i].createdAt <= Queue(commands, key)[j].createdAt
  {
    ByCreationIsWeak();
    Sorting.SortOrders(commands, ByCreation());
    FilterByAge(Ordered(commands), OfKey(key), i, j);
  }

  predicate ByAge(commands: seq<Command>) {
    forall i, j :: 0 <= i < j < |commands| ==> commands[i].createdAt <= commands[j].createdAt
  }

  lemma {:induction false} FilterByAge(sorted: seq<Command>, keep: Command -> bool, i: nat, j: nat)
    requires ByAge(sorted) && i < j < |Sorting.Filter(sorted, keep)|
    ensures Sorting.Filter(sorted, keep)[i].createdAt <= Sorting.Filter(sorted, keep)[j].createdAt
  {
    var n := |sorted| - 1;
    var front := Sorting.Filter(sorted[..n], keep);
    if j < |front| {
      FilterByAge(sorted[..n], keep, i, j);
    } else {
      Sorting.FilterMembers(sorted[..n], keep);
      assert front[i] in sorted[..n];
      var k :| 0 <= k < n && sorted[..n][k] == front[i];
      assert sorted[k] == front[i];
    }
  }

  /** Every command of a key is in its queue. */
  lemma InQueue(commands: seq<Command>, c: Command)
    requires c in commands
    ensures c in Queue(commands, c.Key())
  {
    OrderedIsPermutation(commands);
    Sorting.SameMembers(commands, Ordered(commands));
    Sorting.FilterMembers(Ordered(commands), OfKey(c.Key()));
  }

  lemma {:induction false} FilterUpTo(log: seq<Command>, keep: Command -> bool, j: nat)
    requires j < |log| && keep(log[j])
    ensures Sorting.Filter(log[..j], keep) + [log[j]] <= Sorting.Filter(log, keep)
  {
    var n := |log| - 1;
    if j < n {
      FilterUpTo(log[..n], keep, j);
      assert log[..n][..j] == log[..j];
    }
  }

  /** In a log whose part of each key starts that key's queue, an older command of the group comes before a newer one. */
  lemma OlderComesFirst(commands: seq<Command>, log: seq<Command>, d: Command, j: nat) returns (i: nat)
    requires j < |log| && d in commands && SameGroup(log[j], d) && d.createdAt < log[j].createdAt
    requires Sorting.Filter(log, OfKey(d.Key())) <= Queue(commands, d.Key())
    ensures i < j && log[i] == d
  {
    var key, c := d.Key(), log[j];
    var before := Sorting.Filter(log[..j], OfKey(key));
    var queue, m := Queue(commands, key), |before|;
    FilterUpTo(log, OfKey(key), j);
    assert (before + [c])[m] == c && before + [c] <= queue;
    InQueue(commands, d);
    var q :| 0 <= q < |queue| && queue[q] == d;
    if q > m {
      QueueIsByAge(commands, key, m, q);
    }
    assert q < m && before[q] == d;
    Sorting.FilterMembers(log[..j], OfKey(key));
    assert d in log[..j];
    i :| 0 <= i < |log[..j]| && log[..j][i] == d;
  }

  /** In every run, when a command is settled every strictly older one of its thread or plugin has been settled before it. */
  lemma OlderIsSettledFirst(run: seq<State>, commands: seq<Command>, d: Command, j: nat) returns (i: nat)
    requires IsRun(run, commands) && d in commands && j < |run[|run| - 1].settled|
    requires SameGroup(run[|run| - 1].settled[j], d) && d.createdAt < run[|run| - 1].settled[j].createdAt
    ensures i < j && run[|run| - 1].settled[i] == d
  {
    var n := SettledPrefix(run, commands, d.Key());
    i := OlderComesFirst(commands, run[|run| - 1].settled, d, j);
  }

  /** The same over any number of rounds. */
  lemma OlderIsSettledFirstInRounds(commands: seq<Command>, logs: seq<seq<Command>>, d: Command, j: nat)
    returns (i: nat)
    requires Sorting.NoDuplicates(commands) && Rounds(commands, logs) && d in commands && j < |Concat(logs)|
    requires SameGroup(Concat(logs)[j], d) && d.createdAt < Concat(logs)[j].createdAt
    ensures i < j && Concat(logs)[i] == d
  {
    RoundsKeepOrder(commands, logs, d.Key());
    i := OlderComesFirst(commands, Concat(logs), d, j);
  }

  /** The commands of one thread or plugin that were created at one time. */
  function CreatedWith(c: Command): Command -> bool {
    (d: Command) => d.target == c.target && d.createdAt == c.createdAt
  }

  /** In every run, commands of one thread or plugin created at the same time are settled in the order of the input. */
  lemma TiesAreSettledInInputOrder(run: seq<State>, commands: seq<Command>, c: Command)
    requires IsRun(run, commands) && SameGroup(c, c)
    ensures Sorting.Filter(run[|run| - 1].settled, CreatedWith(c)) <= Sorting.Filter(commands, CreatedWith(c))
  {
    var settled, mine, ties := run[|run| - 1].settled, OfKey(c.Key()), CreatedWith(c);
    var n := SettledPrefix(run, commands, c.Key());
    Sorting.FilterFilter(settled, mine, ties, ties);
    Sorting.FilterPrefix(Queue(commands, c.Key())[..n], Queue(commands, c.Key()), ties);
    Sorting.FilterFilter(Ordered(commands), mine, ties, ties);
    ByCreationIsWeak();
    Sorting.SortFilter(commands, ByCreation(), ties);
    Sorting.FilterMembers(commands, ties);
    Sorting.SortTies(Sorting.Filter(commands, ties), ByCreation());
  }

  /** A failed worker never moves again. */
  lemma FailedIsFinal(s: State, t: State, i: nat)
    requires Step(s, t) && i < |s.workers| && s.workers[i].phase == Failed
    ensures i < |t.workers| && t.workers[i] == s.workers[i]
  {
  }

  // ----- conservation -----

  ghost predicate Finished(s: State) {
    forall i :: 0 <= i < |s.workers| ==>
      s.workers[i].next <= |s.workers[i].queue|
      && (s.workers[i].phase == Failed || (s.workers[i].phase == Idle && s.workers[i].next == |s.workers[i].queue|))
  }

  function Done(w: Worker): seq<Command>
    requires w.next <= |w.queue|
  {
    w.queue[..w.next]
  }

  /** The command a failure is reported for. */
  function Failure(w: Worker): seq<Command> {
    if w.phase == Failed && w.next < |w.queue| then [w.queue[w.next]] else []
  }

  function Untouched(w: Worker): seq<Command>
    requires w.next <= |w.queue|
  {
    w.queue[w.next + |Failure(w)|..]
  }

  lemma {:induction false} ConcatParts(
    whole: seq<seq<Command>>, a: seq<seq<Command>>, b: seq<seq<Command>>, c: seq<seq<Command>>)
    requires |whole| == |a| == |b| == |c|
    requires forall i :: 0 <= i < |whole| ==> whole[i] == a[i] + b[i] + c[i]
    ensures multiset(Concat(whole)) == multiset(Concat(a)) + multiset(Concat(b)) + multiset(Concat(c))
  {
    if whole != [] {
      ConcatParts(whole[1..], a[1..], b[1..], c[1..]);
      assert whole[0] == a[0] + b[0] + c[0];
    }
  }

  function Delivered(workers: seq<Worker>): nat {
    if workers == [] then 0 else workers[0].next + Delivered(workers[1..])
  }

  function Each(workers: seq<Worker>, part: Worker -> seq<Command>): seq<seq<Command>> {
    seq(|workers|, i requires 0 <= i < |workers| => part(workers[i]))
  }

  lemma {:induction false} DeliveredIsLength(workers: seq<Worker>, done: seq<seq<Command>>)
    requires |done| == |workers|
    requires forall i :: 0 <= i < |workers| ==> |done[i]| == workers[i].next
    ensures |Concat(done)| == Delivered(workers)
  {
    if workers != [] {
      DeliveredIsLength(workers[1..], done[1..]);
    }
  }

  lemma OrderedIsPermutation(commands: seq<Command>)
    ensures multiset(Ordered(commands)) == multiset(commands)
    ensures forall c :: c in Ordered(commands) <==> c in commands
  {
    ByCreationIsWeak();
    Sorting.SortOrders(commands, ByCreation());
    Sorting.SameMembers(commands, Ordered(commands));
  }

  /** Grouping by key neither loses nor repeats a command, in the input and in the settled history. */
  lemma GroupsArePermutations(s: State, commands: seq<Command>)
    requires Inv(s, commands)
    ensures multiset(Concat(Partition(Ordered(commands), s.keys))) == multiset(commands)
    ensures multiset(Concat(Partition(s.settled, s.keys))) == multiset(s.settled)
  {
    OrderedIsPermutation(commands);
    KeysCover(Ordered(commands));
    PartitionIsPermutation(Ordered(commands), s.keys);
    PartitionIsPermutation(s.settled, s.keys);
  }

  function Left(w: Worker): seq<Command> {
    if w.next <= |w.queue| then Untouched(w) else []
  }

  lemma WorkerParts(s: State, i: nat, commands: seq<Command>)
    requires Inv(s, commands) && Finished(s) && i < |s.keys|
    ensures var w := s.workers[i];
      && Sorting.Filter(Ordered(commands), OfKey(s.keys[i]))
      == Sorting.Filter(s.settled, OfKey(s.keys[i])) + Failure(w) + Left(w)
      && |Sorting.Filter(s.settled, OfKey(s.keys[i]))| == w.next
  {
    assert WorkerAgrees(s, i, commands);
    var w := s.workers[i];
    assert w.queue == Done(w) + Failure(w) + Untouched(w);
  }

  lemma ConservedIn(s: State, commands: seq<Command>)
    requires Inv(s, commands) && Finished(s)
    ensures multiset(Concat(Partition(s.settled, s.keys))) + multiset(Concat(Each(s.workers, Failure)))
      + multiset(Concat(Each(s.workers, Left))) == multiset(Concat(Partition(Ordered(commands), s.keys)))
    ensures |Concat(Partition(s.settled, s.keys))| == Delivered(s.workers)
  {
    var done, whole := Partition(s.settled, s.keys), Partition(Ordered(commands), s.keys);
    var failures, left := Each(s.workers, Failure), Each(s.workers, Left);
    forall i | 0 <= i < |s.keys|
      ensures |done[i]| == s.workers[i].next && whole[i] == done[i] + failures[i] + left[i]
    {
      WorkerParts(s, i, commands);
    }
    ConcatParts(whole, done, failures, left);
    DeliveredIsLength(s.workers, done);
  }

  /** Settled, failed and untouched commands together are exactly the input, each once. */
  lemma Conservation(run: seq<State>, commands: seq<Command>)
    requires IsRun(run, commands) && Finished(run[|run| - 1])
    ensures var s := run[|run| - 1];
      && multiset(s.settled) + multiset(Concat(Each(s.workers, Failure))) + multiset(Concat(Each(s.workers, Left)))
      == multiset(commands)
      && Delivered(s.workers) == |s.settled|
  {
    var s := run[|run| - 1];
    RunKeeps(run, commands);
    GroupsArePermutations(s, commands);
    ConservedIn(s, commands);
    var done := Concat(Partition(s.settled, s.keys));
    assert |multiset(done)| == |done| && |multiset(s.settled)| == |s.settled|;
  }

  lemma {:induction false} ConcatEmpty(lists: seq<seq<Command>>)
    requires forall i :: 0 <= i < |lists| ==> lists[i] == []
    ensures Concat(lists) == []
  {
    if lists != [] {
      ConcatEmpty(lists[1..]);
    }
  }

  /** When all workers have ended and none has failed, exactly the input has been settled. */
  lemma AllSettled(run: seq<State>, commands: seq<Command>)
    requires IsRun(run, commands) && Finished(run[|run| - 1]) && NoneFailed(run[|run| - 1])
    ensures multiset(run[|run| - 1].settled) == multiset(commands)
  {
    Conservation(run, commands);
    NothingRemains(run[|run| - 1]);
  }

  lemma NothingRemains(s: State)
    requires Finished(s) && NoneFailed(s)
    ensures Concat(Each(s.workers, Failure)) == [] && Concat(Each(s.workers, Left)) == []
  {
    var failures, left := Each(s.workers, Failure), Each(s.workers, Left);
    forall i | 0 <= i < |s.workers| ensures failures[i] == [] && left[i] == [] {
      EndedWorker(s.workers[i]);
    }
    ConcatEmpty(failures);
    ConcatEmpty(left);
  }

  lemma EndedWorker(w: Worker)
    requires w.phase == Idle && w.next == |w.queue|
    ensures Failure(w) == [] && Left(w) == []
  {
  }

  /** A thread's commands queue under its id, a plugin's under its id with a prefix, any other under its own. */
  predicate QueuesUnder(c: Command, key: string) {
    || (c.target.Threaded? && c.target.threadId == Some(key))
    || (c.target.Plugin? && key == "plugin:" + c.target.pluginId)
    || (c.target == Threaded(None) && key == c.commandId)
    || (c.target == Neither && key == c.commandId)
  }

  /** A queue holds exactly the commands that queue under its key. */
  lemma QueueHolds(commands: seq<Command>, key: string, c: Command)
    ensures c in Queue(commands, key) <==> c in commands && QueuesUnder(c, key)
  {
    OrderedIsPermutation(commands);
    Sorting.FilterMembers(Ordered(commands), OfKey(key));
  }

  /** Its worker failed on this command. */
  ghost predicate FailedOn(s: State, f: Command) {
    exists i :: 0 <= i < |s.workers| && WorkerFailedOn(s.workers[i], f)
  }

  predicate WorkerFailedOn(w: Worker, f: Command) {
    w.phase == Failed && w.next < |w.queue| && w.queue[w.next] == f
  }

  /**
   When all workers have ended, a command that was not settled is held back by a failed one of its own queue that is not
   newer, or failed itself: no failure stops the commands of another thread, plugin or single command.
   */
  lemma HeldBackByOlder(run: seq<State>, commands: seq<Command>, c: Command, key: string) returns (f: Command)
    requires IsRun(run, commands) && Finished(run[|run| - 1])
    requires c in commands && QueuesUnder(c, key) && c !in run[|run| - 1].settled
    ensures FailedOn(run[|run| - 1], f) && f in commands && QueuesUnder(f, key) && f.createdAt <= c.createdAt
  {
    var s := run[|run| - 1];
    RunKeeps(run, commands);
    KeysCover(Ordered(commands));
    OrderedIsPermutation(commands);
    var i :| 0 <= i < |s.keys| && s.keys[i] == key;
    assert WorkerAgrees(s, i, commands);
    f := WorkerHoldsBack(s.workers[i], s.settled, commands, c, key);
    assert WorkerFailedOn(s.workers[i], f);
    QueueHolds(commands, key, f);
  }

  lemma WorkerHoldsBack(w: Worker, settled: seq<Command>, commands: seq<Command>, c: Command, key: string)
    returns (f: Command)
    requires w.queue == Queue(commands, key) && w.next <= |w.queue|
    requires w.phase == Failed || w.next == |w.queue|
    requires Sorting.Filter(settled, OfKey(key)) == w.queue[..w.next]
    requires c in commands && QueuesUnder(c, key) && c !in settled
    ensures w.next < |w.queue| && w.queue[w.next] == f && w.phase == Failed
    ensures f in Queue(commands, key) && f.createdAt <= c.createdAt
  {
    QueueHolds(commands, key, c);
    var q :| 0 <= q < |w.queue| && w.queue[q] == c;
    Sorting.FilterMembers(settled, OfKey(key));
    assert c !in w.queue[..w.next];
    assert q >= w.next;
    f := w.queue[w.next];
    if w.next < q {
      QueueIsByAge(commands, key, w.next, q);
    }
  }

  ghost predicate NoneFailed(s: State) {
    forall i :: 0 <= i < |s.workers| ==> s.workers[i].phase != Failed
  }

  // ----- repeated rounds -----

  function Unsettled(commands: seq<Command>, log: seq<Command>): seq<Command> {
    Sorting.Filter(commands, (c: Command) => c !in log)
  }

  /** Some interleaving of a round over `commands` settles exactly `log`. */
  ghost predicate RoundSettles(commands: seq<Command>, log: seq<Command>) {
    exists run: seq<State> :: IsRun(run, commands) && run[|run| - 1].settled == log
  }

  /** Each round works on what the rounds before it left unsettled. */
  ghost predicate Rounds(commands: seq<Command>, logs: seq<seq<Command>>)
    decreases |logs|
  {
    logs == [] || (RoundSettles(commands, logs[0]) && Rounds(Unsettled(commands, logs[0]), logs[1..]))
  }

  lemma {:induction false} FilterNoDuplicates(commands: seq<Command>, keep: Command -> bool)
    requires Sorting.NoDuplicates(commands)
    ensures Sorting.NoDuplicates(Sorting.Filter(commands, keep))
  {
    if commands != [] {
      var n := |commands| - 1;
      FilterNoDuplicates(commands[..n], keep);
      Sorting.FilterMembers(commands[..n], keep);
    }
  }

  lemma {:induction false} SuffixUnsettled(queue: seq<Command>, n: nat, log: seq<Command>, key: string)
    requires n <= |queue| && Sorting.NoDuplicates(queue)
    requires forall c :: c in queue ==> c.Key() == key
    requires Sorting.Filter(log, OfKey(key)) == queue[..n]
    ensures Sorting.Filter(queue, (c: Command) => c !in log) == queue[n..]
  {
    Sorting.FilterMembers(log, OfKey(key));
    var keep := (c: Command) => c !in log;
    forall i | 0 <= i < |queue| ensures keep(queue[i]) <==> i >= n {
      assert queue[i] in queue;
      if i < n {
        assert queue[..n][i] in queue[..n];
      } else {
        assert queue[i] !in queue[..n];
      }
    }
    KeepSuffix(queue, n, keep);
  }

  lemma KeepSuffix(queue: seq<Command>, n: nat, keep: Command -> bool)
    requires n <= |queue| && forall i :: 0 <= i < |queue| ==> (keep(queue[i]) <==> i >= n)
    ensures Sorting.Filter(queue, keep) == queue[n..]
  {
    assert queue[..n] + queue[n..] == queue;
    KeepParts(queue[..n], queue[n..], keep);
  }

  lemma KeepParts(left: seq<Command>, right: seq<Command>, keep: Command -> bool)
    requires forall i :: 0 <= i < |left| ==> !keep(left[i])
    requires forall i :: 0 <= i < |right| ==> keep(right[i])
    ensures Sorting.Filter(left + right, keep) == right
  {
    KeepAlike(left, false, keep);
    KeepAlike(right, true, keep);
    Sorting.FilterConcat(left, right, keep);
  }

  lemma {:induction false} KeepAlike(part: seq<Command>, kept: bool, keep: Command -> bool)
    requires forall i :: 0 <= i < |part| ==> (keep(part[i]) <==> kept)
    ensures Sorting.Filter(part, keep) == if kept then part else []
  {
    if part != [] {
      KeepAlike(part[..|part| - 1], kept, keep);
    }
  }

  /** The next round's queue of a key is the rest of this round's. */
  lemma NextQueue(commands: seq<Command>, log: seq<Command>, key: string) returns (n: nat)
    requires Sorting.NoDuplicates(commands) && RoundSettles(commands, log)
    ensures n <= |Queue(commands, key)|
    ensures Sorting.Filter(log, OfKey(key)) == Queue(commands, key)[..n]
    ensures Queue(Unsettled(commands, log), key) == Queue(commands, key)[n..]
  {
    var run: seq<State> :| IsRun(run, commands) && run[|run| - 1].settled == log;
    var queue, unsettled := Queue(commands, key), (c: Command) => c !in log;
    n := SettledPrefix(run, commands, key);
    QueueFacts(commands, key);
    SuffixUnsettled(queue, n, log, key);
    ByCreationIsWeak();
    Sorting.SortFilter(commands, ByCreation(), unsettled);
    var both := (c: Command) => c !in log && c.Key() == key;
    Sorting.FilterFilter(Ordered(commands), unsettled, OfKey(key), both);
    Sorting.FilterFilter(Ordered(commands), OfKey(key), unsettled, both);
  }

  lemma SettledPrefix(run: seq<State>, commands: seq<Command>, key: string) returns (n: nat)
    requires IsRun(run, commands)
    ensures n <= |Queue(commands, key)|
    ensures Sorting.Filter(run[|run| - 1].settled, OfKey(key)) == Queue(commands, key)[..n]
  {
    var s := run[|run| - 1];
    RunKeeps(run, commands);
    if key in s.keys {
      var i :| 0 <= i < |s.keys| && s.keys[i] == key;
      assert WorkerAgrees(s, i, commands);
      n := s.workers[i].next;
    } else {
      n := 0;
      KeysCover(Ordered(commands));
      OrderedIsPermutation(commands);
      NothingKept(s.settled, key);
    }
  }

  lemma NothingKept(commands: seq<Command>, key: string)
    requires forall c :: c in commands ==> c.Key() != key
    ensures Sorting.Filter(commands, OfKey(key)) == []
  {
    KeepAlike(commands, false, OfKey(key));
  }

  lemma QueueFacts(commands: seq<Command>, key: string)
    requires Sorting.NoDuplicates(commands)
    ensures Sorting.NoDuplicates(Queue(commands, key))
    ensures forall c :: c in Queue(commands, key) ==> c.Key() == key
  {
    OrderedIsPermutation(commands);
    Sorting.PermutationNoDuplicates(commands, Ordered(commands));
    FilterNoDuplicates(Ordered(commands), OfKey(key));
    Sorting.FilterMembers(Ordered(commands), OfKey(key));
  }

  /**
   However many rounds it takes and however each is interleaved, what has been settled of a key is
   always the oldest part of its original queue, in order.
   */
  lemma {:induction false} RoundsKeepOrder(commands: seq<Command>, logs: seq<seq<Command>>, key: string)
    requires Sorting.NoDuplicates(commands) && Rounds(commands, logs)
    ensures Sorting.Filter(Concat(logs), OfKey(key)) <= Queue(commands, key)
    decreases |logs|
  {
    if logs != [] {
      var n := NextQueue(commands, logs[0], key);
      FilterNoDuplicates(commands, (c: Command) => c !in logs[0]);
      RoundsKeepOrder(Unsettled(commands, logs[0]), logs[1..], key);
      Sorting.FilterConcat(logs[0], Concat(logs[1..]), OfKey(key));
      PrefixJoin(
        Sorting.Filter(logs[0], OfKey(key)), Sorting.Filter(Concat(logs[1..]), OfKey(key)), Queue(commands, key), n);
    }
  }

  lemma PrefixJoin(a: seq<Command>, b: seq<Command>, queue: seq<Command>, n: nat)
    requires n <= |queue| && a == queue[..n] && b <= queue[n..]
    ensures a + b <= queue
  {
  }
}
