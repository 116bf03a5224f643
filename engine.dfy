/** The six policies behind one selector, the schedule each one produces, and the comparison
    table that runs all six on independent copies of one workload. */
module Engine {
  import opened Jobs
  import opened Selection
  import opened Sorting
  import opened Processes
  import opened FcfsSpec
  import opened NonPreemptiveSpec
  import opened PreemptiveSpec
  import opened RoundRobinSpec
  import opened Policies

  /** The entries of the algorithm selector. */
  datatype Algorithm = Fcfs | SjfNp | SjfPre | PriorityNp | PriorityPre | RoundRobin

  /** The order in which `auto_compare` runs the policies and lists its rows. */
  const Algorithms: seq<Algorithm> := [Fcfs, SjfNp, SjfPre, PriorityNp, PriorityPre, RoundRobin]

  /** What distinguishes one copy of the engine from another: how `sjf_np`, `priority_np` and
      `round_robin` move an idle clock, and where `round_robin` re-queues a process. */
  datatype Variant = Variant(sjfIdle: IdleRule, priorityIdle: IdleRule, rrIdle: IdleRule, rrMode: Requeue)

  /** A workload every policy schedules to the end: distinct pids (the processes are numbered
      `i+1`) and positive bursts. */
  predicate Workload(js: seq<Job>)
  {
    DistinctPids(js) && forall k :: 0 <= k < |js| ==> js[k].bt > 0
  }

  /** Whether the policy runs until every process has its remaining time used up, which it
      never does for a non-positive burst. */
  predicate CountsDown(a: Algorithm)
  {
    a == SjfPre || a == PriorityPre || a == RoundRobin
  }

  /** The schedule a policy produces from a list of processes, all clocks starting at 0. The
      idle rule does not change it (see NpIdleTick, NpIdleJump and RrIdleTick). */
  function Schedule(js: seq<Job>, a: Algorithm, q: int, mode: Requeue): Run
    requires a == RoundRobin ==> q > 0
  {
    match a
    case Fcfs => FcfsRun(SortByAt(js), 0)
    case SjfNp => NpRun(js, 0, Burst)
    case PriorityNp => NpRun(js, 0, Priority)
    case SjfPre => PreRun(js, InitRem(js), 0, Burst)
    case PriorityPre => PreRun(js, InitRem(js), 0, Priority)
    case RoundRobin => RrRun(SortByAt(js), 0, [], InitRem(js), 0, q, mode)
  }

  /** Round Robin's dictionary is built before the sort, which for distinct pids is the
      dictionary of the sorted list. */
  lemma SortedStart(js: seq<Job>)
    requires Workload(js)
    ensures Workload(SortByAt(js)) && InitRem(SortByAt(js)) == InitRem(js)
    ensures multiset(SortByAt(js)) == multiset(js) && SumBt(SortByAt(js)) == SumBt(js)
  {
    var s := SortByAt(js);
    SortIsSortedPermutation(js);
    SortDistinct(js);
    SortSumBt(js);
    InitRemPermutation(js, s);
    forall k | 0 <= k < |s| ensures s[k].bt > 0 {
      assert s[k] in multiset(js);
    }
  }

  /** Every policy completes every process exactly once: the completion list is a
      permutation of the input. */
  lemma ScheduleCompletesAll(js: seq<Job>, a: Algorithm, q: int, mode: Requeue)
    requires Workload(js) && (a == RoundRobin ==> q > 0)
    ensures multiset(JobsDone(Schedule(js, a, q, mode).done)) == multiset(js)
    ensures |Schedule(js, a, q, mode).done| == |js|
  {
    var r := Schedule(js, a, q, mode);
    match a {
      case Fcfs =>
        FcfsShape(SortByAt(js), 0);
        SortIsSortedPermutation(js);
        assert JobsDone(r.done) == SortByAt(js);
      case SjfNp => NpPermutation(js, 0, Burst);
      case PriorityNp => NpPermutation(js, 0, Priority);
      case SjfPre => PreCompletesAll(js, 0, Burst);
      case PriorityPre => PreCompletesAll(js, 0, Priority);
      case RoundRobin =>
        SortedStart(js);
        RrCompletesAll(SortByAt(js), 0, q, mode);
    }
    assert |multiset(JobsDone(r.done))| == |multiset(js)|;
  }

  /** No policy fabricates or loses CPU time: the chart's durations add up to the total
      burst. */
  lemma ScheduleConservation(js: seq<Job>, a: Algorithm, q: int, mode: Requeue)
    requires Workload(js) && (a == RoundRobin ==> q > 0)
    ensures SumDur(Schedule(js, a, q, mode).gantt) == SumBt(js)
  {
    match a
    case Fcfs =>
      FcfsConservation(SortByAt(js), 0);
      SortSumBt(js);
    case SjfNp => NpConservation(js, 0, Burst);
    case PriorityNp => NpConservation(js, 0, Priority);
    case SjfPre => PreConservation(js, 0, Burst);
    case PriorityPre => PreConservation(js, 0, Priority);
    case RoundRobin =>
      SortedStart(js);
      RrConservation(SortByAt(js), 0, q, mode);
  }

  /** A quantum at least as long as every burst makes Round Robin the FCFS schedule: the same
      completion order, completion times and chart. */
  lemma RoundRobinMatchesFcfs(js: seq<Job>, q: int, mode: Requeue)
    requires Workload(js) && q > 0 && forall k :: 0 <= k < |js| ==> js[k].bt <= q
    ensures Schedule(js, RoundRobin, q, mode) == Schedule(js, Fcfs, q, mode)
  {
    var s := SortByAt(js);
    SortedStart(js);
    SortedWithinQuantum(js, q);
    RrMatchesFcfs(s, 0, q, mode);
    calc {
      Schedule(js, RoundRobin, q, mode);
      RrRun(s, 0, [], InitRem(js), 0, q, mode);
      { assert InitRem(js) == InitRem(s); }
      RrRun(s, 0, [], InitRem(s), 0, q, mode);
      FcfsRun(s, 0);
      Schedule(js, Fcfs, q, mode);
    }
  }

  lemma SortedWithinQuantum(js: seq<Job>, q: int)
    requires forall k :: 0 <= k < |js| ==> 0 < js[k].bt <= q
    ensures forall k :: 0 <= k < |SortByAt(js)| ==> 0 < SortByAt(js)[k].bt <= q
  {
    var s := SortByAt(js);
    SortIsSortedPermutation(js);
    forall k | 0 <= k < |s| ensures 0 < s[k].bt <= q {
      assert s[k] in multiset(js);
      var j :| 0 <= j < |js| && js[j] == s[k];
    }
  }

  /** The policy selected by `algo`, in one copy of the engine, on the process list. */
  method Simulate(list: ProcessList, a: Algorithm, q: int, v: Variant) returns (completed: seq<Process>, gantt: seq<Slice>)
    requires DistinctPids(JobsOf(list.items))
    requires CountsDown(a) ==> forall k :: 0 <= k < |list.items| ==> list.items[k].bt > 0
    requires a == RoundRobin ==> q > 0
    modifies list, list.items
    ensures var r := Schedule(JobsOf(old(list.items)), a, q, v.rrMode); gantt == r.gantt && Reports(completed, r.done)
  {
    match a
    case Fcfs =>
      completed, gantt := Policies.Fcfs(list);
    case SjfNp =>
      DistinctUnaliased(list.items);
      completed, gantt := NonPreemptive(list, Burst, v.sjfIdle);
    case PriorityNp =>
      DistinctUnaliased(list.items);
      completed, gantt := NonPreemptive(list, Priority, v.priorityIdle);
    case SjfPre =>
      completed, gantt := Preemptive(list.items, Burst);
    case PriorityPre =>
      completed, gantt := Preemptive(list.items, Priority);
    case RoundRobin =>
      completed, gantt := Policies.RoundRobin(list, q, v.rrMode, v.rrIdle);
  }

  /** `copy.deepcopy(base_procs)`: a new list of new process objects with the same fields. */
  method Fresh(base: seq<Job>) returns (list: ProcessList)
    ensures fresh(list) && JobsOf(list.items) == base
    ensures forall x :: x in list.items ==> fresh(x)
  {
    var ps: seq<Process> := [];
    var k := 0;
    while k < |base|
      invariant 0 <= k <= |base| && JobsOf(ps) == base[..k]
      invariant forall x :: x in ps ==> fresh(x)
    {
      var p := new Process(base[k].pid, base[k].at, base[k].bt, base[k].pr);
      JobsOfAppend(ps, [p]);
      assert base[..k + 1] == base[..k] + [base[k]];
      ps := ps + [p];
      k := k + 1;
    }
    assert base[..k] == base;
    list := new ProcessList(ps);
  }

  /** One row of the comparison table: integer totals stand for the averages, which divide
      every row's total by the same number of processes. */
  datatype Row = Row(algo: Algorithm, sumWt: int, sumTat: int, best: bool)

  /** The result of `auto_compare`: its rows, or the division by `len(res)` that fails on an
      empty workload. */
  datatype Comparison = Table(rows: seq<Row>) | EmptyWorkload

  /** The row of one policy before the tags are set. */
  function Totals(js: seq<Job>, a: Algorithm, q: int, mode: Requeue): Row
    requires a == RoundRobin ==> q > 0
  {
    var d := Schedule(js, a, q, mode).done;
    Row(a, SumWt(d), SumTat(d), false)
  }

  /** `min(r[1] for r in results)`. */
  function MinWt(rows: seq<Row>): (m: int)
    requires rows != []
    ensures (exists k :: 0 <= k < |rows| && rows[k].sumWt == m) && forall k :: 0 <= k < |rows| ==> m <= rows[k].sumWt
    decreases |rows|
  {
    if |rows| == 1 then rows[0].sumWt
    else
      var m := MinWt(rows[1..]);
      assert forall k :: 1 <= k < |rows| ==> rows[k] == rows[1..][k - 1];
      if rows[0].sumWt <= m then rows[0].sumWt else m
  }

  /** The table `auto_compare` shows: one row per policy, in the selector's order, tagged best
      when its waiting time is the minimum. */
  function CompareRows(js: seq<Job>, q: int, mode: Requeue): seq<Row>
    requires q > 0
  {
    var rows := seq(6, k requires 0 <= k < 6 => Totals(js, Algorithms[k], q, mode));
    var m := MinWt(rows);
    seq(6, k requires 0 <= k < 6 => rows[k].(best := rows[k].sumWt == m))
  }

  /** Six rows, one per policy in order; a row is tagged best exactly when no row has a smaller
      total waiting time, so at least one row is. */
  lemma CompareRowsBest(js: seq<Job>, q: int, mode: Requeue)
    requires q > 0
    ensures var rows := CompareRows(js, q, mode);
      |rows| == 6 &&
      (forall k :: 0 <= k < 6 ==>
        (rows[k].algo == Algorithms[k] &&
         rows[k].sumWt == SumWt(Schedule(js, Algorithms[k], q, mode).done) &&
         rows[k].sumTat == SumTat(Schedule(js, Algorithms[k], q, mode).done))) &&
      (forall k :: 0 <= k < 6 ==> (rows[k].best <==> forall j :: 0 <= j < 6 ==> rows[k].sumWt <= rows[j].sumWt)) &&
      exists k :: 0 <= k < 6 && rows[k].best
  {
    var u := seq(6, k requires 0 <= k < 6 => Totals(js, Algorithms[k], q, mode));
    var m := MinWt(u);
    var rows := CompareRows(js, q, mode);
    var w :| 0 <= w < 6 && u[w].sumWt == m;
    assert rows[w].best;
  }

  /** `sum(p.wt for p in res)` and `sum(p.tat for p in res)` over the completed processes. */
  method SumTimes(res: seq<Process>, ghost d: seq<Finish>) returns (wt: int, tat: int)
    requires Reports(res, d)
    ensures wt == SumWt(d) && tat == SumTat(d)
  {
    wt, tat := 0, 0;
    var k := |res|;
    while k > 0
      invariant 0 <= k <= |res|
      invariant wt == SumWt(d[k..]) && tat == SumTat(d[k..])
    {
      k := k - 1;
      ReportsTimes(res, d, k);
      assert d[k..][1..] == d[k + 1..];
      wt, tat := res[k].wt + wt, res[k].tat + tat;
    }
  }

  /** One pass of the comparison loop: the policy runs on a deep copy of the workload, and the
      row holds the totals of the processes it returns. */
  method CompareOne(base: seq<Job>, a: Algorithm, q: int, v: Variant) returns (row: Row)
    requires Workload(base) && q > 0
    ensures row == Totals(base, a, q, v.rrMode)
  {
    var list := Fresh(base);
    assert forall j :: 0 <= j < |list.items| ==> list.items[j].AsJob() == base[j];
    assert forall j :: 0 <= j < |list.items| ==> list.items[j] in list.items;
    var res, gantt := Simulate(list, a, q, v);
    var wt, tat := SumTimes(res, Schedule(base, a, q, v.rrMode).done);
    row := Row(a, wt, tat, false);
  }

  /** `auto_compare(q)`: each policy runs on its own deep copy of the workload, then the rows
      whose average waiting time is the minimum are tagged best. */
  method AutoCompare(base: seq<Job>, q: int, v: Variant) returns (c: Comparison)
    requires Workload(base) && q > 0
    ensures base == [] ==> c == EmptyWorkload
    ensures base != [] ==> c == Table(CompareRows(base, q, v.rrMode))
  {
    if base == [] {
      return EmptyWorkload;
    }
    var rows: seq<Row> := [];
    for k := 0 to 6
      invariant |rows| == k && forall j :: 0 <= j < k ==> rows[j] == Totals(base, Algorithms[j], q, v.rrMode)
    {
      var row := CompareOne(base, Algorithms[k], q, v);
      rows := rows + [row];
    }
    var m := MinWt(rows);
    var tagged: seq<Row> := [];
    for k := 0 to 6
      invariant |tagged| == k && forall j :: 0 <= j < k ==> tagged[j] == rows[j].(best := rows[j].sumWt == m)
    {
      tagged := tagged + [rows[k].(best := rows[k].sumWt == m)];
    }
    assert rows == seq(6, k requires 0 <= k < 6 => Totals(base, Algorithms[k], q, v.rrMode));
    c := Table(tagged);
  }

  /** One row of the input table, already parsed: arrival, burst and priority. */
  datatype Entry = Entry(at: int, bt: int, pr: int)

  /** `Process(i+1, at, bt, pr)` for the `i`-th row. */
  function Numbered(entries: seq<Entry>): (js: seq<Job>)
    ensures |js| == |entries|
  {
    seq(|entries|, k requires 0 <= k < |entries| => Job(k + 1, entries[k].at, entries[k].bt, entries[k].pr))
  }

  /** Numbering the rows gives every process its own pid. */
  lemma NumberedDistinct(entries: seq<Entry>)
    ensures DistinctPids(Numbered(entries))
  {
  }
}
