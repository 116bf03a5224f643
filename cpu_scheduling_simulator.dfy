/** The copy of the engine with input validation: `sjf_np` and `round_robin` jump an idle
    clock to the next arrival, `priority_np` adds 1, and `round_robin` admits the arrivals of
    a slice before it re-queues the process that ran. */
module CpuSchedulingSimulator {
  import opened Jobs
  import opened Processes
  import opened RoundRobinSpec
  import opened Policies
  import opened Engine

  const Flags: Variant := Variant(JumpToArrival, TickByOne, JumpToArrival, AdmitFirst)

  /** What `run_simulation` does with the input: it refuses a Round Robin quantum that is not
      positive, then a row with a negative arrival or priority or a non-positive burst, then
      an empty table; otherwise it simulates. */
  datatype Status = QuantumNotPositive | InvalidProcess | NoProcesses | Simulated

  predicate ValidEntry(e: Entry)
  {
    e.at >= 0 && e.bt > 0 && e.pr >= 0
  }

  /** The quantum passed on: the entry for Round Robin, 1 for every other policy. */
  function QuantumFor(algo: Algorithm, quantum: int): int
  {
    if algo == RoundRobin then quantum else 1
  }

  /** `run_simulation()`: the checks, the selected policy on the new processes, and
      `auto_compare(q_val)` on the same rows. No policy runs on refused input. */
  method RunSimulation(entries: seq<Entry>, algo: Algorithm, quantum: int)
    returns (status: Status, completed: seq<Process>, gantt: seq<Slice>, table: seq<Row>)
    ensures status == QuantumNotPositive <==> algo == RoundRobin && quantum <= 0
    ensures status == InvalidProcess <==>
      !(algo == RoundRobin && quantum <= 0) && exists k :: 0 <= k < |entries| && !ValidEntry(entries[k])
    ensures status == NoProcesses <==>
      !(algo == RoundRobin && quantum <= 0) && (forall k :: 0 <= k < |entries| ==> ValidEntry(entries[k])) && entries == []
    ensures status != Simulated ==> completed == [] && gantt == [] && table == []
    ensures status == Simulated ==>
      var js, q := Numbered(entries), QuantumFor(algo, quantum);
      var r := Schedule(js, algo, q, Flags.rrMode);
      q > 0 && gantt == r.gantt && Reports(completed, r.done) && table == CompareRows(js, q, Flags.rrMode)
  {
    completed, gantt, table := [], [], [];
    var q := 1;
    if algo == RoundRobin {
      q := quantum;
      if q <= 0 {
        return QuantumNotPositive, completed, gantt, table;
      }
    }
    var procs: seq<Process> := [];
    for i := 0 to |entries|
      invariant JobsOf(procs) == Numbered(entries)[..i]
      invariant forall k :: 0 <= k < i ==> ValidEntry(entries[k])
      invariant forall x :: x in procs ==> fresh(x)
    {
      var e := entries[i];
      if e.at < 0 || e.bt <= 0 || e.pr < 0 {
        return InvalidProcess, completed, gantt, table;
      }
      var p := new Process(i + 1, e.at, e.bt, e.pr);
      JobsOfAppend(procs, [p]);
      assert Numbered(entries)[..i + 1] == Numbered(entries)[..i] + [Numbered(entries)[i]];
      procs := procs + [p];
    }
    if procs == [] {
      return NoProcesses, completed, gantt, table;
    }
    var js := Numbered(entries);
    assert Numbered(entries)[..|entries|] == js;
    NumberedDistinct(entries);
    var list := new ProcessList(procs);
    assert forall j :: 0 <= j < |list.items| ==> list.items[j] in list.items && list.items[j].AsJob() == js[j];
    completed, gantt := Simulate(list, algo, q, Flags);
    var c := AutoCompare(js, q, Flags);
    table := c.rows;
    status := Simulated;
  }
}
