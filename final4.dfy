/** The copy without input checks whose policies are those of cpu_scheduling_simulator.py:
    `sjf_np` and `round_robin` jump an idle clock to the next arrival, `priority_np` adds 1. */
module Final4 {
  import opened Jobs
  import opened Processes
  import opened RoundRobinSpec
  import opened Policies
  import opened Engine

  const Flags: Variant := Variant(JumpToArrival, TickByOne, JumpToArrival, AdmitFirst)

  /** `run_simulation()`: the selected policy on the new processes, the averages, which
      divide by `len(result)` and so fail on an empty table, and `auto_compare()` with the
      quantum entry as it stands. */
  method RunSimulation(entries: seq<Entry>, algo: Algorithm, quantum: int)
    returns (ok: bool, completed: seq<Process>, gantt: seq<Slice>, table: seq<Row>)
    requires entries != [] ==> quantum > 0 && forall k :: 0 <= k < |entries| ==> entries[k].bt > 0
    ensures ok <==> entries != []
    ensures !ok ==> completed == [] && gantt == [] && table == []
    ensures ok ==>
      var js := Numbered(entries);
      var r := Schedule(js, algo, quantum, Flags.rrMode);
      gantt == r.gantt && Reports(completed, r.done) && table == CompareRows(js, quantum, Flags.rrMode)
  {
    completed, gantt, table := [], [], [];
    if entries == [] {
      return false, completed, gantt, table;
    }
    var js := Numbered(entries);
    NumberedDistinct(entries);
    var list := Fresh(js);
    assert forall j :: 0 <= j < |list.items| ==> list.items[j] in list.items && list.items[j].AsJob() == js[j];
    completed, gantt := Simulate(list, algo, quantum, Flags);
    var c := AutoCompare(js, quantum, Flags);
    table := c.rows;
    ok := true;
  }
}
