/** The copy in which every idle wait is `time += 1` and `round_robin` re-queues the process
    that ran before it admits the processes that arrived during its slice. */
module Samkari {
  import opened Jobs
  import opened Processes
  import opened RoundRobinSpec
  import opened Policies
  import opened Engine

  const Flags: Variant := Variant(TickByOne, TickByOne, TickByOne, RequeueFirst)

  /** `run()`: the selected policy on the new processes, with the quantum entry as it stands. */
  method Run(entries: seq<Entry>, algo: Algorithm, quantum: int) returns (completed: seq<Process>, gantt: seq<Slice>)
    requires CountsDown(algo) ==> forall k :: 0 <= k < |entries| ==> entries[k].bt > 0
    requires algo == RoundRobin ==> quantum > 0
    ensures var r := Schedule(Numbered(entries), algo, quantum, Flags.rrMode); gantt == r.gantt && Reports(completed, r.done)
  {
    var js := Numbered(entries);
    NumberedDistinct(entries);
    var list := Fresh(js);
    assert forall j :: 0 <= j < |list.items| ==> list.items[j] in list.items && list.items[j].AsJob() == js[j];
    completed, gantt := Simulate(list, algo, quantum, Flags);
  }
}
