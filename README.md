# CPU scheduling simulator: the scheduling engine

This project models the scheduling engine of a desktop CPU-scheduling simulator, and proves
properties of that model. The repository has four copies of the engine:
`cpu_scheduling_simulator.py`, `final4.py`, `final2.py` and `samkari.py`.

Each copy has the same parts:

- A mutable `Process` record with the fixed fields `pid`, `at`, `bt` and `pr`, and the results
  `ct`, `tat` and `wt`.
- Six policies, each returning the completed processes and a Gantt chart of
  `(pid, start, duration)` slices:
  - `fcfs`;
  - `sjf_np` and `priority_np`, the non-preemptive policies;
  - `sjf_preemptive` and `priority_preemptive`, one-unit ticks;
  - `round_robin`, a FIFO queue with quantum `q`.
- The code that builds the processes from the form and runs the selected policy.
- In three copies, `auto_compare`. It runs all six policies on copies of the workload and marks
  the rows with the least average waiting time.

The copies differ in three ways:

- **The idle clock.** `sjf_np` and `round_robin` either jump to the next arrival or add 1.
- **Round Robin admission.** New arrivals join the queue either before or after the process that
  just ran goes back to the tail.
- **Input checks.** Only `cpu_scheduling_simulator.py` checks the input before running.

## How the model is built

The model has two layers.

**Reference layer (values).**

- The modules `Jobs`, `Selection`, `Sorting`, `FcfsSpec`, `NonPreemptiveSpec`,
  `PreemptiveSpec` and `RoundRobinSpec` define each policy as a function on values.
- The module `NoPreemption` relates the preemptive and the non-preemptive runs when every
  process has arrived at the start.
- `FcfsRun`, `NpRun`, `PreRun` and `RrRun` map a list of `Job(pid, at, bt, pr)` to a `Run`.
- A `Run` holds the completion records (`Finish(job, ct)`) and the chart.
- The properties of the policies are lemmas about these functions.

**Program layer (objects).**

- `Processes.Process` is a class. Its four fixed fields are constants; `ct`, `tat` and `wt` are
  variables.
- `Processes.ProcessList` holds the Python list that `sort` and `remove` change in place.
- The module `Policies` has one method per policy, with the loops of the source.
- Each policy method is proved to return exactly the reference layer's chart, together with
  processes whose fields report the reference layer's completion records (`Reports`).
- `Engine` dispatches on the selected policy (`Simulate`) and models `auto_compare`
  (`AutoCompare`).

**Per-copy modules.**

- `CpuSchedulingSimulator`, `Final4`, `Final2` and `Samkari` each fix their copy's variant
  flags: `IdleRule` for each idle wait, and `Requeue` for Round Robin admission.
- Each models that copy's `run_simulation` or `run`.

**The idle rules.** Jumping the clock to the next arrival and adding 1 give the same schedule on
integer times. Each idle method therefore proves that both rules lead to the same reference
function (`NpIdle`, `RrIdle`). Round Robin's admission order does change the schedule, so
`RrRun` takes the `Requeue` mode as an argument.

**Tie-breaking.** Python's stable `sort` picks the first process, in list order, among those
with the least key. The model's selection functions (`FirstMin`, `PreFirstMin`) scan in list
order and keep the first minimum.

## Model

| member | source | states |
|---|---|---|
| Processes.Process.constructor | cpu_scheduling_simulator.py:10-15 | a new process holds the given fixed fields, and `ct`, `tat` and `wt` start at 0 |
| Processes.Process.Complete | cpu_scheduling_simulator.py:24-25 | on completion `ct` is the clock, `tat = ct - at` and `wt = tat - bt`, with the original burst |
| Processes.InsertByArrival | cpu_scheduling_simulator.py:19 | inserting a process into an arrival-sorted list is the reference insertion on the fixed fields and adds exactly that object |
| Processes.SortByArrival | cpu_scheduling_simulator.py:19 | the list is rearranged: same objects, the fixed fields in stable arrival order |
| Jobs.InitRemAt | cpu_scheduling_simulator.py:47 | with distinct pids, the remaining-time dictionary maps every process's pid to its own burst |
| Sorting.SortIsSortedPermutation | cpu_scheduling_simulator.py:103 | the arrival sort gives a list sorted by arrival that is a permutation of its input |
| Sorting.SortIsStable | final4.py:104 | processes with equal arrival times keep their list order |
| Sorting.SortKeepsSorted | final2.py:112 | a list already in arrival order is not changed by the sort |
| Sorting.InitRemPermutation | cpu_scheduling_simulator.py:102-103 | the remaining-time map built before the sort equals the one built from the sorted list |
| FcfsSpec.FcfsRun | cpu_scheduling_simulator.py:17-26 | the FCFS run has one completion record and one slice per process |
| FcfsSpec.FcfsShape | cpu_scheduling_simulator.py:17-26 | one record and one slice per process, in list order; slice k starts at max(end of slice k-1, at) and lasts bt; ct is the slice's end |
| FcfsSpec.FcfsNoWaitBeforeArrival | final4.py:18-27 | every FCFS waiting time is at least 0; no slice starts before its arrival or before the previous slice ends |
| FcfsSpec.FcfsConservation | final2.py:20-31 | FCFS slice durations sum to the total burst |
| FcfsSpec.FcfsExample | cpu_scheduling_simulator.py:17-26 | arrivals/bursts (0,5),(1,3),(2,8),(3,6) give ct 5, 8, 16, 22 and wt 0, 4, 6, 13 |
| FcfsSpec.FcfsIdleStart | samkari.py:22 | a start clock no later than the first arrival gives the same schedule |
| NonPreemptiveSpec.DecisionTime | cpu_scheduling_simulator.py:31-34 | the clock a decision is taken at is no earlier than the current clock, and some process has arrived by then |
| NonPreemptiveSpec.NpIdleJump | cpu_scheduling_simulator.py:32-34 | with nothing arrived, jumping to the least arrival does not change the schedule |
| NonPreemptiveSpec.NpIdleTick | cpu_scheduling_simulator.py:68-70 | with nothing arrived, adding 1 to the clock does not change the schedule |
| NonPreemptiveSpec.NpRun | samkari.py:30-46 | the non-preemptive run has as many records and slices as processes |
| NonPreemptiveSpec.NpPermutation | cpu_scheduling_simulator.py:28-43 | each process completes exactly once: completed jobs are a permutation of the input |
| NonPreemptiveSpec.NpSlices | cpu_scheduling_simulator.py:38-41 | slice k is the k-th completed process's, lasts its full burst, starts no earlier than its arrival or the previous end, and ct is its end |
| NonPreemptiveSpec.NpWaitNonNegative | final4.py:29-44 | every non-preemptive waiting time is at least 0 |
| NonPreemptiveSpec.NpConservation | final2.py:33-49 | non-preemptive slice durations sum to the total burst |
| NonPreemptiveSpec.NpIdleRule | final4.py:31-34 | the CPU idles before a slice only when no process still to run had arrived |
| NonPreemptiveSpec.NpSelectionRule | cpu_scheduling_simulator.py:35-36 | among processes still to run that had arrived, the chosen one has the least bt (or pr); with input-ordered pids a tie goes to the smaller pid |
| NonPreemptiveSpec.NpChosenBeats | final2.py:40-41 | the chosen process's key is no larger than that of any other arrived process, and beats equal keys later in the list |
| PreemptiveSpec.PreIdleRule | cpu_scheduling_simulator.py:50-52 | the chart has a gap before a slice only when, at that slice's start, no process with remaining time had arrived earlier |
| PreemptiveSpec.InitWithinBurst | cpu_scheduling_simulator.py:47 | the remaining-time dictionary starts with every process's remaining time between 0 and its burst |
| PreemptiveSpec.TickWithinBurst | cpu_scheduling_simulator.py:56 | a tick that takes one unit from a process with time left keeps every remaining time between 0 and its burst |
| PreemptiveSpec.PreUnitSlices | cpu_scheduling_simulator.py:55 | every preemptive slice lasts 1, starts no earlier than the clock, and belongs to a listed process |
| PreemptiveSpec.PrePerPid | final2.py:51-69 | a pid's slices sum to its remaining time (so to bt from the start) |
| PreemptiveSpec.PreConservation | final2.py:51-69 | preemptive slice durations sum to the total burst |
| PreemptiveSpec.PreCompletesAll | samkari.py:48-66 | with positive bursts, each process completes exactly once |
| PreemptiveSpec.PreCompletionRule | cpu_scheduling_simulator.py:58-61 | a process's ct is the end of its last slice: it completes on the tick its remaining time reaches 0 |
| PreemptiveSpec.PreSelectionRule | cpu_scheduling_simulator.py:49-54 | every tick runs a ready process whose remaining time (or pr) is least, the first in list order among equals |
| PreemptiveSpec.PreBestUpToIsMin | cpu_scheduling_simulator.py:85-90 | the scan finds no process exactly when none is ready, and otherwise the first ready one with least key |
| NoPreemption.PreemptiveMatchesNonPreemptive | final4.py:29-63 | when every process has arrived at the start, shortest-remaining-time-first completes the same processes, in the same order and at the same times, as non-preemptive SJF; preemptive Priority does the same as non-preemptive Priority |
| NoPreemption.PreemptiveAsNonPreemptive | final4.py:46-63 | once every process has arrived, and none has run, the preemptive run completes exactly what the non-preemptive run over the pending processes completes |
| NoPreemption.RunsToCompletion | final4.py:49-62 | with every process arrived, a process that beats every other pending one keeps the CPU tick after tick and is the next to complete, when its remaining time is used up |
| NoPreemption.DominatesAfterTick | final4.py:57 | a tick of the process that beats the others leaves it beating them: their remaining times are unchanged and its key does not grow |
| NoPreemption.DominantIsPicked | final4.py:50-55 | a ready process that beats every other pending one is the one the tick runs |
| NoPreemption.SameScan | final4.py:32-37 | when nothing has run yet, the preemptive scan over the whole list and the non-preemptive scan over the pending list pick the same process |
| RoundRobinSpec.RrIdleTick | final2.py:118-120 | with the queue empty, adding 1 to the clock does not change the schedule |
| RoundRobinSpec.RrInvServe | cpu_scheduling_simulator.py:112-124 | a turn runs a process with time left for between 1 and q units, and no process is lost or duplicated |
| RoundRobinSpec.RrCompletesAll | cpu_scheduling_simulator.py:100-125 | with q > 0 and positive bursts, each process completes exactly once |
| RoundRobinSpec.RrSlices | cpu_scheduling_simulator.py:113-116 | every slice belongs to a listed process and lasts min(q, what that process has left at that point), which is its burst less its earlier slices; so it lasts between 1 and q, and starts no earlier than the clock or the previous slice's end |
| RoundRobinSpec.RrIdleRule | cpu_scheduling_simulator.py:109-111 | on an arrival-sorted list, the chart has a gap before a slice only when no process with time left had arrived by then, and no slice starts before its process arrives |
| RoundRobinSpec.AdmitFirstExample | cpu_scheduling_simulator.py:117-120 | with q = 2, P1 (at 0, bt 3) and P2 (at 1, bt 2), admitting first gives the slices P1 at 0 for 2, then P2 at 2 for 2 |
| RoundRobinSpec.RequeueFirstExample | samkari.py:111-123 | with the same workload, re-queueing first gives the slices P1 at 0 for 2, then P1 again at 2 for 1 |
| RoundRobinSpec.RrAdmissionOrder | samkari.py:111-123 | the two admission orders give different charts for the same workload and quantum |
| RoundRobinSpec.RrPerPid | samkari.py:119-122 | a pid's slices sum to its remaining time |
| RoundRobinSpec.RrConservation | final2.py:109-135 | Round Robin slice durations sum to the total burst |
| RoundRobinSpec.RrMatchesFcfs | cpu_scheduling_simulator.py:100-125 | with every burst at most q, Round Robin gives exactly the FCFS run |
| Policies.FirstArrived | cpu_scheduling_simulator.py:31-36 | returns -1 exactly when no process has arrived, otherwise the first arrived process with least key |
| Policies.EarliestArrival | cpu_scheduling_simulator.py:33 | returns the least arrival time of the remaining processes |
| Policies.Fcfs | cpu_scheduling_simulator.py:17-26 | sorts the list in place and returns it with the FCFS chart; every process reports its record |
| Policies.RunInOrder | cpu_scheduling_simulator.py:20-25 | runs the sorted list in order with the FCFS chart and records |
| Policies.NonPreemptive | cpu_scheduling_simulator.py:28-43 | empties the list and returns the non-preemptive chart and completed processes, each one of the list's own objects |
| Policies.NpLoop | cpu_scheduling_simulator.py:30-43 | the decision loop returns the non-preemptive chart and the input's own objects, reporting the completion records |
| Policies.NpIdle | final2.py:37-39 | the idle step jumps or adds 1, as the copy does, and keeps the schedule |
| Policies.RemoveProcess | cpu_scheduling_simulator.py:37 | `list.remove` of the chosen object removes exactly that element |
| Policies.InitialRemaining | cpu_scheduling_simulator.py:47 | builds the map from each pid to its burst |
| Policies.FirstReady | cpu_scheduling_simulator.py:49-54 | returns -1 exactly when no process is ready, otherwise the first ready one with least key |
| Policies.Preemptive | cpu_scheduling_simulator.py:45-62 | returns the preemptive chart and completed processes, the input's own objects, ticking until all complete; every remaining time stays between 0 and the burst |
| Policies.RunTick | cpu_scheduling_simulator.py:54-61 | a tick adds 1 to the clock, takes one unit from the chosen process, completes it when nothing is left, and keeps every remaining time between 0 and its burst |
| Policies.PreDecision | cpu_scheduling_simulator.py:49-61 | one pass of the loop either runs a tick, reducing the total remaining time, or idles, adding 1 to the clock with nothing else changed |
| Policies.Admit | cpu_scheduling_simulator.py:117-119 | appends to the queue, in list order, the processes arrived by the clock |
| Policies.RrIdle | cpu_scheduling_simulator.py:109-111 | the idle step jumps or adds 1, as the copy does, and keeps the schedule |
| Policies.Advance | cpu_scheduling_simulator.py:112-121 | one turn: slice, counter update, admission and re-queue, as the reference turn does |
| Policies.Dispatch | cpu_scheduling_simulator.py:112-124 | one turn, completing the process when no time is left |
| Policies.RoundRobin | cpu_scheduling_simulator.py:100-125 | sorts the list in place and returns the Round Robin chart and completed processes, each one of the list's own objects |
| Policies.RrPass | cpu_scheduling_simulator.py:105-124 | one pass of the loop admits, then either idles with nothing else changed or runs a turn that reduces the total remaining time |
| Policies.RrLoop | cpu_scheduling_simulator.py:105-125 | the loop returns the Round Robin chart and the input's own objects, reporting the completion records |
| Engine.Simulate | cpu_scheduling_simulator.py:193-199 | runs the selected policy in the copy's variant and returns its chart and completed processes |
| Engine.ScheduleCompletesAll | cpu_scheduling_simulator.py:194-199 | every policy completes each process of a valid workload exactly once |
| Engine.ScheduleConservation | final2.py:186-191 | under every policy, slice durations sum to the total burst |
| Engine.RoundRobinMatchesFcfs | cpu_scheduling_simulator.py:199 | with q at least every burst, Round Robin and FCFS give the same run |
| Engine.Fresh | cpu_scheduling_simulator.py:221 | the deep copy is a new list of new processes with the same fixed fields |
| Engine.MinWt | cpu_scheduling_simulator.py:230 | the least total waiting time, taken by some row |
| Engine.CompareRowsBest | cpu_scheduling_simulator.py:228-234 | six rows in selector order with each policy's total waiting and turnaround times; a row is best exactly when its wt is least; at least one is best |
| Engine.CompareOne | cpu_scheduling_simulator.py:221-228 | one policy on a fresh copy of the workload gives the row of that policy's total waiting and turnaround times |
| Engine.SumTimes | final2.py:226 | sums the waiting and turnaround times of the returned processes |
| Engine.AutoCompare | cpu_scheduling_simulator.py:215-234 | runs every policy on its own copy and returns exactly the comparison table, or nothing for an empty workload |
| Engine.Numbered | cpu_scheduling_simulator.py:181-187 | the form gives one process per row |
| Engine.NumberedDistinct | cpu_scheduling_simulator.py:187 | processes numbered 1, 2, … from the form have distinct pids |
| CpuSchedulingSimulator.RunSimulation | cpu_scheduling_simulator.py:173-210 | rejects q ≤ 0 for Round Robin, then a bad at, bt or pr, then an empty form; on rejection nothing runs; otherwise the chart, the processes and the table of `auto_compare(q_val)` |
| Final4.RunSimulation | final4.py:164-189 | fails on an empty form (the averages divide by 0); otherwise the selected policy and `auto_compare` with the quantum entry |
| Final2.RunSimulation | final2.py:179-208 | the same for this copy, with every idle wait adding 1 |
| Samkari.Run | samkari.py:239-261 | the selected policy with this copy's variant: idle adds 1, Round Robin re-queues before admitting |

## Left out

- The tkinter form, the result and comparison tables, message boxes and the matplotlib
  Gantt chart are not modelled. The model takes the form's entries as already-parsed integers.
- Parsing with `int(entry.get())` and the exceptions it raises are not modelled.
- The averages are not modelled: floats and `:.2f` formatting are left out. Every row of the
  comparison covers the same number of processes, so integer totals of `wt` and `tat` stand in
  for the averages. The least total marks the same rows as the least average.
- Sorting the result table by pid is not modelled; it only affects display.
- `final1.py` is not part of this model. It fills in placeholder times and schedules nothing.
- The other scripts of the repository are not part of this model.
- The processes' pids are 1, 2, … as the forms number them. The policy methods therefore
  require distinct pids.
- Policies.Preemptive: requires every burst to be positive. With a burst of 0 or less, the
  process is never ready, so `completed` never reaches `len(processes)` and the source loops
  forever.
- Policies.RoundRobin: requires q > 0 and positive bursts. With q ≤ 0 a turn makes no progress
  and the source loops forever; a burst of 0 or less would finish in a single turn.
- Engine.Simulate: requires positive bursts for the preemptive policies and Round Robin, and
  q > 0 for Round Robin, for the same reasons.
- Engine.AutoCompare: requires positive bursts and q > 0, because it runs all six policies.
- Final4.RunSimulation: on a non-empty form, requires positive bursts and a positive quantum
  entry. Without input checks, `auto_compare` runs every policy on the raw entries, and the
  source then loops forever.
- Final2.RunSimulation: requires the same as Final4.RunSimulation, for the same reason.
- Samkari.Run: requires positive bursts for the preemptive policies and Round Robin, and q > 0
  for Round Robin.
- Python's `list.remove` compares objects, and the ready-list filter and `sort` build new
  lists. The model scans the process list once per decision for the first process with the least
  key. This gives the same choice as the stable sort.
- Policies.NonPreemptive: removes the chosen processes from a local copy of the list's contents
  and empties the list object once, at the end. The source removes each process from the list
  object as it is chosen. No other code sees the list in between.
- `copy.deepcopy` is modelled as building new process objects with the same fixed fields.
- CPU utilisation and throughput are not modelled; the source never computes them.
