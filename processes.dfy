/** The mutable `Process` record and the process list the policies receive. A policy never
    changes a process's `pid`, `at`, `bt` or `pr`; it writes `ct`, `tat` and `wt` once, when
    the process completes. */
module Processes {
  import opened Jobs
  import opened Sorting

  class Process {
    const pid: int
    const at: int
    const bt: int
    const pr: int
    var ct: int
    var tat: int
    var wt: int

    /** A new process: the three result fields start at 0. */
    constructor (pid: int, at: int, bt: int, pr: int)
      ensures this.pid == pid && this.at == at && this.bt == bt && this.pr == pr
      ensures ct == 0 && tat == 0 && wt == 0
    {
      this.pid, this.at, this.bt, this.pr := pid, at, bt, pr;
      ct, tat, wt := 0, 0, 0;
    }

    /** The fixed fields, as a value. */
    function AsJob(): Job
    {
      Job(pid, at, bt, pr)
    }

    /** The three assignments every policy makes when a process completes at `time`:
        completion, turnaround from the arrival, waiting from the ORIGINAL burst. */
    method Complete(time: int)
      modifies this
      ensures ct == time && tat == ct - at && wt == tat - bt
    {
      ct := time;
      tat := ct - at;
      wt := tat - bt;
    }
  }

  /** A Python list of processes: `fcfs` and `round_robin` sort it in place, the
      non-preemptive policies empty it with `list.remove`. */
  class ProcessList {
    var items: seq<Process>

    constructor (items: seq<Process>)
      ensures this.items == items
    {
      this.items := items;
    }
  }

  /** The fixed fields of a list of processes. */
  function JobsOf(ps: seq<Process>): (js: seq<Job>)
    ensures |js| == |ps|
  {
    seq(|ps|, k requires 0 <= k < |ps| => ps[k].AsJob())
  }

  lemma JobsOfSlices(ps: seq<Process>, j: int)
    requires 0 <= j <= |ps|
    ensures JobsOf(ps[..j]) == JobsOf(ps)[..j] && JobsOf(ps[j..]) == JobsOf(ps)[j..]
  {
  }

  lemma JobsOfAppend(a: seq<Process>, b: seq<Process>)
    ensures JobsOf(a + b) == JobsOf(a) + JobsOf(b)
  {
  }

  /** No object occurs twice in the list (the processes are created, or deep-copied, one by
      one): the head does not occur in the tail, and so on down the list. */
  predicate Unaliased(ps: seq<Process>)
    decreases |ps|
  {
    ps == [] || (ps[0] !in ps[1..] && Unaliased(ps[1..]))
  }

  /** Unaliased lists are exactly those whose positions hold pairwise different objects. */
  lemma {:induction false} UnaliasedPairwise(ps: seq<Process>)
    ensures Unaliased(ps) <==> forall a, b :: 0 <= a < b < |ps| ==> ps[a] != ps[b]
    decreases |ps|
  {
    if ps != [] {
      UnaliasedPairwise(ps[1..]);
      if forall a, b :: 0 <= a < b < |ps| ==> ps[a] != ps[b] {
        assert forall a, b :: 0 <= a < b < |ps| - 1 ==> ps[1..][a] != ps[1..][b] by {
          forall a, b | 0 <= a < b < |ps| - 1 ensures ps[1..][a] != ps[1..][b] {
            assert ps[1..][a] == ps[a + 1] && ps[1..][b] == ps[b + 1];
          }
        }
        assert ps[0] !in ps[1..] by {
          forall b | 0 <= b < |ps| - 1 ensures ps[1..][b] != ps[0] {
            assert ps[1..][b] == ps[b + 1];
          }
        }
      }
      if Unaliased(ps) {
        forall a, b | 0 <= a < b < |ps| ensures ps[a] != ps[b] {
          assert ps[b] == ps[1..][b - 1];
          if a > 0 {
            assert ps[a] == ps[1..][a - 1];
          }
        }
      }
    }
  }

  /** Processes with distinct pids are distinct objects. */
  lemma DistinctUnaliased(ps: seq<Process>)
    requires DistinctPids(JobsOf(ps))
    ensures Unaliased(ps)
  {
    UnaliasedPairwise(ps);
    forall a, b | 0 <= a < b < |ps| ensures ps[a] != ps[b] {
      assert JobsOf(ps)[a].pid != JobsOf(ps)[b].pid;
    }
  }

  /** The per-process contract of every policy: turnaround is completion minus arrival and
      waiting is turnaround minus the original burst. */
  predicate Settled(p: Process)
    reads p
  {
    p.tat == p.ct - p.at && p.wt == p.tat - p.bt
  }

  /** The processes `cs` are, in order, the completion records `d`: the same fixed fields,
      the recorded completion time, and settled turnaround and waiting times. */
  predicate Reports(cs: seq<Process>, d: seq<Finish>)
    reads cs
  {
    |cs| == |d| && forall k :: 0 <= k < |cs| ==> Reported(cs[k], d[k])
  }

  /** One process carries the fixed fields and the completion time of its record, settled. */
  predicate Reported(p: Process, f: Finish)
    reads p
  {
    p.AsJob() == f.job && p.ct == f.ct && Settled(p)
  }

  /** A newly reported process extends the report. */
  lemma ReportsSnoc(cs: seq<Process>, d: seq<Finish>, p: Process, f: Finish)
    requires Reports(cs, d) && Reported(p, f)
    ensures Reports(cs + [p], d + [f])
  {
  }

  /** Reported processes carry the turnaround and waiting time of their records. */
  lemma ReportsTimes(cs: seq<Process>, d: seq<Finish>, k: int)
    requires Reports(cs, d) && 0 <= k < |cs|
    ensures cs[k].tat == Tat(d[k]) && cs[k].wt == Wt(d[k])
  {
  }

  /** `processes.sort(key=lambda x: x.at)`: the objects are rearranged into the stable
      arrival order. */
  method SortByArrival(list: ProcessList)
    modifies list
    ensures JobsOf(list.items) == SortByAt(JobsOf(old(list.items)))
    ensures multiset(list.items) == multiset(old(list.items))
  {
    var ps := list.items;
    var sorted: seq<Process> := [];
    var k := 0;
    while k < |ps|
      invariant 0 <= k <= |ps|
      invariant JobsOf(sorted) == SortByAt(JobsOf(ps[..k]))
      invariant multiset(sorted) == multiset(ps[..k])
    {
      SortStep(ps, k);
      sorted := InsertByArrival(sorted, ps[k]);
      k := k + 1;
    }
    assert ps[..k] == ps;
    list.items := sorted;
  }

  lemma SortStep(ps: seq<Process>, k: int)
    requires 0 <= k < |ps|
    ensures SortByAt(JobsOf(ps[..k + 1])) == InsertByAt(ps[k].AsJob(), SortByAt(JobsOf(ps[..k])))
    ensures multiset(ps[..k + 1]) == multiset(ps[..k]) + multiset{ps[k]}
  {
    assert ps[..k + 1] == ps[..k] + [ps[k]];
    assert JobsOf(ps[..k + 1])[..k] == JobsOf(ps[..k]);
  }

  /** One step of the sort: `x` goes after the processes that arrive no later than it. */
  method InsertByArrival(sorted: seq<Process>, x: Process) returns (r: seq<Process>)
    ensures JobsOf(r) == InsertByAt(x.AsJob(), JobsOf(sorted))
    ensures multiset(r) == multiset(sorted) + multiset{x}
  {
    var j := |sorted|;
    while j > 0 && sorted[j - 1].at > x.at
      invariant 0 <= j <= |sorted|
      invariant forall m :: j <= m < |sorted| ==> sorted[m].at > x.at
    {
      j := j - 1;
    }
    InsertAt(x.AsJob(), JobsOf(sorted), j);
    r := sorted[..j] + [x] + sorted[j..];
    assert JobsOf(r) == JobsOf(sorted)[..j] + [x.AsJob()] + JobsOf(sorted)[j..];
    assert sorted == sorted[..j] + sorted[j..];
  }

  /** Moving one element from the head of the rest to the end of the prefix keeps the whole. */
  lemma Shift<T>(whole: seq<T>, a: seq<T>, x: T, rest: seq<T>)
    requires whole == a + ([x] + rest)
    ensures whole == (a + [x]) + rest
  {
  }
}
