/** Values shared by every scheduling policy: the fixed input fields of a process, the
    Gantt-chart slices a policy emits, the completion records it produces, and the sums in
    which the conservation laws and the policy comparison are stated. */
module Jobs {

  /** The fields a `Process` is created with: identity, arrival time, burst time and
      priority. None of them is ever changed by a policy. */
  datatype Job = Job(pid: int, at: int, bt: int, pr: int)

  /** One Gantt-chart entry `(pid, start, duration)`. */
  datatype Slice = Slice(pid: int, start: int, duration: int)

  /** A completed process together with the completion time the policy recorded for it. */
  datatype Finish = Finish(job: Job, ct: int)

  /** What a policy returns: the processes in completion order and the Gantt chart. */
  datatype Run = Run(done: seq<Finish>, gantt: seq<Slice>)

  function End(s: Slice): int { s.start + s.duration }

  /** The clock when slice `k` is chosen: the end of slice `k - 1`, or the starting time. */
  function PrevEnd(g: seq<Slice>, time: int, k: int): int
    requires 0 <= k <= |g|
  {
    if k == 0 then time else End(g[k - 1])
  }

  /** Turnaround and waiting time, derived from the completion time and the ORIGINAL burst. */
  function Tat(f: Finish): int { f.ct - f.job.at }
  function Wt(f: Finish): int { Tat(f) - f.job.bt }

  function Min(a: int, b: int): int { if a <= b then a else b }
  function Max(a: int, b: int): int { if a >= b then a else b }

  function SumBt(js: seq<Job>): int
  {
    if js == [] then 0 else js[0].bt + SumBt(js[1..])
  }

  function SumDur(g: seq<Slice>): int
  {
    if g == [] then 0 else g[0].duration + SumDur(g[1..])
  }

  /** Total duration of the slices that belong to `pid`. */
  function SumDurOf(g: seq<Slice>, pid: int): int
  {
    if g == [] then 0
    else (if g[0].pid == pid then g[0].duration else 0) + SumDurOf(g[1..], pid)
  }

  function SumWt(d: seq<Finish>): int
  {
    if d == [] then 0 else Wt(d[0]) + SumWt(d[1..])
  }

  function SumTat(d: seq<Finish>): int
  {
    if d == [] then 0 else Tat(d[0]) + SumTat(d[1..])
  }

  /** The jobs of a completion list, in completion order. */
  function JobsDone(d: seq<Finish>): (js: seq<Job>)
    ensures |js| == |d|
  {
    seq(|d|, k requires 0 <= k < |d| => d[k].job)
  }

  lemma JobsDoneCons(f: Finish, d: seq<Finish>)
    ensures JobsDone([f] + d) == [f.job] + JobsDone(d)
  {
  }

  predicate HasPid(js: seq<Job>, pid: int)
  {
    exists k :: 0 <= k < |js| && js[k].pid == pid
  }

  predicate DistinctPids(js: seq<Job>)
  {
    forall i, j :: 0 <= i < j < |js| ==> js[i].pid != js[j].pid
  }

  /** The order `run_simulation` creates processes in: pid i+1 for row i, so pids increase. */
  predicate IncreasingPids(js: seq<Job>)
  {
    forall i, j :: 0 <= i < j < |js| ==> js[i].pid < js[j].pid
  }

  predicate SortedByArrival(js: seq<Job>)
  {
    forall i, j :: 0 <= i < j < |js| ==> js[i].at <= js[j].at
  }

  /** The remaining time the dictionary holds for `pid`, read as 0 for a pid it does not hold. */
  function Rem(rem: map<int, int>, pid: int): int
  {
    if pid in rem then rem[pid] else 0
  }

  /** The initial remaining-time dictionary, pid to burst; a later entry with the same pid
      overwrites an earlier one. */
  function InitRem(js: seq<Job>): map<int, int>
  {
    if js == [] then map[] else InitRem(js[..|js| - 1])[js[|js| - 1].pid := js[|js| - 1].bt]
  }

  /** With distinct pids, the dictionary holds every process's own burst. */
  lemma {:induction false} InitRemAt(js: seq<Job>, k: int)
    requires DistinctPids(js) && 0 <= k < |js|
    ensures Rem(InitRem(js), js[k].pid) == js[k].bt
  {
    var n := |js| - 1;
    if k < n {
      assert js[..n][k] == js[k];
      InitRemAt(js[..n], k);
    }
  }

  /** The dictionary's keys are the pids of the list. */
  lemma {:induction false} InitRemKeys(js: seq<Job>, pid: int)
    ensures pid in InitRem(js) <==> HasPid(js, pid)
    decreases |js|
  {
    if js != [] {
      var n := |js| - 1;
      InitRemKeys(js[..n], pid);
      if HasPid(js, pid) && js[n].pid != pid {
        var k :| 0 <= k < |js| && js[k].pid == pid;
        assert js[..n][k].pid == pid;
      }
    }
  }

  /** The work still to do: the sum of the remaining times of the given processes. */
  function SumRem(js: seq<Job>, rem: map<int, int>): int
  {
    if js == [] then 0 else Rem(rem, js[0].pid) + SumRem(js[1..], rem)
  }

  /** The positive part of the remaining work, the measure that every dispatch decreases. */
  function SumPos(js: seq<Job>, rem: map<int, int>): nat
  {
    if js == [] then 0 else Max(Rem(rem, js[0].pid), 0) + SumPos(js[1..], rem)
  }

  /** Decrementing a positive remaining time shrinks the positive part of the remaining work. */
  lemma {:induction false} SumPosDecrease(js: seq<Job>, rem: map<int, int>, pid: int, v: int)
    requires 0 <= v < Rem(rem, pid)
    ensures SumPos(js, rem[pid := v]) <= SumPos(js, rem)
    ensures HasPid(js, pid) ==> SumPos(js, rem[pid := v]) < SumPos(js, rem)
  {
    if js != [] {
      SumPosDecrease(js[1..], rem, pid, v);
      if HasPid(js, pid) && js[0].pid != pid {
        var k :| 0 <= k < |js| && js[k].pid == pid;
        assert js[1..][k - 1].pid == pid;
      }
    }
  }

  /** Setting a non-positive remaining time to zero leaves the positive part unchanged. */
  lemma {:induction false} SumPosSettle(js: seq<Job>, rem: map<int, int>, pid: int)
    requires Rem(rem, pid) <= 0
    ensures SumPos(js, rem[pid := 0]) == SumPos(js, rem)
  {
    if js != [] { SumPosSettle(js[1..], rem, pid); }
  }

  /** A dispatch that uses up part of a positive remaining time, or all of a non-positive one. */
  lemma SumPosAfterRun(js: seq<Job>, rem: map<int, int>, pid: int, v: int)
    requires HasPid(js, pid) && v >= 0 && (v < Rem(rem, pid) || (v == 0 && Rem(rem, pid) <= 0))
    ensures Rem(rem, pid) > 0 ==> SumPos(js, rem[pid := v]) < SumPos(js, rem)
    ensures Rem(rem, pid) <= 0 ==> SumPos(js, rem[pid := v]) == SumPos(js, rem)
  {
    if Rem(rem, pid) > 0 {
      SumPosDecrease(js, rem, pid, v);
    } else {
      SumPosSettle(js, rem, pid);
    }
  }

  lemma {:induction false} SumPosUpdate(js: seq<Job>, rem: map<int, int>, pid: int, v: int)
    requires DistinctPids(js)
    ensures SumPos(js, rem[pid := v]) ==
            SumPos(js, rem) + (if HasPid(js, pid) then Max(v, 0) - Max(Rem(rem, pid), 0) else 0)
  {
    if js != [] {
      SumPosUpdate(js[1..], rem, pid, v);
      if js[0].pid == pid {
        assert !HasPid(js[1..], pid);
      }
      if HasPid(js[1..], pid) {
        var k :| 0 <= k < |js[1..]| && js[1..][k].pid == pid;
        assert js[k + 1].pid == pid;
      }
    }
  }

  lemma {:induction false} SumRemUpdate(js: seq<Job>, rem: map<int, int>, pid: int, v: int)
    requires DistinctPids(js)
    ensures SumRem(js, rem[pid := v]) ==
            SumRem(js, rem) + (if HasPid(js, pid) then v - Rem(rem, pid) else 0)
  {
    if js != [] {
      SumRemUpdate(js[1..], rem, pid, v);
      if js[0].pid == pid {
        assert !HasPid(js[1..], pid);
      }
      if HasPid(js[1..], pid) {
        var k :| 0 <= k < |js[1..]| && js[1..][k].pid == pid;
        assert js[k + 1].pid == pid;
      }
    }
  }

  /** The processes of `js[..n]` that still have remaining time, in list order. */
  function PendingUpTo(js: seq<Job>, rem: map<int, int>, n: int): seq<Job>
    requires 0 <= n <= |js|
  {
    if n == 0 then []
    else PendingUpTo(js, rem, n - 1) + (if Rem(rem, js[n - 1].pid) > 0 then [js[n - 1]] else [])
  }

  /** The processes that the loop has not completed yet. */
  function Pending(js: seq<Job>, rem: map<int, int>): seq<Job>
  {
    PendingUpTo(js, rem, |js|)
  }

  lemma {:induction false} PendingUpToNone(js: seq<Job>, rem: map<int, int>, n: int)
    requires 0 <= n <= |js| && forall k :: 0 <= k < n ==> Rem(rem, js[k].pid) <= 0
    ensures PendingUpTo(js, rem, n) == []
  {
    if n > 0 { PendingUpToNone(js, rem, n - 1); }
  }

  lemma {:induction false} PendingUpToAll(js: seq<Job>, rem: map<int, int>, n: int)
    requires 0 <= n <= |js| && forall k :: 0 <= k < n ==> Rem(rem, js[k].pid) > 0
    ensures PendingUpTo(js, rem, n) == js[..n]
  {
    if n > 0 {
      PendingUpToAll(js, rem, n - 1);
      assert js[..n] == js[..n - 1] + [js[n - 1]];
    }
  }

  /** At the start every process is pending, when pids are distinct and bursts positive. */
  lemma PendingInit(js: seq<Job>)
    requires DistinctPids(js) && forall k :: 0 <= k < |js| ==> js[k].bt > 0
    ensures Pending(js, InitRem(js)) == js
  {
    forall k | 0 <= k < |js| ensures Rem(InitRem(js), js[k].pid) > 0 {
      InitRemAt(js, k);
    }
    PendingUpToAll(js, InitRem(js), |js|);
  }

  /** Running process `i` without using up its remaining time leaves the pending list as it is. */
  lemma {:induction false} PendingUpToKeep(js: seq<Job>, rem: map<int, int>, i: int, left: int, n: int)
    requires DistinctPids(js) && 0 <= i < |js| && 0 <= n <= |js|
    requires Rem(rem, js[i].pid) > 0 && left > 0
    ensures PendingUpTo(js, rem[js[i].pid := left], n) == PendingUpTo(js, rem, n)
  {
    if n > 0 {
      PendingUpToKeep(js, rem, i, left, n - 1);
    }
  }

  /** Using up the remaining time of process `i` takes exactly it out of the pending list. */
  lemma PendingUpToDrop(js: seq<Job>, rem: map<int, int>, i: int, n: int)
    requires DistinctPids(js) && 0 <= i < |js| && 0 <= n <= |js|
    requires Rem(rem, js[i].pid) > 0
    ensures multiset(PendingUpTo(js, rem[js[i].pid := 0], n)) + (if i < n then multiset{js[i]} else multiset{}) ==
            multiset(PendingUpTo(js, rem, n))
  {
    if i < n {
      PendingUpToAbove(js, rem, i, n);
    } else {
      PendingUpToBelow(js, rem, i, 0, n);
    }
  }

  /** The entries before `js[i]` do not depend on `js[i]`'s remaining time. */
  lemma {:induction false} PendingUpToBelow(js: seq<Job>, rem: map<int, int>, i: int, v: int, n: int)
    requires DistinctPids(js) && 0 <= n <= i < |js|
    ensures PendingUpTo(js, rem[js[i].pid := v], n) == PendingUpTo(js, rem, n)
  {
    if n > 0 {
      PendingUpToBelow(js, rem, i, v, n - 1);
      assert js[n - 1].pid != js[i].pid;
    }
  }

  /** Once past `js[i]`, the settled list lacks exactly `js[i]`. */
  lemma PendingUpToAbove(js: seq<Job>, rem: map<int, int>, i: int, n: int)
    requires DistinctPids(js) && 0 <= i < n <= |js|
    requires Rem(rem, js[i].pid) > 0
    ensures multiset(PendingUpTo(js, rem[js[i].pid := 0], n)) + multiset{js[i]} == multiset(PendingUpTo(js, rem, n))
  {
    var t := PendingUpToSplit(js, rem, i, n);
    MultisetMiddle(PendingUpTo(js, rem, i), js[i], t);
  }

  /** Past `js[i]`, both lists share the part before `js[i]` and the part after it. */
  lemma {:induction false} PendingUpToSplit(js: seq<Job>, rem: map<int, int>, i: int, n: int) returns (t: seq<Job>)
    requires DistinctPids(js) && 0 <= i < n <= |js|
    requires Rem(rem, js[i].pid) > 0
    ensures PendingUpTo(js, rem, n) == PendingUpTo(js, rem, i) + [js[i]] + t
    ensures PendingUpTo(js, rem[js[i].pid := 0], n) == PendingUpTo(js, rem, i) + t
  {
    var rem' := rem[js[i].pid := 0];
    if n == i + 1 {
      PendingUpToBelow(js, rem, i, 0, i);
      t := [];
    } else {
      var t' := PendingUpToSplit(js, rem, i, n - 1);
      assert js[n - 1].pid != js[i].pid;
      var x := if Rem(rem, js[n - 1].pid) > 0 then [js[n - 1]] else [];
      assert PendingUpTo(js, rem', n) == PendingUpTo(js, rem', n - 1) + x;
      t := t' + x;
    }
  }

  lemma MultisetMiddle<T>(a: seq<T>, y: T, t: seq<T>)
    ensures multiset(a + t) + multiset{y} == multiset(a + [y] + t)
  {
    calc {
      multiset(a + [y] + t);
      multiset(a) + multiset{y} + multiset(t);
      multiset(a + t) + multiset{y};
    }
  }

  /** Running process `i`: when nothing is left it leaves the pending list, otherwise the
      pending list is unchanged. */
  lemma PendingTick(js: seq<Job>, rem: map<int, int>, i: int, left: int)
    requires DistinctPids(js) && 0 <= i < |js|
    requires Rem(rem, js[i].pid) > 0 && left >= 0
    ensures left > 0 ==> Pending(js, rem[js[i].pid := left]) == Pending(js, rem)
    ensures left == 0 ==> multiset(Pending(js, rem[js[i].pid := left])) + multiset{js[i]} ==
                          multiset(Pending(js, rem))
  {
    if left > 0 {
      PendingUpToKeep(js, rem, i, left, |js|);
    } else {
      PendingUpToDrop(js, rem, i, |js|);
    }
  }

  /** Every member of the pending list is a process of the list with remaining time. */
  lemma {:induction false} PendingUpToMember(js: seq<Job>, rem: map<int, int>, n: int, x: Job)
    requires 0 <= n <= |js| && x in PendingUpTo(js, rem, n)
    ensures Rem(rem, x.pid) > 0 && exists k :: 0 <= k < n && js[k] == x
  {
    if n > 0 {
      if x in PendingUpTo(js, rem, n - 1) {
        PendingUpToMember(js, rem, n - 1, x);
      }
    }
  }

  lemma PendingMember(js: seq<Job>, rem: map<int, int>, x: Job)
    requires x in Pending(js, rem)
    ensures Rem(rem, x.pid) > 0 && exists k :: 0 <= k < |js| && js[k] == x
  {
    PendingUpToMember(js, rem, |js|, x);
  }

  /** An empty pending list means no process has remaining time. */
  lemma {:induction false} PendingUpToEmpty(js: seq<Job>, rem: map<int, int>, n: int, k: int)
    requires 0 <= k < n <= |js| && PendingUpTo(js, rem, n) == []
    ensures Rem(rem, js[k].pid) <= 0
  {
    if k < n - 1 {
      PendingUpToEmpty(js, rem, n - 1, k);
    }
  }

  /** Summing the per-process slice totals over all processes. */
  function SumOver(js: seq<Job>, g: seq<Slice>): int
  {
    if js == [] then 0 else SumDurOf(g, js[0].pid) + SumOver(js[1..], g)
  }

  lemma {:induction false} SumOverEmpty(js: seq<Job>)
    ensures SumOver(js, []) == 0
  {
    if js != [] { SumOverEmpty(js[1..]); }
  }

  lemma {:induction false} SumOverCons(js: seq<Job>, s: Slice, g: seq<Slice>)
    requires DistinctPids(js)
    ensures SumOver(js, [s] + g) == SumOver(js, g) + (if HasPid(js, s.pid) then s.duration else 0)
  {
    if js != [] {
      assert ([s] + g)[1..] == g;
      SumOverCons(js[1..], s, g);
      if js[0].pid == s.pid {
        assert !HasPid(js[1..], s.pid);
      }
      if HasPid(js[1..], s.pid) {
        var k :| 0 <= k < |js[1..]| && js[1..][k].pid == s.pid;
        assert js[k + 1].pid == s.pid;
      }
    }
  }

  /** When every slice belongs to one of the processes, the chart's total length is the
      sum of the per-process totals. */
  lemma {:induction false} SumDurSplit(js: seq<Job>, g: seq<Slice>)
    requires DistinctPids(js)
    requires forall k :: 0 <= k < |g| ==> HasPid(js, g[k].pid)
    ensures SumDur(g) == SumOver(js, g)
  {
    if g == [] {
      SumOverEmpty(js);
    } else {
      assert [g[0]] + g[1..] == g;
      SumDurSplit(js, g[1..]);
      SumOverCons(js, g[0], g[1..]);
    }
  }

  lemma {:induction false} SumOverBursts(js: seq<Job>, g: seq<Slice>)
    requires forall k :: 0 <= k < |js| ==> SumDurOf(g, js[k].pid) == js[k].bt
    ensures SumOver(js, g) == SumBt(js)
  {
    if js != [] {
      SumOverBursts(js[1..], g);
    }
  }

  /** No work is fabricated or lost: if each process received exactly its burst and no
      slice belongs to anybody else, the chart's total duration is the total burst. */
  lemma ConservationFromPerPid(js: seq<Job>, g: seq<Slice>)
    requires DistinctPids(js)
    requires forall k :: 0 <= k < |g| ==> HasPid(js, g[k].pid)
    requires forall k :: 0 <= k < |js| ==> SumDurOf(g, js[k].pid) == js[k].bt
    ensures SumDur(g) == SumBt(js)
  {
    SumDurSplit(js, g);
    SumOverBursts(js, g);
  }

  /** Every process of the list with remaining time is on the pending list. */
  lemma {:induction false} PendingUpToHas(js: seq<Job>, rem: map<int, int>, n: int, m: int)
    requires 0 <= m < n <= |js| && Rem(rem, js[m].pid) > 0
    ensures js[m] in PendingUpTo(js, rem, n)
  {
    if m < n - 1 {
      PendingUpToHas(js, rem, n - 1, m);
    }
  }

  /** The remaining time of `pid` when slice `k` is chosen: what is left after the chart's
      first `k` slices. */
  function Left(rem: map<int, int>, g: seq<Slice>, k: int, pid: int): int
    requires 0 <= k <= |g|
  {
    Rem(rem, pid) - SumDurOf(g[..k], pid)
  }

  /** Before the first slice nothing has run, so everybody's remaining time is the dictionary's. */
  lemma LeftAtStart(rem: map<int, int>, g: seq<Slice>, pid: int)
    requires |g| > 0
    ensures Left(rem, g, 0, pid) == Rem(rem, pid)
  {
    assert g[..0] == [];
  }

  /** After the first slice, remaining times are those of the dictionary the first slice left. */
  lemma LeftShift(rem: map<int, int>, rem': map<int, int>, s: Slice, g: seq<Slice>, k: int, pid: int)
    requires rem' == rem[s.pid := Rem(rem, s.pid) - s.duration]
    requires 1 <= k <= |g| + 1
    ensures Left(rem, [s] + g, k, pid) == Left(rem', g, k - 1, pid)
  {
    var g' := [s] + g;
    assert g'[..k] == [s] + g[..k - 1];
    assert g'[..k][1..] == g[..k - 1];
  }

  /** When slice `k` is chosen, no process with work left has arrived before the slice starts. */
  predicate NoneWaiting(js: seq<Job>, rem: map<int, int>, g: seq<Slice>, k: int)
    requires 0 <= k < |g|
  {
    forall m :: 0 <= m < |js| && Left(rem, g, k, js[m].pid) > 0 ==> js[m].at >= g[k].start
  }

  /** The CPU stays idle between two slices (or from the starting clock to the first slice)
      only while no process with work left has arrived. */
  predicate IdleWhileNoneArrived(js: seq<Job>, rem: map<int, int>, g: seq<Slice>, time: int)
  {
    forall k :: 0 <= k < |g| && g[k].start > PrevEnd(g, time, k) ==> NoneWaiting(js, rem, g, k)
  }

  lemma NoneWaitingShift(js: seq<Job>, rem: map<int, int>, rem': map<int, int>, s: Slice, g: seq<Slice>, k: int)
    requires rem' == rem[s.pid := Rem(rem, s.pid) - s.duration]
    requires 1 <= k < |g| + 1 && NoneWaiting(js, rem', g, k - 1)
    ensures NoneWaiting(js, rem, [s] + g, k)
  {
    var g' := [s] + g;
    assert g'[k] == g[k - 1];
    forall m | 0 <= m < |js| ensures Left(rem, g', k, js[m].pid) == Left(rem', g, k - 1, js[m].pid) {
      LeftShift(rem, rem', s, g, k, js[m].pid);
    }
  }

  /** A slice that starts at the clock keeps the idle rule of the chart after it. */
  lemma IdlesCons(js: seq<Job>, rem: map<int, int>, rem': map<int, int>, s: Slice, g: seq<Slice>, time: int, e: int)
    requires rem' == rem[s.pid := Rem(rem, s.pid) - s.duration]
    requires s.start == time && e == End(s) && IdleWhileNoneArrived(js, rem', g, e)
    ensures IdleWhileNoneArrived(js, rem, [s] + g, time)
  {
    var g' := [s] + g;
    forall k | 0 < k < |g'| && g'[k].start > PrevEnd(g', time, k) ensures NoneWaiting(js, rem, g', k) {
      assert g'[k] == g[k - 1];
      if k > 1 { assert g'[k - 1] == g[k - 2]; }
      NoneWaitingShift(js, rem, rem', s, g, k);
    }
  }

  /** Idling from `time` to `e`, when no process with work left arrives before `e`, keeps the
      idle rule of a chart that starts no earlier than `e`. */
  lemma IdlesLater(js: seq<Job>, rem: map<int, int>, g: seq<Slice>, time: int, e: int)
    requires time <= e && IdleWhileNoneArrived(js, rem, g, e) && (|g| > 0 ==> g[0].start >= e)
    requires forall m :: 0 <= m < |js| && Rem(rem, js[m].pid) > 0 ==> js[m].at >= e
    ensures IdleWhileNoneArrived(js, rem, g, time)
  {
    if |g| > 0 && g[0].start > time {
      forall m | 0 <= m < |js| ensures Left(rem, g, 0, js[m].pid) == Rem(rem, js[m].pid) {
        LeftAtStart(rem, g, js[m].pid);
      }
    }
  }
}
