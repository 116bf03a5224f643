/** The six policy functions as imperative loops over `Process` objects, each proved to
    produce the Gantt chart and the completion records of its specification function and to
    leave every completed process settled.

    The copies of the program differ in two details that these methods take as parameters:
    how an idle clock advances (to the next arrival, or by one unit) and, in Round Robin,
    whether arrivals during a slice are admitted before the process that ran is re-queued. */
module Policies {
  import opened Jobs
  import opened Selection
  import opened Sorting
  import opened Processes
  import opened FcfsSpec
  import opened NonPreemptiveSpec
  import opened PreemptiveSpec
  import opened RoundRobinSpec

  /** How a loop moves the clock when no process is ready: `time = min(p.at for p in ...)` or
      `time = processes[i].at`, versus `time += 1`. */
  datatype IdleRule = JumpToArrival | TickByOne

  /** `ready = [p for p in processes if p.at <= time]; ready.sort(key=...); p = ready[0]`:
      the first arrived process with the smallest key, or -1 when none has arrived. */
  method FirstArrived(ps: seq<Process>, time: int, key: Key) returns (i: int)
    ensures i == BestUpTo(JobsOf(ps), time, key, |ps|)
    ensures i < 0 <==> !AnyArrived(JobsOf(ps), time)
    ensures i >= 0 ==> AnyArrived(JobsOf(ps), time) && i == FirstMin(JobsOf(ps), time, key)
  {
    ghost var js := JobsOf(ps);
    i := -1;
    var k := 0;
    while k < |ps|
      invariant 0 <= k <= |ps|
      invariant i == BestUpTo(js, time, key, k)
    {
      var p := ps[k];
      if p.at <= time && (i < 0 || KeyOf(p.AsJob(), key) < KeyOf(ps[i].AsJob(), key)) {
        i := k;
      }
      k := k + 1;
    }
    BestUpToIsMin(js, time, key, |ps|);
    if i < 0 {
      assert !AnyArrived(js, time);
    } else {
      assert AnyArrived(js, time);
    }
  }

  /** `min(p.at for p in processes)`. */
  method EarliestArrival(ps: seq<Process>) returns (m: int)
    requires ps != []
    ensures m == MinAt(JobsOf(ps))
  {
    ghost var js := JobsOf(ps);
    m := ps[0].at;
    var k := 1;
    while k < |ps|
      invariant 1 <= k <= |ps|
      invariant m == MinAtUpTo(js, k)
    {
      m := Min(m, ps[k].at);
      k := k + 1;
    }
  }

  /** `fcfs`: sort the list by arrival in place, then run each process to completion. The
      sorted list itself is returned. */
  method Fcfs(list: ProcessList) returns (completed: seq<Process>, gantt: seq<Slice>)
    requires DistinctPids(JobsOf(list.items))
    modifies list, list.items
    ensures JobsOf(list.items) == SortByAt(JobsOf(old(list.items)))
    ensures multiset(list.items) == multiset(old(list.items)) && completed == list.items
    ensures var r := FcfsRun(SortByAt(JobsOf(old(list.items))), 0); gantt == r.gantt && Reports(completed, r.done)
  {
    SortDistinct(JobsOf(list.items));
    SortByArrival(list);
    completed := list.items;
    forall p | p in completed ensures p in old(list.items) {
      assert p in multiset(old(list.items));
    }
    assert forall k :: 0 <= k < |completed| ==> completed[k] in old(list.items);
    gantt := RunInOrder(completed);
  }

  /** The loop of `fcfs`: each process in list order starts at the later of the clock and
      its arrival and runs its whole burst. */
  method RunInOrder(ps: seq<Process>) returns (gantt: seq<Slice>)
    requires DistinctPids(JobsOf(ps))
    modifies ps
    ensures var r := FcfsRun(JobsOf(ps), 0); gantt == r.gantt && Reports(ps, r.done)
  {
    ghost var js := JobsOf(ps);
    ghost var d: seq<Finish> := [];
    var time := 0;
    gantt := [];
    var k := 0;
    while k < |ps|
      invariant 0 <= k <= |ps|
      invariant FcfsRun(js, 0).done == d + FcfsRun(js[k..], time).done
      invariant FcfsRun(js, 0).gantt == gantt + FcfsRun(js[k..], time).gantt
      invariant |d| == k && forall a :: 0 <= a < k ==> Reported(ps[a], d[a])
    {
      var p := ps[k];
      var start := time;
      if start < p.at {
        start := p.at;
      }
      var e := start + p.bt;
      ghost var rest := FcfsNext(js[k..], time, start, e);
      assert js[k..][1..] == js[k + 1..];
      Shift(FcfsRun(js, 0).done, d, Finish(p.AsJob(), e), rest.done);
      Shift(FcfsRun(js, 0).gantt, gantt, Slice(p.pid, start, p.bt), rest.gantt);
      gantt := gantt + [Slice(p.pid, start, p.bt)];
      time := e;
      forall a | 0 <= a < k ensures ps[a] != p {
        assert js[a].pid != js[k].pid;
      }
      p.Complete(time);
      d := d + [Finish(p.AsJob(), time)];
      k := k + 1;
    }
    assert js[|ps|..] == [];
  }

  /** How far the clock is from the first arrival while nobody has arrived; 0 otherwise. */
  function IdleGap(js: seq<Job>, time: int): nat
  {
    if js == [] || AnyArrived(js, time) then 0 else MinAt(js) - time
  }

  /** `processes.remove(p)` on the objects and on their fixed fields: the removed object
      occurred once, and the others stay distinct. */
  lemma RemoveProcess(ps: seq<Process>, i: int)
    requires 0 <= i < |ps| && Unaliased(ps)
    ensures JobsOf(Remove(ps, i)) == Remove(JobsOf(ps), i)
    ensures Unaliased(Remove(ps, i))
    ensures ps[i] !in Remove(ps, i)
    ensures forall x :: x in Remove(ps, i) ==> x in ps
  {
    assert JobsOf(Remove(ps, i)) == Remove(JobsOf(ps), i);
    UnaliasedPairwise(ps);
    RemoveKeepsPairwise(ps, i);
    UnaliasedPairwise(Remove(ps, i));
    RemoveMembers(ps, i);
  }

  lemma RemoveKeepsPairwise(ps: seq<Process>, i: int)
    requires 0 <= i < |ps| && forall a, b :: 0 <= a < b < |ps| ==> ps[a] != ps[b]
    ensures forall a, b :: 0 <= a < b < |Remove(ps, i)| ==> Remove(ps, i)[a] != Remove(ps, i)[b]
  {
    var r := Remove(ps, i);
    forall a, b | 0 <= a < b < |r| ensures r[a] != r[b] {
      var a', b' := if a < i then a else a + 1, if b < i then b else b + 1;
      assert r[a] == ps[a'] && r[b] == ps[b'];
    }
  }

  lemma RemoveMembers(ps: seq<Process>, i: int)
    requires 0 <= i < |ps| && forall a, b :: 0 <= a < b < |ps| ==> ps[a] != ps[b]
    ensures ps[i] !in Remove(ps, i)
    ensures forall x :: x in Remove(ps, i) ==> x in ps
  {
    var r := Remove(ps, i);
    forall b | 0 <= b < |r| ensures r[b] != ps[i] && r[b] in ps {
      var b' := if b < i then b else b + 1;
      assert r[b] == ps[b'];
    }
  }

  /** Idling towards the first arrival brings the clock closer to it. */
  lemma IdleGapShrinks(js: seq<Job>, time: int, t: int)
    requires js != [] && !AnyArrived(js, time) && time < t <= MinAt(js)
    ensures IdleGap(js, t) < IdleGap(js, time)
  {
    var k :| 0 <= k < |js| && js[k].at == MinAt(js);
    assert js[k].at > time;
  }

  /** The part of `whole` already produced is `d` and `g`, and `rest` is what remains. */
  predicate Splits(whole: Run, d: seq<Finish>, g: seq<Slice>, rest: Run)
  {
    whole.done == d + rest.done && whole.gantt == g + rest.gantt
  }

  /** A non-preemptive decision taken at `time` moves one completion and one slice from the
      remaining schedule to the part produced. */
  lemma NpPick(whole: Run, d: seq<Finish>, g: seq<Slice>, js: seq<Job>, time: int, key: Key, i: int,
      e: int, f: Finish, s: Slice)
    requires AnyArrived(js, time) && i == FirstMin(js, time, key)
    requires e == time + js[i].bt && f == Finish(js[i], e) && s == Slice(js[i].pid, time, js[i].bt)
    requires Splits(whole, d, g, NpRun(js, time, key))
    ensures Splits(whole, d + [f], g + [s], NpRun(Remove(js, i), e, key))
  {
    var t, i', e' := NpStep(js, time, key);
    var rest := NpRun(Remove(js, i), e, key);
    Shift(whole.done, d, f, rest.done);
    Shift(whole.gantt, g, s, rest.gantt);
  }

  /** `sjf_np` (key `Burst`) and `priority_np` (key `Priority`): while the list is not empty,
      the first arrived process with the smallest key is removed from it and runs its whole
      burst; when nobody has arrived the clock moves by `idle`. The list is left empty. */
  method NonPreemptive(list: ProcessList, key: Key, idle: IdleRule) returns (completed: seq<Process>, gantt: seq<Slice>)
    requires Unaliased(list.items)
    modifies list, list.items
    ensures list.items == []
    ensures var r := NpRun(JobsOf(old(list.items)), 0, key); gantt == r.gantt && Reports(completed, r.done)
    ensures forall x :: x in completed ==> x in old(list.items)
  {
    completed, gantt := NpLoop(list.items, key, idle);
    list.items := [];
  }

  /** The `while processes:` loop, on the list's contents; every pass removes one process or
      moves the clock towards the next arrival. */
  method NpLoop(ps0: seq<Process>, key: Key, idle: IdleRule) returns (completed: seq<Process>, gantt: seq<Slice>)
    requires Unaliased(ps0)
    modifies set x | x in ps0
    ensures var r := NpRun(JobsOf(ps0), 0, key); gantt == r.gantt && Reports(completed, r.done)
    ensures forall x :: x in completed ==> x in ps0
  {
    var ps := ps0;
    ghost var whole := NpRun(JobsOf(ps), 0, key);
    ghost var d: seq<Finish> := [];
    var time := 0;
    completed, gantt := [], [];
    while ps != []
      invariant Unaliased(ps)
      invariant forall x :: x in ps ==> x in ps0
      invariant Splits(whole, d, gantt, NpRun(JobsOf(ps), time, key))
      invariant Reports(completed, d)
      invariant forall x :: x in completed ==> x !in ps
      invariant forall x :: x in completed ==> x in ps0
      decreases |ps|, IdleGap(JobsOf(ps), time)
    {
      ps, time, completed, gantt, d := NpDecision(ps, time, key, idle, completed, gantt, whole, d);
    }
  }

  /** One pass of the loop: the first arrived process with the smallest key runs to
      completion, or, when nobody has arrived, the clock moves by `idle`. */
  method NpDecision(ps: seq<Process>, time: int, key: Key, idle: IdleRule, completed: seq<Process>,
      gantt: seq<Slice>, ghost whole: Run, ghost d: seq<Finish>)
    returns (ps': seq<Process>, time': int, completed': seq<Process>, gantt': seq<Slice>, ghost d': seq<Finish>)
    requires ps != [] && Unaliased(ps)
    requires Splits(whole, d, gantt, NpRun(JobsOf(ps), time, key))
    requires Reports(completed, d) && forall x :: x in completed ==> x !in ps
    modifies set x | x in ps
    ensures Unaliased(ps') && forall x :: x in ps' ==> x in ps
    ensures Splits(whole, d', gantt', NpRun(JobsOf(ps'), time', key))
    ensures Reports(completed', d') && forall x :: x in completed' ==> x !in ps'
    ensures |ps'| < |ps| || (ps' == ps && IdleGap(JobsOf(ps), time') < IdleGap(JobsOf(ps), time))
    ensures forall x :: x in completed' ==> x in completed || x in ps
  {
    var i := FirstArrived(ps, time, key);
    if i < 0 {
      time' := NpIdle(ps, time, key, idle);
      ps', completed', gantt', d' := ps, completed, gantt, d;
    } else {
      ps', time', completed', gantt', d' := RunChosen(ps, i, time, key, completed, gantt, whole, d);
    }
  }

  /** When nobody has arrived, `time = min(p.at for p in processes)` (`JumpToArrival`) or
      `time += 1` (`TickByOne`): the clock moves towards the first arrival, and either way the
      schedule still to come is the same. */
  method NpIdle(ps: seq<Process>, time: int, key: Key, idle: IdleRule) returns (t: int)
    requires ps != [] && !AnyArrived(JobsOf(ps), time)
    ensures t == (if idle == JumpToArrival then MinAt(JobsOf(ps)) else time + 1)
    ensures NpRun(JobsOf(ps), t, key) == NpRun(JobsOf(ps), time, key)
    ensures IdleGap(JobsOf(ps), t) < IdleGap(JobsOf(ps), time)
  {
    if idle == JumpToArrival {
      NpIdleJump(JobsOf(ps), time, key);
      t := EarliestArrival(ps);
    } else {
      NpIdleTick(JobsOf(ps), time, key);
      t := time + 1;
    }
    IdleGapShrinks(JobsOf(ps), time, t);
  }

  /** The chosen process `ps[i]` leaves the list, its slice goes on the chart, the clock
      moves to the end of its burst, and it is completed. */
  method RunChosen(ps: seq<Process>, i: int, time: int, key: Key, completed: seq<Process>, gantt: seq<Slice>,
      ghost whole: Run, ghost d: seq<Finish>)
    returns (ps': seq<Process>, time': int, completed': seq<Process>, gantt': seq<Slice>, ghost d': seq<Finish>)
    requires 0 <= i < |ps| && Unaliased(ps)
    requires AnyArrived(JobsOf(ps), time) && i == FirstMin(JobsOf(ps), time, key)
    requires Splits(whole, d, gantt, NpRun(JobsOf(ps), time, key))
    requires Reports(completed, d) && forall x :: x in completed ==> x !in ps
    modifies ps[i]
    ensures ps' == Remove(ps, i) && Unaliased(ps') && forall x :: x in ps' ==> x in ps
    ensures Splits(whole, d', gantt', NpRun(JobsOf(ps'), time', key))
    ensures Reports(completed', d') && forall x :: x in completed' ==> x !in ps'
    ensures forall x :: x in completed' ==> x in completed || x in ps
  {
    ghost var js := JobsOf(ps);
    var p := ps[i];
    assert p in ps && p.AsJob() == js[i];
    var e := time + p.bt;
    var s := Slice(p.pid, time, p.bt);
    ghost var f := Finish(p.AsJob(), e);
    NpPick(whole, d, gantt, js, time, key, i, e, f, s);
    RemoveProcess(ps, i);
    ps' := Remove(ps, i);
    gantt' := gantt + [s];
    time' := e;
    assert p !in completed;
    p.Complete(time');
    ReportsSnoc(completed, d, p, f);
    completed' := completed + [p];
    d' := d + [f];
  }

  /** `remaining = {p.pid: p.bt for p in processes}`: a later process with the same pid
      overwrites an earlier one. */
  method InitialRemaining(ps: seq<Process>) returns (rem: map<int, int>)
    ensures rem == InitRem(JobsOf(ps))
  {
    ghost var js := JobsOf(ps);
    rem := map[];
    var k := 0;
    while k < |ps|
      invariant 0 <= k <= |ps|
      invariant rem == InitRem(js[..k])
    {
      assert js[..k + 1][..k] == js[..k];
      rem := rem[ps[k].pid := ps[k].bt];
      k := k + 1;
    }
    assert js[..k] == js;
  }

  /** `ready = [p for p in processes if p.at <= time and remaining[p.pid] > 0]`, sorted by the
      key, element 0: the first ready process with the smallest key, or -1 when none is ready. */
  method FirstReady(ps: seq<Process>, rem: map<int, int>, time: int, key: Key) returns (i: int)
    ensures i < 0 <==> !AnyReady(JobsOf(ps), rem, time)
    ensures i >= 0 ==> AnyReady(JobsOf(ps), rem, time) && i == PreFirstMin(JobsOf(ps), rem, time, key)
  {
    ghost var js := JobsOf(ps);
    i := -1;
    var k := 0;
    while k < |ps|
      invariant 0 <= k <= |ps|
      invariant i == PreBestUpTo(js, rem, time, key, k)
    {
      var p := ps[k];
      var left := Rem(rem, p.pid);
      if p.at <= time && left > 0 &&
         (i < 0 || PreKeyOf(p.AsJob(), left, key) < PreKeyOf(ps[i].AsJob(), Rem(rem, ps[i].pid), key)) {
        i := k;
      }
      k := k + 1;
    }
    PreBestUpToIsMin(js, rem, time, key, |ps|);
    if i < 0 {
      assert !AnyReady(js, rem, time);
    } else {
      assert AnyReady(js, rem, time);
    }
  }

  /** A tick that runs `js[i]` moves its unit slice, and its completion when nothing is left,
      from the remaining schedule to the part produced. */
  lemma PreTickSplits(whole: Run, d: seq<Finish>, g: seq<Slice>, js: seq<Job>, rem: map<int, int>,
      time: int, key: Key, i: int, left: int, e: int, s: Slice, d': seq<Finish>)
    requires AnyReady(js, rem, time) && i == PreFirstMin(js, rem, time, key)
    requires left == Rem(rem, js[i].pid) - 1 && e == time + 1 && s == Slice(js[i].pid, time, 1)
    requires d' == (if left == 0 then d + [Finish(js[i], e)] else d)
    requires Splits(whole, d, g, PreRun(js, rem, time, key))
    ensures Splits(whole, d', g + [s], PreRun(js, rem[js[i].pid := left], e, key))
    ensures SumPos(js, rem[js[i].pid := left]) < SumPos(js, rem)
  {
    var i', left', e' := PreRunStep(js, rem, time, key);
    var rest := PreRun(js, rem[js[i].pid := left], e, key);
    Shift(whole.gantt, g, s, rest.gantt);
    if left == 0 {
      Shift(whole.done, d, Finish(js[i], e), rest.done);
    }
  }

  /** While some process is pending, the clock has not passed every arrival when nothing is ready. */
  lemma PreIdleBound(js: seq<Job>, rem: map<int, int>, time: int)
    requires AnyPending(js, rem) && !AnyReady(js, rem, time)
    ensures js != [] && MaxAt(js) > time
  {
    var k :| 0 <= k < |js| && Rem(rem, js[k].pid) > 0;
    assert !Ready(js[k], Rem(rem, js[k].pid), time);
  }

  /** A process that completes leaves the pending list. */
  lemma PendingShrinks(js: seq<Job>, rem: map<int, int>, i: int, left: int)
    requires DistinctPids(js) && 0 <= i < |js|
    requires Rem(rem, js[i].pid) > 0 && left >= 0
    ensures |Pending(js, rem[js[i].pid := left])| == |Pending(js, rem)| - (if left == 0 then 1 else 0)
  {
    PendingTick(js, rem, i, left);
    if left == 0 {
      assert |multiset(Pending(js, rem[js[i].pid := left]))| + 1 == |multiset(Pending(js, rem))|;
    }
  }

  /** One tick that runs `ps[i]`: `gantt.append((p.pid, time, 1))`, `remaining[p.pid] -= 1`,
      `time += 1`, and the completion when nothing is left. */
  method RunTick(ps: seq<Process>, rem: map<int, int>, i: int, time: int, key: Key, completed: seq<Process>,
      gantt: seq<Slice>, ghost whole: Run, ghost d: seq<Finish>)
    returns (rem': map<int, int>, time': int, completed': seq<Process>, gantt': seq<Slice>, ghost d': seq<Finish>)
    requires DistinctPids(JobsOf(ps)) && AnyReady(JobsOf(ps), rem, time)
    requires 0 <= i < |ps| && i == PreFirstMin(JobsOf(ps), rem, time, key)
    requires |completed| + |Pending(JobsOf(ps), rem)| == |ps|
    requires Splits(whole, d, gantt, PreRun(JobsOf(ps), rem, time, key))
    requires Reports(completed, d) && forall x :: x in completed ==> Rem(rem, x.pid) <= 0
    modifies ps[i]
    ensures time' == time + 1 && SumPos(JobsOf(ps), rem') < SumPos(JobsOf(ps), rem)
    ensures |completed'| + |Pending(JobsOf(ps), rem')| == |ps|
    ensures Splits(whole, d', gantt', PreRun(JobsOf(ps), rem', time', key))
    ensures Reports(completed', d') && forall x :: x in completed' ==> Rem(rem', x.pid) <= 0
    ensures forall x :: x in completed' ==> x in completed || x in ps
    ensures WithinBurst(JobsOf(ps), rem) ==> WithinBurst(JobsOf(ps), rem')
  {
    ghost var js := JobsOf(ps);
    var p := ps[i];
    assert p.AsJob() == js[i];
    var left := Rem(rem, p.pid) - 1;
    var s := Slice(p.pid, time, 1);
    time' := time + 1;
    d' := if left == 0 then d + [Finish(p.AsJob(), time')] else d;
    PreTickSplits(whole, d, gantt, js, rem, time, key, i, left, time', s, d');
    PendingTick(js, rem, i, left);
    PendingShrinks(js, rem, i, left);
    gantt' := gantt + [s];
    rem' := rem[p.pid := left];
    if WithinBurst(js, rem) {
      TickWithinBurst(js, rem, i, left);
    }
    assert p !in completed;
    if left == 0 {
      p.Complete(time');
      ReportsSnoc(completed, d, p, Finish(p.AsJob(), time'));
      completed' := completed + [p];
    } else {
      completed' := completed;
    }
  }

  /** One pass of the preemptive loop: a tick that runs the first ready process with the
      smallest key, or an idle tick when nobody is ready. */
  method PreDecision(ps: seq<Process>, rem: map<int, int>, time: int, key: Key, completed: seq<Process>,
      gantt: seq<Slice>, ghost whole: Run, ghost d: seq<Finish>)
    returns (rem': map<int, int>, time': int, completed': seq<Process>, gantt': seq<Slice>, ghost d': seq<Finish>)
    requires DistinctPids(JobsOf(ps)) && |completed| < |ps|
    requires |completed| + |Pending(JobsOf(ps), rem)| == |ps|
    requires Splits(whole, d, gantt, PreRun(JobsOf(ps), rem, time, key))
    requires Reports(completed, d) && forall x :: x in completed ==> Rem(rem, x.pid) <= 0
    modifies set x | x in ps
    ensures |completed'| + |Pending(JobsOf(ps), rem')| == |ps|
    ensures Splits(whole, d', gantt', PreRun(JobsOf(ps), rem', time', key))
    ensures Reports(completed', d') && forall x :: x in completed' ==> Rem(rem', x.pid) <= 0
    ensures SumPos(JobsOf(ps), rem') < SumPos(JobsOf(ps), rem) ||
      (rem' == rem && 0 <= MaxAt(JobsOf(ps)) - time && time' == time + 1)
    ensures forall x :: x in completed' ==> x in completed || x in ps
    ensures WithinBurst(JobsOf(ps), rem) ==> WithinBurst(JobsOf(ps), rem')
  {
    PendingCount(JobsOf(ps), rem);
    var i := FirstReady(ps, rem, time, key);
    if i < 0 {
      ghost var e := PreIdleStep(JobsOf(ps), rem, time, key);
      PreIdleBound(JobsOf(ps), rem, time);
      rem', time', completed', gantt', d' := rem, time + 1, completed, gantt, d;
    } else {
      rem', time', completed', gantt', d' := RunTick(ps, rem, i, time, key, completed, gantt, whole, d);
    }
  }

  /** `sjf_preemptive` (key `Burst`, the remaining time) and `priority_preemptive` (key
      `Priority`): one unit at a time, until every process has completed. The list itself is
      not changed. */
  method Preemptive(ps: seq<Process>, key: Key) returns (completed: seq<Process>, gantt: seq<Slice>)
    requires DistinctPids(JobsOf(ps)) && forall k :: 0 <= k < |ps| ==> ps[k].bt > 0
    modifies set x | x in ps
    ensures var r := PreRun(JobsOf(ps), InitRem(JobsOf(ps)), 0, key); gantt == r.gantt && Reports(completed, r.done)
    ensures forall x :: x in completed ==> x in ps
  {
    ghost var js := JobsOf(ps);
    var rem := InitialRemaining(ps);
    PendingInit(js);
    InitWithinBurst(js);
    ghost var whole := PreRun(js, rem, 0, key);
    ghost var d: seq<Finish> := [];
    var time := 0;
    completed, gantt := [], [];
    while |completed| < |ps|
      invariant |completed| + |Pending(js, rem)| == |ps|
      invariant Splits(whole, d, gantt, PreRun(js, rem, time, key))
      invariant Reports(completed, d) && forall x :: x in completed ==> Rem(rem, x.pid) <= 0
      invariant forall x :: x in completed ==> x in ps
      invariant WithinBurst(js, rem)
      decreases SumPos(js, rem), (if js == [] then 0 else MaxAt(js) - time)
    {
      rem, time, completed, gantt, d := PreDecision(ps, rem, time, key, completed, gantt, whole, d);
    }
    PendingCount(js, rem);
  }

  lemma JobsOfRange(ps: seq<Process>, i: int, j: int)
    requires 0 <= i <= j <= |ps|
    ensures JobsOf(ps[i..j]) == JobsOf(ps)[i..j]
  {
  }

  /** `while i < len(processes) and processes[i].at <= time: queue.append(processes[i])`. */
  method Admit(ps: seq<Process>, i: int, queue: seq<Process>, time: int) returns (i': int, queue': seq<Process>)
    requires 0 <= i <= |ps|
    ensures i' == AdmitUpTo(JobsOf(ps), i, time) && queue' == queue + ps[i..i']
  {
    i', queue' := i, queue;
    while i' < |ps| && ps[i'].at <= time
      invariant i <= i' <= |ps|
      invariant AdmitUpTo(JobsOf(ps), i', time) == AdmitUpTo(JobsOf(ps), i, time)
      invariant queue' == queue + ps[i..i']
    {
      assert ps[i..i' + 1] == ps[i..i'] + [ps[i']];
      queue' := queue' + [ps[i']];
      i' := i' + 1;
    }
  }

  /** A dispatch moves its slice, and its completion when nothing is left, from the remaining
      schedule to the part produced. */
  lemma DispatchSplits(whole: Run, d: seq<Finish>, g: seq<Slice>, p: Job, t: int, x: int, e: int, left: int,
      rest: Run, d': seq<Finish>)
    requires Splits(whole, d, g, RrDispatch(p, t, x, e, left, rest))
    requires d' == (if left > 0 then d else d + [Finish(p, e)])
    ensures Splits(whole, d', g + [Slice(p.pid, t, x)], rest)
  {
    Shift(whole.gantt, g, Slice(p.pid, t, x), rest.gantt);
    if left <= 0 {
      Shift(whole.done, d, Finish(p, e), rest.done);
    }
  }

  /** Everything one dispatch of the queue's head `Q[0]` establishes, stated on the values the
      loop computes: the head had work left, the invariant holds again, the measure falls, and
      the slice and the completion move to the part produced. */
  lemma ServeAt(js: seq<Job>, i: int, Q: seq<Job>, rem: map<int, int>, time: int, q: int, mode: Requeue,
      whole: Run, d: seq<Finish>, g: seq<Slice>, x: int, e: int, left: int, i2: int, Q2: seq<Job>,
      rem2: map<int, int>, d2: seq<Finish>)
    requires 0 <= i <= |js| && q > 0 && Q != [] && FromList(js, Q) && RrInv(js, i, Q, rem)
    requires x == Min(q, Rem(rem, Q[0].pid)) && e == time + x && left == Rem(rem, Q[0].pid) - x
    requires rem2 == rem[Q[0].pid := left] && i2 == AfterSlice(js, i, e, mode)
    requires Q2 == (if left > 0 then Q[1..] + js[i..i2] + [Q[0]] else Q[1..] + js[i..i2])
    requires d2 == (if left > 0 then d else d + [Finish(Q[0], e)])
    requires Splits(whole, d, g, RrServe(js, i, Q, rem, time, q, mode))
    ensures Rem(rem, Q[0].pid) > 0 && left >= 0
    ensures FromList(js, Q2) && RrInv(js, i2, Q2, rem2) && SumPos(js, rem2) < SumPos(js, rem)
    ensures Splits(whole, d2, g + [Slice(Q[0].pid, time, x)], RrRun(js, i2, Q2, rem2, e, q, mode))
  {
    var o := RrServeStep(js, i, Q, rem, time, q, mode);
    RrInvServe(js, i, Q, rem, time, q, mode);
    ServeShape(js, i, Q, rem, time, q, mode);
    ServeMeasure(js, i, Q, rem, time, q, mode);
    assert o.p == Q[0] && o.x == x && o.e == e && o.left == left;
    assert o.i2 == i2 && o.rem == rem2;
    assert o.queue == Q2;
    DispatchSplits(whole, d, g, o.p, time, o.x, o.e, o.left, RrRun(js, o.i2, o.queue, o.rem, o.e, q, mode), d2);
  }

  /** `p = queue.popleft()`, its slice of `min(q, remaining[p.pid])` units, the admissions
      after it (when arrivals go first), and its return to the queue while work is `left`. */
  method Advance(ps: seq<Process>, i: int, queue: seq<Process>, rem: map<int, int>, time: int, q: int, mode: Requeue,
      gantt: seq<Slice>, ghost whole: Run, ghost d: seq<Finish>)
    returns (i': int, queue': seq<Process>, rem': map<int, int>, time': int, gantt': seq<Slice>, left: int,
      ghost d': seq<Finish>)
    requires 0 <= i <= |ps| && q > 0 && queue != [] && forall x :: x in queue ==> x in ps
    requires FromList(JobsOf(ps), JobsOf(queue)) && RrInv(JobsOf(ps), i, JobsOf(queue), rem)
    requires Splits(whole, d, gantt, RrServe(JobsOf(ps), i, JobsOf(queue), rem, time, q, mode))
    ensures 0 <= i' <= |ps| && forall x :: x in queue' ==> x in ps
    ensures Rem(rem, queue[0].pid) > 0 && left >= 0 && rem' == rem[queue[0].pid := left]
    ensures d' == if left > 0 then d else d + [Finish(queue[0].AsJob(), time')]
    ensures FromList(JobsOf(ps), JobsOf(queue')) && RrInv(JobsOf(ps), i', JobsOf(queue'), rem')
    ensures Splits(whole, d', gantt', RrRun(JobsOf(ps), i', JobsOf(queue'), rem', time', q, mode))
    ensures SumPos(JobsOf(ps), rem') < SumPos(JobsOf(ps), rem)
  {
    ghost var js, Q := JobsOf(ps), JobsOf(queue);
    var p := queue[0];
    assert p.AsJob() == Q[0];
    var x := Min(q, Rem(rem, p.pid));
    time' := time + x;
    left := Rem(rem, p.pid) - x;
    rem' := rem[p.pid := left];
    gantt' := gantt + [Slice(p.pid, time, x)];
    var rest: seq<Process>;
    if mode == AdmitFirst {
      i', rest := Admit(ps, i, queue[1..], time');
    } else {
      i', rest := i, queue[1..];
    }
    JobsOfSlices(queue, 1);
    JobsOfRange(ps, i, i');
    JobsOfAppend(queue[1..], ps[i..i']);
    assert forall x :: x in rest ==> x in ps;
    if left > 0 {
      queue' := rest + [p];
      JobsOfAppend(rest, [p]);
      d' := d;
    } else {
      queue' := rest;
      d' := d + [Finish(Q[0], time')];
    }
    ServeAt(js, i, Q, rem, time, q, mode, whole, d, gantt, x, time', left, i', JobsOf(queue'), rem', d');
  }

  /** A dispatch, and `p.ct, p.tat, p.wt` when the process has nothing left. */
  method Dispatch(ps: seq<Process>, i: int, queue: seq<Process>, rem: map<int, int>, time: int, q: int, mode: Requeue,
      completed: seq<Process>, gantt: seq<Slice>, ghost whole: Run, ghost d: seq<Finish>)
    returns (i': int, queue': seq<Process>, rem': map<int, int>, time': int, completed': seq<Process>,
      gantt': seq<Slice>, ghost d': seq<Finish>)
    requires 0 <= i <= |ps| && q > 0 && queue != [] && forall x :: x in queue ==> x in ps
    requires FromList(JobsOf(ps), JobsOf(queue)) && RrInv(JobsOf(ps), i, JobsOf(queue), rem)
    requires Splits(whole, d, gantt, RrServe(JobsOf(ps), i, JobsOf(queue), rem, time, q, mode))
    requires Reports(completed, d) && forall x :: x in completed ==> Rem(rem, x.pid) <= 0
    modifies queue[0]
    ensures 0 <= i' <= |ps| && forall x :: x in queue' ==> x in ps
    ensures FromList(JobsOf(ps), JobsOf(queue')) && RrInv(JobsOf(ps), i', JobsOf(queue'), rem')
    ensures Splits(whole, d', gantt', RrRun(JobsOf(ps), i', JobsOf(queue'), rem', time', q, mode))
    ensures Reports(completed', d') && forall x :: x in completed' ==> Rem(rem', x.pid) <= 0
    ensures SumPos(JobsOf(ps), rem') < SumPos(JobsOf(ps), rem)
    ensures forall x :: x in completed' ==> x in completed || x in ps
  {
    var p := queue[0];
    var left;
    i', queue', rem', time', gantt', left, d' := Advance(ps, i, queue, rem, time, q, mode, gantt, whole, d);
    if left > 0 {
      completed' := completed;
    } else {
      assert p !in completed;
      p.Complete(time');
      ReportsSnoc(completed, d, p, Finish(p.AsJob(), time'));
      completed' := completed + [p];
    }
  }

  /** Admission at the loop head keeps the invariant and leaves a dispatch to do. */
  lemma AdmitFacts(js: seq<Job>, i: int, Q: seq<Job>, rem: map<int, int>, time: int, q: int, mode: Requeue,
      i1: int, Q1: seq<Job>, whole: Run, d: seq<Finish>, g: seq<Slice>)
    requires 0 <= i <= |js| && q > 0 && FromList(js, Q) && RrInv(js, i, Q, rem)
    requires i1 == AdmitUpTo(js, i, time) && Q1 == Q + js[i..i1] && Q1 != []
    requires Splits(whole, d, g, RrRun(js, i, Q, rem, time, q, mode))
    ensures FromList(js, Q1) && RrInv(js, i1, Q1, rem) && Splits(whole, d, g, RrServe(js, i1, Q1, rem, time, q, mode))
  {
    var a, b := RrAdmitStep(js, i, Q, rem, time, q, mode);
    RrInvAdmit(js, i, i1, Q, rem);
  }

  /** How long an empty queue still waits for the next arrival. */
  function RrGap(ps: seq<Process>, i: int, queue: seq<Process>, time: int): nat
    requires 0 <= i <= |ps|
    reads set x | x in ps
  {
    if queue == [] && i < |ps| && ps[i].at > time then ps[i].at - time else 0
  }

  /** `if not queue: time = processes[i].at` (JumpToArrival) or `time += 1` (TickByOne):
      both reach the same schedule, and both bring the next arrival closer. */
  method RrIdle(ps: seq<Process>, i: int, rem: map<int, int>, time: int, q: int, mode: Requeue, idle: IdleRule)
    returns (t: int)
    requires 0 <= i < |ps| && q > 0 && time < ps[i].at
    ensures t == if idle == JumpToArrival then ps[i].at else time + 1
    ensures RrRun(JobsOf(ps), i, [], rem, t, q, mode) == RrRun(JobsOf(ps), i, [], rem, time, q, mode)
    ensures RrGap(ps, i, [], t) < RrGap(ps, i, [], time)
  {
    ghost var js := JobsOf(ps);
    assert js[i..AdmitUpTo(js, i, time)] == [];
    if idle == JumpToArrival {
      ghost var e := RrIdleStep(js, i, [], rem, time, q, mode);
      t := ps[i].at;
    } else {
      RrIdleTick(js, i, rem, time, q, mode);
      t := time + 1;
    }
  }

  /** One pass of the `round_robin` loop: admission, then a dispatch, or, with an empty queue,
      `time = processes[i].at` (JumpToArrival) or `time += 1` (TickByOne). */
  method RrPass(ps: seq<Process>, i: int, queue: seq<Process>, rem: map<int, int>, time: int, q: int, mode: Requeue,
      idle: IdleRule, completed: seq<Process>, gantt: seq<Slice>, ghost whole: Run, ghost d: seq<Finish>)
    returns (i': int, queue': seq<Process>, rem': map<int, int>, time': int, completed': seq<Process>,
      gantt': seq<Slice>, ghost d': seq<Finish>)
    requires 0 <= i <= |ps| && q > 0 && (queue != [] || i < |ps|) && forall x :: x in queue ==> x in ps
    requires FromList(JobsOf(ps), JobsOf(queue)) && RrInv(JobsOf(ps), i, JobsOf(queue), rem)
    requires Splits(whole, d, gantt, RrRun(JobsOf(ps), i, JobsOf(queue), rem, time, q, mode))
    requires Reports(completed, d) && forall x :: x in completed ==> Rem(rem, x.pid) <= 0
    modifies set x | x in ps
    ensures 0 <= i' <= |ps| && forall x :: x in queue' ==> x in ps
    ensures FromList(JobsOf(ps), JobsOf(queue')) && RrInv(JobsOf(ps), i', JobsOf(queue'), rem')
    ensures Splits(whole, d', gantt', RrRun(JobsOf(ps), i', JobsOf(queue'), rem', time', q, mode))
    ensures Reports(completed', d') && forall x :: x in completed' ==> Rem(rem', x.pid) <= 0
    ensures SumPos(JobsOf(ps), rem') < SumPos(JobsOf(ps), rem) ||
      (rem' == rem && queue' == queue && i' == i && RrGap(ps, i, queue, time') < RrGap(ps, i, queue, time))
    ensures forall x :: x in completed' ==> x in completed || x in ps
  {
    ghost var js := JobsOf(ps);
    var i1, queue1 := Admit(ps, i, queue, time);
    JobsOfRange(ps, i, i1);
    JobsOfAppend(queue, ps[i..i1]);
    if queue1 == [] {
      assert queue == [] && i1 == i && i < |ps| && ps[i].at > time;
      time' := RrIdle(ps, i, rem, time, q, mode, idle);
      i', queue', rem', completed', gantt', d' := i, queue, rem, completed, gantt, d;
    } else {
      AdmitFacts(js, i, JobsOf(queue), rem, time, q, mode, i1, JobsOf(queue1), whole, d, gantt);
      assert queue1[0] in ps;
      i', queue', rem', time', completed', gantt', d' := Dispatch(ps, i1, queue1, rem, time, q, mode, completed, gantt, whole, d);
    }
  }

  /** The `round_robin` loop on the arrival-sorted list `ps`, from an empty queue at time 0. */
  method RrLoop(ps: seq<Process>, rem0: map<int, int>, q: int, mode: Requeue, idle: IdleRule) returns (completed: seq<Process>, gantt: seq<Slice>)
    requires q > 0 && RrInv(JobsOf(ps), 0, [], rem0)
    modifies set x | x in ps
    ensures var r := RrRun(JobsOf(ps), 0, [], rem0, 0, q, mode); gantt == r.gantt && Reports(completed, r.done)
    ensures forall x :: x in completed ==> x in ps
  {
    ghost var js := JobsOf(ps);
    var i, queue, rem, time := 0, [], rem0, 0;
    ghost var whole := RrRun(js, 0, [], rem0, 0, q, mode);
    ghost var d: seq<Finish> := [];
    completed, gantt := [], [];
    while queue != [] || i < |ps|
      invariant 0 <= i <= |ps| && forall x :: x in queue ==> x in ps
      invariant FromList(js, JobsOf(queue)) && RrInv(js, i, JobsOf(queue), rem)
      invariant Splits(whole, d, gantt, RrRun(js, i, JobsOf(queue), rem, time, q, mode))
      invariant Reports(completed, d) && forall x :: x in completed ==> Rem(rem, x.pid) <= 0
      invariant forall x :: x in completed ==> x in ps
      decreases SumPos(js, rem), |queue| + (|ps| - i), RrGap(ps, i, queue, time)
    {
      i, queue, rem, time, completed, gantt, d := RrPass(ps, i, queue, rem, time, q, mode, idle, completed, gantt, whole, d);
    }
  }

  /** The loop starts from the invariant: sorting keeps the pids distinct, the bursts positive
      and the dictionary of remaining times. */
  lemma RrStart(js0: seq<Job>)
    requires DistinctPids(js0) && forall k :: 0 <= k < |js0| ==> js0[k].bt > 0
    ensures RrInv(SortByAt(js0), 0, [], InitRem(js0))
  {
    var js := SortByAt(js0);
    SortIsSortedPermutation(js0);
    SortDistinct(js0);
    InitRemPermutation(js0, js);
    forall k | 0 <= k < |js| ensures js[k].bt > 0 {
      assert js[k] in multiset(js0);
    }
    RrInvInit(js);
  }

  /** `round_robin(processes, q)`: the dictionary of remaining times is built first, then the
      list is sorted by arrival in place and served from an empty queue at time 0. */
  method RoundRobin(list: ProcessList, q: int, mode: Requeue, idle: IdleRule) returns (completed: seq<Process>, gantt: seq<Slice>)
    requires q > 0 && DistinctPids(JobsOf(list.items))
    requires forall k :: 0 <= k < |list.items| ==> list.items[k].bt > 0
    modifies list, list.items
    ensures var js0 := JobsOf(old(list.items));
      JobsOf(list.items) == SortByAt(js0) && multiset(list.items) == multiset(old(list.items)) &&
      var r := RrRun(SortByAt(js0), 0, [], InitRem(js0), 0, q, mode); gantt == r.gantt && Reports(completed, r.done)
    ensures forall x :: x in completed ==> x in old(list.items)
  {
    ghost var js0 := JobsOf(list.items);
    var rem := InitialRemaining(list.items);
    SortByArrival(list);
    RrStart(js0);
    forall x | x in list.items ensures x in old(list.items) {
      assert x in multiset(old(list.items));
    }
    assert forall k :: 0 <= k < |list.items| ==> list.items[k] in old(list.items);
    completed, gantt := RrLoop(list.items, rem, q, mode, idle);
  }
}
