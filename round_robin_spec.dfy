/** Round Robin over an arrival-sorted list: a FIFO ready queue, a quantum `q`, and an index
    `i` into the list that separates admitted from not yet admitted processes. */
module RoundRobinSpec {
  import opened Jobs
  import opened Selection
  import opened FcfsSpec

  /** Where a process that still has work goes back into the queue: behind the processes that
      arrived during its slice (they are admitted first), or in front of them (it is re-queued
      first and they are admitted at the top of the next iteration). */
  datatype Requeue = AdmitFirst | RequeueFirst

  /** Every queued process is one of the list's processes. */
  predicate FromList(js: seq<Job>, queue: seq<Job>)
  {
    forall k :: 0 <= k < |queue| ==> HasPid(js, queue[k].pid)
  }

  lemma FromListAdmit(js: seq<Job>, queue: seq<Job>, i: int, j: int)
    requires FromList(js, queue) && 0 <= i <= j <= |js|
    ensures FromList(js, queue + js[i..j])
  {
    var q' := queue + js[i..j];
    forall k | 0 <= k < |q'| ensures HasPid(js, q'[k].pid) {
      if k >= |queue| {
        assert q'[k] == js[i + k - |queue|];
      }
    }
  }

  lemma FromListRequeue(js: seq<Job>, queue: seq<Job>, rest: seq<Job>, back: bool)
    requires FromList(js, queue) && queue != [] && FromList(js, rest)
    ensures FromList(js, if back then rest + [queue[0]] else rest)
  {
  }

  lemma FromListTail(js: seq<Job>, queue: seq<Job>)
    requires FromList(js, queue) && queue != []
    ensures FromList(js, queue[1..])
  {
    forall k | 0 <= k < |queue| - 1 ensures HasPid(js, queue[1..][k].pid) {
      assert queue[1..][k] == queue[k + 1];
    }
  }

  /** The result of one dispatch that runs `p` from `t` for `x` units, up to `e`, leaving it
      `left` units: its slice, and a completion record at `e` unless work is left. */
  function RrDispatch(p: Job, t: int, x: int, e: int, left: int, rest: Run): Run
  {
    Run(if left > 0 then rest.done else [Finish(p, e)] + rest.done, [Slice(p.pid, t, x)] + rest.gantt)
  }

  /** The admission index and queue after a dispatch that ended at `e`, before the process that
      just ran is re-queued. */
  function AfterSlice(js: seq<Job>, i: int, e: int, mode: Requeue): (j: int)
    requires 0 <= i <= |js|
    ensures i <= j <= |js|
  {
    if mode == AdmitFirst then AdmitUpTo(js, i, e) else i
  }

  /** The measure's last part: an empty queue waiting for the next arrival. */
  function Waiting(js: seq<Job>, i: int, queue: seq<Job>, time: int): int
    requires 0 <= i <= |js|
  {
    if queue == [] && i < |js| && js[i].at > time then 1 else 0
  }

  /** The schedule from loop head state (`i`, `queue`, `rem`, `time`): admission, then either
      a dispatch or, with an empty queue, a jump of the clock to the next arrival. */
  function RrRun(js: seq<Job>, i: int, queue: seq<Job>, rem: map<int, int>, time: int, q: int, mode: Requeue): Run
    requires 0 <= i <= |js| && q > 0 && FromList(js, queue)
    decreases SumPos(js, rem), |queue| + (|js| - i), Waiting(js, i, queue, time), 1
  {
    if queue == [] && i == |js| then Run([], [])
    else
      var i1 := AdmitUpTo(js, i, time);
      FromListAdmit(js, queue, i, i1);
      if queue + js[i..i1] == [] then
        RrRun(js, i1, [], rem, js[i1].at, q, mode)
      else
        RrServe(js, i1, queue + js[i..i1], rem, time, q, mode)
  }

  /** What one dispatch of the queue's head decides: the process `p`, the `x` units it runs,
      the end `e` of its slice, the `left` units it keeps, the admission index `i2` after the
      slice, the queue `queue` that the next iteration starts with, and the new dictionary. */
  datatype Served = Served(p: Job, x: int, e: int, left: int, i2: int, queue: seq<Job>, rem: map<int, int>)

  function Serve(js: seq<Job>, i: int, queue: seq<Job>, rem: map<int, int>, time: int, q: int, mode: Requeue): (o: Served)
    requires 0 <= i <= |js| && q > 0 && queue != []
    ensures i <= o.i2 <= |js|
  {
    var p := queue[0];
    var x := Min(q, Rem(rem, p.pid));
    var e := time + x;
    var left := Rem(rem, p.pid) - x;
    var i2 := AfterSlice(js, i, e, mode);
    Served(p, x, e, left, i2, if left > 0 then queue[1..] + js[i..i2] + [p] else queue[1..] + js[i..i2], rem[p.pid := left])
  }

  /** A dispatch runs the queue's head for the smaller of the quantum and its remaining time,
      and never leaves it a negative remaining time. */
  lemma ServeShape(js: seq<Job>, i: int, queue: seq<Job>, rem: map<int, int>, time: int, q: int, mode: Requeue)
    requires 0 <= i <= |js| && q > 0 && FromList(js, queue) && queue != []
    ensures var o := Serve(js, i, queue, rem, time, q, mode);
      o.p == queue[0] && HasPid(js, o.p.pid) &&
      o.x == Min(q, Rem(rem, o.p.pid)) && o.e == time + o.x && o.left == Rem(rem, o.p.pid) - o.x && o.left >= 0 &&
      o.rem == rem[o.p.pid := o.left] &&
      o.queue == (if o.left > 0 then queue[1..] + js[i..o.i2] + [o.p] else queue[1..] + js[i..o.i2])
  {
    assert HasPid(js, queue[0].pid);
  }

  /** When arrivals are admitted first, exactly those that arrived by the slice's end join the
      queue ahead of the head; when the head is re-queued first, nobody is admitted yet. */
  lemma ServeAdmission(js: seq<Job>, i: int, queue: seq<Job>, rem: map<int, int>, time: int, q: int, mode: Requeue)
    requires 0 <= i <= |js| && q > 0 && FromList(js, queue) && queue != []
    ensures var o := Serve(js, i, queue, rem, time, q, mode);
      (mode == AdmitFirst ==> (forall k :: i <= k < o.i2 ==> js[k].at <= o.e) && (o.i2 == |js| || js[o.i2].at > o.e)) &&
      (mode == RequeueFirst ==> o.i2 == i)
  {
  }

  lemma ServeQueue(js: seq<Job>, i: int, queue: seq<Job>, rem: map<int, int>, time: int, q: int, mode: Requeue)
    requires 0 <= i <= |js| && q > 0 && FromList(js, queue) && queue != []
    ensures FromList(js, Serve(js, i, queue, rem, time, q, mode).queue)
  {
    var o := Serve(js, i, queue, rem, time, q, mode);
    FromListTail(js, queue);
    FromListAdmit(js, queue[1..], i, o.i2);
    FromListRequeue(js, queue, queue[1..] + js[i..o.i2], o.left > 0);
  }

  /** The measure of the schedule: a dispatch lowers the positive remaining work, or, for a
      process with nothing left to do, shortens the work list. */
  lemma ServeMeasure(js: seq<Job>, i: int, queue: seq<Job>, rem: map<int, int>, time: int, q: int, mode: Requeue)
    requires 0 <= i <= |js| && q > 0 && FromList(js, queue) && queue != []
    ensures var o := Serve(js, i, queue, rem, time, q, mode);
      (Rem(rem, o.p.pid) > 0 ==> SumPos(js, o.rem) < SumPos(js, rem)) &&
      (Rem(rem, o.p.pid) <= 0 ==> SumPos(js, o.rem) == SumPos(js, rem) && |o.queue| + (|js| - o.i2) < |queue| + (|js| - i))
  {
    var o := Serve(js, i, queue, rem, time, q, mode);
    ServeShape(js, i, queue, rem, time, q, mode);
    SumPosAfterRun(js, rem, o.p.pid, o.left);
  }

  /** A dispatch of the queue's head for `min(q, remaining)` units, the admissions after it,
      and the head's return to the queue while it has work left. */
  function RrServe(js: seq<Job>, i: int, queue: seq<Job>, rem: map<int, int>, time: int, q: int, mode: Requeue): Run
    requires 0 <= i <= |js| && q > 0 && FromList(js, queue) && queue != []
    decreases SumPos(js, rem), |queue| + (|js| - i), 0, 0
  {
    var o := Serve(js, i, queue, rem, time, q, mode);
    ServeQueue(js, i, queue, rem, time, q, mode);
    ServeMeasure(js, i, queue, rem, time, q, mode);
    RrDispatch(o.p, time, o.x, o.e, o.left, RrRun(js, o.i2, o.queue, o.rem, o.e, q, mode))
  }

  /** The loop head with an empty queue after admission: the clock goes to the next arrival. */
  lemma RrIdleStep(js: seq<Job>, i: int, queue: seq<Job>, rem: map<int, int>, time: int, q: int, mode: Requeue) returns (t: int)
    requires 0 <= i <= |js| && q > 0 && FromList(js, queue)
    requires !(queue == [] && i == |js|) && queue + js[i..AdmitUpTo(js, i, time)] == []
    ensures queue == [] && i < |js| && t == js[i].at && t > time && AdmitUpTo(js, i, time) == i
    ensures RrRun(js, i, queue, rem, time, q, mode) == RrRun(js, i, [], rem, t, q, mode)
  {
    t := js[i].at;
  }

  /** The loop head with a non-empty queue after admission up to `i1`. */
  lemma RrAdmitStep(js: seq<Job>, i: int, queue: seq<Job>, rem: map<int, int>, time: int, q: int, mode: Requeue)
    returns (i1: int, queue1: seq<Job>)
    requires 0 <= i <= |js| && q > 0 && FromList(js, queue)
    requires !(queue == [] && i == |js|) && queue + js[i..AdmitUpTo(js, i, time)] != []
    ensures i1 == AdmitUpTo(js, i, time) && i <= i1 <= |js| && queue1 == queue + js[i..i1] && queue1 != []
    ensures forall k :: i <= k < i1 ==> js[k].at <= time
    ensures FromList(js, queue1) && |queue1| + (|js| - i1) == |queue| + (|js| - i)
    ensures RrRun(js, i, queue, rem, time, q, mode) == RrServe(js, i1, queue1, rem, time, q, mode)
  {
    i1 := AdmitUpTo(js, i, time);
    queue1 := queue + js[i..i1];
    FromListAdmit(js, queue, i, i1);
  }

  /** One dispatch of the queue's head: the pieces of Serve and the run that follows. */
  lemma RrServeStep(js: seq<Job>, i: int, queue: seq<Job>, rem: map<int, int>, time: int, q: int, mode: Requeue)
    returns (o: Served)
    requires 0 <= i <= |js| && q > 0 && FromList(js, queue) && queue != []
    ensures o == Serve(js, i, queue, rem, time, q, mode) && o.i2 <= |js| && FromList(js, o.queue)
    ensures RrServe(js, i, queue, rem, time, q, mode) == RrDispatch(o.p, time, o.x, o.e, o.left, RrRun(js, o.i2, o.queue, o.rem, o.e, q, mode))
  {
    o := Serve(js, i, queue, rem, time, q, mode);
    ServeQueue(js, i, queue, rem, time, q, mode);
  }

  /** No remaining time of a listed process is negative. */
  predicate NonNegRem(js: seq<Job>, rem: map<int, int>)
  {
    forall k :: 0 <= k < |js| ==> Rem(rem, js[k].pid) >= 0
  }

  /** The loop's invariant: the queue and the not yet admitted processes are, together, exactly
      the processes with remaining time, and none has a negative remaining time. */
  predicate RrInv(js: seq<Job>, i: int, queue: seq<Job>, rem: map<int, int>)
  {
    0 <= i <= |js| && DistinctPids(js) && NonNegRem(js, rem) &&
    multiset(queue + js[i..]) == multiset(Pending(js, rem))
  }

  /** The invariant holds at the start on a list with distinct pids and positive bursts. */
  lemma RrInvInit(js: seq<Job>)
    requires DistinctPids(js) && forall k :: 0 <= k < |js| ==> js[k].bt > 0
    ensures RrInv(js, 0, [], InitRem(js))
  {
    PendingInit(js);
    assert [] + js[0..] == js;
    forall k | 0 <= k < |js| ensures Rem(InitRem(js), js[k].pid) >= 0 {
      InitRemAt(js, k);
    }
  }

  lemma AdmitSplit(js: seq<Job>, i: int, i1: int, queue: seq<Job>)
    requires 0 <= i <= i1 <= |js|
    ensures queue + js[i..i1] + js[i1..] == queue + js[i..]
  {
    assert js[i..i1] + js[i1..] == js[i..];
  }

  /** Admission only moves processes from the list into the queue. */
  lemma RrInvAdmit(js: seq<Job>, i: int, i1: int, queue: seq<Job>, rem: map<int, int>)
    requires RrInv(js, i, queue, rem) && i <= i1 <= |js|
    ensures RrInv(js, i1, queue + js[i..i1], rem)
  {
    AdmitSplit(js, i, i1, queue);
  }

  /** The work list after a dispatch: the head leaves it, and comes back when work is left. */
  lemma RequeueMultiset(h: Job, rest: seq<Job>, mid: seq<Job>, tail: seq<Job>, back: bool)
    ensures multiset((if back then rest + mid + [h] else rest + mid) + tail) +
            (if back then multiset{} else multiset{h}) ==
            multiset([h] + rest + (mid + tail))
  {
  }

  lemma ServeWorkList(js: seq<Job>, i: int, queue: seq<Job>, rem: map<int, int>, time: int, q: int, mode: Requeue)
    requires 0 <= i <= |js| && q > 0 && FromList(js, queue) && queue != []
    ensures var o := Serve(js, i, queue, rem, time, q, mode);
      multiset(o.queue + js[o.i2..]) + (if o.left > 0 then multiset{} else multiset{queue[0]}) ==
      multiset(queue + js[i..])
  {
    var o := Serve(js, i, queue, rem, time, q, mode);
    ServeShape(js, i, queue, rem, time, q, mode);
    var h, rest, mid, tail, back := queue[0], queue[1..], js[i..o.i2], js[o.i2..], o.left > 0;
    assert queue + js[i..] == [h] + rest + (mid + tail) by {
      assert queue == [h] + rest;
      assert js[i..] == mid + tail;
    }
    RequeueMultiset(h, rest, mid, tail, back);
  }

  /** The multiset bookkeeping of a dispatch: after and before it, the work list and the
      pending list differ by the same process, or by none. */
  lemma TickKeepsWorkList(next: multiset<Job>, cur: multiset<Job>, before: multiset<Job>, after: multiset<Job>, p: Job, back: bool)
    requires cur == before
    requires next + (if back then multiset{} else multiset{p}) == cur
    requires back ==> after == before
    requires !back ==> after + multiset{p} == before
    ensures next == after
  {
    if !back {
      forall y ensures next[y] == after[y] {
        assert (next + multiset{p})[y] == (after + multiset{p})[y];
      }
    }
  }

  /** A dispatch keeps the invariant: the head had remaining time, so its slice lasts between 1
      and `q` units, and it leaves the pending list exactly when it completes. */
  lemma RrInvServe(js: seq<Job>, i: int, queue: seq<Job>, rem: map<int, int>, time: int, q: int, mode: Requeue)
    requires RrInv(js, i, queue, rem) && q > 0 && FromList(js, queue) && queue != []
    ensures var o := Serve(js, i, queue, rem, time, q, mode);
      Rem(rem, o.p.pid) > 0 && 0 < o.x <= q && RrInv(js, o.i2, o.queue, o.rem) &&
      multiset(o.queue + js[o.i2..]) + (if o.left > 0 then multiset{} else multiset{o.p}) ==
      multiset(queue + js[i..])
  {
    var o := Serve(js, i, queue, rem, time, q, mode);
    ServeShape(js, i, queue, rem, time, q, mode);
    ServeWorkList(js, i, queue, rem, time, q, mode);
    assert queue[0] in multiset(queue + js[i..]);
    PendingMember(js, rem, o.p);
    var c :| 0 <= c < |js| && js[c] == o.p;
    PendingTick(js, rem, c, o.left);
    TickKeepsWorkList(multiset(o.queue + js[o.i2..]), multiset(queue + js[i..]), multiset(Pending(js, rem)),
                      multiset(Pending(js, o.rem)), o.p, o.left > 0);
    NonNegRemUpdate(js, rem, o.p.pid, o.left);
  }

  lemma NonNegRemUpdate(js: seq<Job>, rem: map<int, int>, pid: int, v: int)
    requires NonNegRem(js, rem) && v >= 0
    ensures NonNegRem(js, rem[pid := v])
  {
    forall k | 0 <= k < |js| ensures Rem(rem[pid := v], js[k].pid) >= 0 {
      assert Rem(rem, js[k].pid) >= 0;
    }
  }

  /** Under the invariant, the loop completes exactly the processes of the work list, each once. */
  lemma {:induction false} RrCompletes(js: seq<Job>, i: int, queue: seq<Job>, rem: map<int, int>, time: int, q: int, mode: Requeue)
    requires 0 <= i <= |js| && q > 0 && FromList(js, queue) && RrInv(js, i, queue, rem)
    ensures multiset(JobsDone(RrRun(js, i, queue, rem, time, q, mode).done)) == multiset(queue + js[i..])
    decreases SumPos(js, rem), |queue| + (|js| - i), Waiting(js, i, queue, time), 1
  {
    if queue == [] && i == |js| {
    } else if queue + js[i..AdmitUpTo(js, i, time)] == [] {
      var t := RrIdleStep(js, i, queue, rem, time, q, mode);
      RrCompletes(js, i, [], rem, t, q, mode);
    } else {
      var i1, queue1 := RrAdmitStep(js, i, queue, rem, time, q, mode);
      RrInvAdmit(js, i, i1, queue, rem);
      AdmitSplit(js, i, i1, queue);
      RrServeCompletes(js, i1, queue1, rem, time, q, mode);
    }
  }

  lemma {:induction false} RrServeCompletes(js: seq<Job>, i: int, queue: seq<Job>, rem: map<int, int>, time: int, q: int, mode: Requeue)
    requires 0 <= i <= |js| && q > 0 && FromList(js, queue) && queue != [] && RrInv(js, i, queue, rem)
    ensures multiset(JobsDone(RrServe(js, i, queue, rem, time, q, mode).done)) == multiset(queue + js[i..])
    decreases SumPos(js, rem), |queue| + (|js| - i), 0, 0
  {
    var o := RrServeStep(js, i, queue, rem, time, q, mode);
    ServeMeasure(js, i, queue, rem, time, q, mode);
    RrInvServe(js, i, queue, rem, time, q, mode);
    RrCompletes(js, o.i2, o.queue, o.rem, o.e, q, mode);
    if o.left == 0 {
      JobsDoneCons(Finish(o.p, o.e), RrRun(js, o.i2, o.queue, o.rem, o.e, q, mode).done);
    }
  }

  /** Every process of a list with distinct pids and positive bursts completes exactly once. */
  lemma RrCompletesAll(js: seq<Job>, time: int, q: int, mode: Requeue)
    requires q > 0 && DistinctPids(js) && forall k :: 0 <= k < |js| ==> js[k].bt > 0
    ensures multiset(JobsDone(RrRun(js, 0, [], InitRem(js), time, q, mode).done)) == multiset(js)
  {
    assert [] + js[0..] == js;
    RrInvInit(js);
    RrCompletes(js, 0, [], InitRem(js), time, q, mode);
  }

  /** Under the invariant, each pid of the list receives in slices exactly its remaining time. */
  lemma {:induction false} RrPerPid(js: seq<Job>, i: int, queue: seq<Job>, rem: map<int, int>, time: int, q: int, mode: Requeue, pid: int)
    requires 0 <= i <= |js| && q > 0 && FromList(js, queue) && RrInv(js, i, queue, rem)
    ensures SumDurOf(RrRun(js, i, queue, rem, time, q, mode).gantt, pid) == (if HasPid(js, pid) then Rem(rem, pid) else 0)
    decreases SumPos(js, rem), |queue| + (|js| - i), Waiting(js, i, queue, time), 1
  {
    if queue == [] && i == |js| {
      if HasPid(js, pid) {
        var k :| 0 <= k < |js| && js[k].pid == pid;
        assert [] + js[|js|..] == [];
        assert |Pending(js, rem)| == |multiset(Pending(js, rem))| == 0;
        PendingUpToEmpty(js, rem, |js|, k);
      }
    } else if queue + js[i..AdmitUpTo(js, i, time)] == [] {
      var t := RrIdleStep(js, i, queue, rem, time, q, mode);
      RrPerPid(js, i, [], rem, t, q, mode, pid);
    } else {
      var i1, queue1 := RrAdmitStep(js, i, queue, rem, time, q, mode);
      RrInvAdmit(js, i, i1, queue, rem);
      RrServePerPid(js, i1, queue1, rem, time, q, mode, pid);
    }
  }

  lemma {:induction false} RrServePerPid(js: seq<Job>, i: int, queue: seq<Job>, rem: map<int, int>, time: int, q: int, mode: Requeue, pid: int)
    requires 0 <= i <= |js| && q > 0 && FromList(js, queue) && queue != [] && RrInv(js, i, queue, rem)
    ensures SumDurOf(RrServe(js, i, queue, rem, time, q, mode).gantt, pid) == (if HasPid(js, pid) then Rem(rem, pid) else 0)
    decreases SumPos(js, rem), |queue| + (|js| - i), 0, 0
  {
    var o := RrServeStep(js, i, queue, rem, time, q, mode);
    ServeShape(js, i, queue, rem, time, q, mode);
    ServeMeasure(js, i, queue, rem, time, q, mode);
    RrInvServe(js, i, queue, rem, time, q, mode);
    RrPerPid(js, o.i2, o.queue, o.rem, o.e, q, mode, pid);
    var g := RrRun(js, o.i2, o.queue, o.rem, o.e, q, mode).gantt;
    assert ([Slice(o.p.pid, time, o.x)] + g)[1..] == g;
  }

  /** Slice `k` of a Round Robin chart from clock `time`: it belongs to a listed process,
      lasts `min(q, remaining)` for the remaining time its process has when the slice is
      chosen, which is between 1 and `q`, and starts no earlier than the previous one ended. */
  predicate QuantumSliceAt(js: seq<Job>, rem: map<int, int>, g: seq<Slice>, time: int, q: int, k: int)
    requires 0 <= k < |g|
  {
    HasPid(js, g[k].pid) && g[k].duration == Min(q, Left(rem, g, k, g[k].pid)) && 0 < g[k].duration <= q &&
    g[k].start >= time && g[k].start >= PrevEnd(g, time, k)
  }

  predicate QuantumSlices(js: seq<Job>, rem: map<int, int>, g: seq<Slice>, time: int, q: int)
  {
    forall k :: 0 <= k < |g| ==> QuantumSliceAt(js, rem, g, time, q, k)
  }

  lemma QuantumSlicesCons(js: seq<Job>, rem: map<int, int>, rem': map<int, int>, s: Slice, g: seq<Slice>, time: int,
      e: int, q: int)
    requires HasPid(js, s.pid) && s.duration == Min(q, Rem(rem, s.pid)) && 0 < s.duration <= q
    requires s.start == time && e == End(s) && rem' == rem[s.pid := Rem(rem, s.pid) - s.duration]
    requires QuantumSlices(js, rem', g, e, q)
    ensures QuantumSlices(js, rem, [s] + g, time, q)
  {
    var g' := [s] + g;
    forall k | 0 <= k < |g'| ensures QuantumSliceAt(js, rem, g', time, q, k) {
      if k == 0 {
        LeftAtStart(rem, g', s.pid);
      } else {
        assert g'[k] == g[k - 1];
        if k > 1 { assert g'[k - 1] == g[k - 2]; }
        LeftShift(rem, rem', s, g, k, g'[k].pid);
        assert QuantumSliceAt(js, rem', g, e, q, k - 1);
      }
    }
  }

  lemma QuantumSlicesLater(js: seq<Job>, rem: map<int, int>, g: seq<Slice>, time: int, t: int, q: int)
    requires time <= t && QuantumSlices(js, rem, g, t, q)
    ensures QuantumSlices(js, rem, g, time, q)
  {
    forall k | 0 <= k < |g| ensures QuantumSliceAt(js, rem, g, time, q, k) {
      assert QuantumSliceAt(js, rem, g, t, q, k);
    }
  }

  /** Under the invariant, every slice lasts `min(q, remaining)` units for the remaining time
      its process has at that point, which is between 1 and `q`, and slices never overlap. */
  lemma {:induction false} RrSlices(js: seq<Job>, i: int, queue: seq<Job>, rem: map<int, int>, time: int, q: int, mode: Requeue)
    requires 0 <= i <= |js| && q > 0 && FromList(js, queue) && RrInv(js, i, queue, rem)
    ensures QuantumSlices(js, rem, RrRun(js, i, queue, rem, time, q, mode).gantt, time, q)
    decreases SumPos(js, rem), |queue| + (|js| - i), Waiting(js, i, queue, time), 1
  {
    if queue == [] && i == |js| {
    } else if queue + js[i..AdmitUpTo(js, i, time)] == [] {
      var t := RrIdleStep(js, i, queue, rem, time, q, mode);
      RrSlices(js, i, [], rem, t, q, mode);
      QuantumSlicesLater(js, rem, RrRun(js, i, [], rem, t, q, mode).gantt, time, t, q);
    } else {
      var i1, queue1 := RrAdmitStep(js, i, queue, rem, time, q, mode);
      RrInvAdmit(js, i, i1, queue, rem);
      RrServeSlices(js, i1, queue1, rem, time, q, mode);
    }
  }

  lemma {:induction false} RrServeSlices(js: seq<Job>, i: int, queue: seq<Job>, rem: map<int, int>, time: int, q: int, mode: Requeue)
    requires 0 <= i <= |js| && q > 0 && FromList(js, queue) && queue != [] && RrInv(js, i, queue, rem)
    ensures QuantumSlices(js, rem, RrServe(js, i, queue, rem, time, q, mode).gantt, time, q)
    decreases SumPos(js, rem), |queue| + (|js| - i), 0, 0
  {
    var o := ServeFacts(js, i, queue, rem, time, q, mode);
    RrSlices(js, o.i2, o.queue, o.rem, o.e, q, mode);
    QuantumSlicesCons(js, rem, o.rem, Slice(o.p.pid, time, o.x), RrRun(js, o.i2, o.queue, o.rem, o.e, q, mode).gantt, time, o.e, q);
  }

  /** One turn under the invariant: the head runs for `min(q, remaining)` units, between 1 and
      `q`, and the rest of the chart is the run from the next state, which keeps the invariant. */
  lemma ServeFacts(js: seq<Job>, i: int, queue: seq<Job>, rem: map<int, int>, time: int, q: int, mode: Requeue)
    returns (o: Served)
    requires 0 <= i <= |js| && q > 0 && FromList(js, queue) && queue != [] && RrInv(js, i, queue, rem)
    ensures o == Serve(js, i, queue, rem, time, q, mode) && o.p == queue[0] && o.e == time + o.x
    ensures HasPid(js, o.p.pid) && o.x == Min(q, Rem(rem, o.p.pid)) && 0 < o.x <= q
    ensures o.rem == rem[o.p.pid := Rem(rem, o.p.pid) - o.x] && SumPos(js, o.rem) < SumPos(js, rem)
    ensures FromList(js, o.queue) && RrInv(js, o.i2, o.queue, o.rem)
    ensures RrServe(js, i, queue, rem, time, q, mode).gantt == [Slice(o.p.pid, time, o.x)] + RrRun(js, o.i2, o.queue, o.rem, o.e, q, mode).gantt
  {
    o := RrServeStep(js, i, queue, rem, time, q, mode);
    ServeShape(js, i, queue, rem, time, q, mode);
    ServeMeasure(js, i, queue, rem, time, q, mode);
    RrInvServe(js, i, queue, rem, time, q, mode);
  }

  /** Every queued process has arrived by `time`. */
  predicate QueueArrived(queue: seq<Job>, time: int)
  {
    forall k :: 0 <= k < |queue| ==> queue[k].at <= time
  }

  /** No slice starts before its process has arrived. */
  predicate ServedAfterArrival(js: seq<Job>, g: seq<Slice>)
  {
    forall k, m :: 0 <= k < |g| && 0 <= m < |js| && js[m].pid == g[k].pid ==> js[m].at <= g[k].start
  }

  /** The queue's head has arrived, and with distinct pids it is the only listed process with
      its pid. */
  lemma HeadArrived(js: seq<Job>, i: int, queue: seq<Job>, rem: map<int, int>, time: int)
    requires RrInv(js, i, queue, rem) && queue != [] && QueueArrived(queue, time)
    ensures forall m :: 0 <= m < |js| && js[m].pid == queue[0].pid ==> js[m].at <= time
  {
    assert queue[0] in multiset(queue + js[i..]);
    PendingMember(js, rem, queue[0]);
  }

  /** With an empty queue and the next arrival `js[i]` after the clock, a sorted list has no
      process with work left that arrives before `js[i]`. */
  lemma NothingBefore(js: seq<Job>, i: int, rem: map<int, int>)
    requires RrInv(js, i, [], rem) && SortedByArrival(js) && i < |js|
    ensures forall m :: 0 <= m < |js| && Rem(rem, js[m].pid) > 0 ==> js[m].at >= js[i].at
  {
    forall m | 0 <= m < |js| && Rem(rem, js[m].pid) > 0 ensures js[m].at >= js[i].at {
      PendingUpToHas(js, rem, |js|, m);
      assert js[m] in multiset([] + js[i..]);
      var c :| 0 <= c < |js[i..]| && js[i..][c] == js[m];
      assert js[i + c] == js[m];
    }
  }

  lemma ServedCons(js: seq<Job>, s: Slice, g: seq<Slice>)
    requires forall m :: 0 <= m < |js| && js[m].pid == s.pid ==> js[m].at <= s.start
    requires ServedAfterArrival(js, g)
    ensures ServedAfterArrival(js, [s] + g)
  {
    var g' := [s] + g;
    forall k, m | 0 <= k < |g'| && 0 <= m < |js| && js[m].pid == g'[k].pid ensures js[m].at <= g'[k].start {
      if k > 0 { assert g'[k] == g[k - 1]; }
    }
  }

  /** A dispatch keeps every queued process arrived, now by the end of its slice. */
  lemma ServeArrived(js: seq<Job>, i: int, queue: seq<Job>, rem: map<int, int>, time: int, q: int, mode: Requeue)
    requires RrInv(js, i, queue, rem) && q > 0 && FromList(js, queue) && queue != [] && QueueArrived(queue, time)
    ensures QueueArrived(Serve(js, i, queue, rem, time, q, mode).queue, Serve(js, i, queue, rem, time, q, mode).e)
  {
    var o := Serve(js, i, queue, rem, time, q, mode);
    ServeShape(js, i, queue, rem, time, q, mode);
    ServeAdmission(js, i, queue, rem, time, q, mode);
    RrInvServe(js, i, queue, rem, time, q, mode);
    var mid := queue[1..] + js[i..o.i2];
    assert QueueArrived(mid, o.e) by {
      forall k | 0 <= k < |mid| ensures mid[k].at <= o.e {
        if k < |queue| - 1 { assert mid[k] == queue[k + 1]; } else { assert mid[k] == js[i + k - (|queue| - 1)]; }
      }
    }
    assert o.queue == (if o.left > 0 then mid + [queue[0]] else mid);
  }

  /** One dispatch from a state whose queued processes have arrived, with what the idle rule
      needs of it: the next state keeps the invariant and has its queue arrived by the slice's
      end, and the chart is the head's slice followed by the rest. */
  lemma ServeNext(js: seq<Job>, i: int, queue: seq<Job>, rem: map<int, int>, time: int, q: int, mode: Requeue)
    returns (o: Served)
    requires 0 <= i <= |js| && q > 0 && FromList(js, queue) && queue != [] && RrInv(js, i, queue, rem)
    requires QueueArrived(queue, time)
    ensures o == Serve(js, i, queue, rem, time, q, mode) && o.p == queue[0] && o.e == time + o.x
    ensures o.rem == rem[o.p.pid := Rem(rem, o.p.pid) - o.x] && SumPos(js, o.rem) < SumPos(js, rem)
    ensures FromList(js, o.queue) && RrInv(js, o.i2, o.queue, o.rem) && QueueArrived(o.queue, o.e)
    ensures RrServe(js, i, queue, rem, time, q, mode).gantt == [Slice(o.p.pid, time, o.x)] + RrRun(js, o.i2, o.queue, o.rem, o.e, q, mode).gantt
  {
    o := ServeFacts(js, i, queue, rem, time, q, mode);
    ServeArrived(js, i, queue, rem, time, q, mode);
  }

  /** The head's slice, from the clock, in front of a chart that keeps the idle rule. */
  lemma ServeIdleCons(js: seq<Job>, rem: map<int, int>, o: Served, time: int, g: seq<Slice>)
    requires o.rem == rem[o.p.pid := Rem(rem, o.p.pid) - o.x] && o.e == time + o.x
    requires forall m :: 0 <= m < |js| && js[m].pid == o.p.pid ==> js[m].at <= time
    requires IdleWhileNoneArrived(js, o.rem, g, o.e) && ServedAfterArrival(js, g)
    ensures IdleWhileNoneArrived(js, rem, [Slice(o.p.pid, time, o.x)] + g, time)
    ensures ServedAfterArrival(js, [Slice(o.p.pid, time, o.x)] + g)
  {
    var s := Slice(o.p.pid, time, o.x);
    IdlesCons(js, rem, o.rem, s, g, time, o.e);
    ServedCons(js, s, g);
  }

  /** On a sorted list, Round Robin idles only while no process with work left has arrived,
      and no slice starts before its process's arrival. */
  lemma {:induction false} RrIdleRule(js: seq<Job>, i: int, queue: seq<Job>, rem: map<int, int>, time: int, q: int, mode: Requeue)
    requires 0 <= i <= |js| && q > 0 && FromList(js, queue) && RrInv(js, i, queue, rem)
    requires SortedByArrival(js) && QueueArrived(queue, time)
    ensures var g := RrRun(js, i, queue, rem, time, q, mode).gantt;
      IdleWhileNoneArrived(js, rem, g, time) && ServedAfterArrival(js, g)
    decreases SumPos(js, rem), |queue| + (|js| - i), Waiting(js, i, queue, time), 1
  {
    if queue == [] && i == |js| {
    } else if queue + js[i..AdmitUpTo(js, i, time)] == [] {
      var t := RrIdleStep(js, i, queue, rem, time, q, mode);
      RrIdleRule(js, i, [], rem, t, q, mode);
      RrSlices(js, i, [], rem, t, q, mode);
      NothingBefore(js, i, rem);
      var g := RrRun(js, i, [], rem, t, q, mode).gantt;
      assert |g| > 0 ==> QuantumSliceAt(js, rem, g, t, q, 0);
      IdlesLater(js, rem, g, time, t);
    } else {
      var i1, queue1 := RrAdmitStep(js, i, queue, rem, time, q, mode);
      RrInvAdmit(js, i, i1, queue, rem);
      assert QueueArrived(queue1, time) by {
        forall k | 0 <= k < |queue1| ensures queue1[k].at <= time {
          if k >= |queue| { assert queue1[k] == js[i + k - |queue|]; }
        }
      }
      RrServeIdleRule(js, i1, queue1, rem, time, q, mode);
    }
  }

  lemma {:induction false} RrServeIdleRule(js: seq<Job>, i: int, queue: seq<Job>, rem: map<int, int>, time: int, q: int, mode: Requeue)
    requires 0 <= i <= |js| && q > 0 && FromList(js, queue) && queue != [] && RrInv(js, i, queue, rem)
    requires SortedByArrival(js) && QueueArrived(queue, time)
    ensures var g := RrServe(js, i, queue, rem, time, q, mode).gantt;
      IdleWhileNoneArrived(js, rem, g, time) && ServedAfterArrival(js, g)
    decreases SumPos(js, rem), |queue| + (|js| - i), 0, 0
  {
    var o := ServeNext(js, i, queue, rem, time, q, mode);
    HeadArrived(js, i, queue, rem, time);
    RrIdleRule(js, o.i2, o.queue, o.rem, o.e, q, mode);
    ServeIdleCons(js, rem, o, time, RrRun(js, o.i2, o.queue, o.rem, o.e, q, mode).gantt);
  }

  /** No work is fabricated or lost: the chart's total length is the total burst. */
  lemma RrConservation(js: seq<Job>, time: int, q: int, mode: Requeue)
    requires q > 0 && DistinctPids(js) && forall k :: 0 <= k < |js| ==> js[k].bt > 0
    ensures SumDur(RrRun(js, 0, [], InitRem(js), time, q, mode).gantt) == SumBt(js)
  {
    var g := RrRun(js, 0, [], InitRem(js), time, q, mode).gantt;
    RrInvInit(js);
    RrSlices(js, 0, [], InitRem(js), time, q, mode);
    forall k | 0 <= k < |g| ensures HasPid(js, g[k].pid) {
      assert QuantumSliceAt(js, InitRem(js), g, time, q, k);
    }
    forall k | 0 <= k < |js| ensures SumDurOf(g, js[k].pid) == js[k].bt {
      RrPerPid(js, 0, [], InitRem(js), time, q, mode, js[k].pid);
      InitRemAt(js, k);
      assert HasPid(js, js[k].pid);
    }
    ConservationFromPerPid(js, g);
  }

  /** Idling by one unit at a time reaches the same schedule as jumping to the next arrival. */
  lemma RrIdleTick(js: seq<Job>, i: int, rem: map<int, int>, time: int, q: int, mode: Requeue)
    requires 0 <= i < |js| && q > 0 && time < js[i].at
    ensures RrRun(js, i, [], rem, time + 1, q, mode) == RrRun(js, i, [], rem, time, q, mode)
  {
    var t := RrIdleStep(js, i, [], rem, time, q, mode);
    var next := time + 1;
    if next < js[i].at {
      var t' := RrIdleStep(js, i, [], rem, next, q, mode);
    }
  }

  /** The state of a Round Robin run that behaves like FCFS: the queue is the stretch
      `js[j..i]` of the list, every process from `j` on still has its whole burst, which fits in
      one quantum, and the queued processes have arrived. */
  predicate FcfsLike(js: seq<Job>, j: int, i: int, rem: map<int, int>, time: int, q: int)
  {
    0 <= j <= i <= |js| && DistinctPids(js) &&
    (forall k :: j <= k < |js| ==> Rem(rem, js[k].pid) == js[k].bt && 0 < js[k].bt <= q) &&
    (forall k :: j <= k < i ==> js[k].at <= time)
  }

  lemma FcfsLikeFromList(js: seq<Job>, j: int, i: int)
    requires 0 <= j <= i <= |js|
    ensures FromList(js, js[j..i])
  {
    FromListAdmit(js, [], j, i);
    assert [] + js[j..i] == js[j..i];
  }

  /** Admitting the arrivals extends the queue's stretch of the list. */
  lemma FcfsLikeAdmit(js: seq<Job>, j: int, i: int, i1: int, rem: map<int, int>, time: int, q: int)
    requires FcfsLike(js, j, i, rem, time, q) && i <= i1 <= |js| && forall k :: i <= k < i1 ==> js[k].at <= time
    ensures FcfsLike(js, j, i1, rem, time, q) && js[j..i] + js[i..i1] == js[j..i1] && FromList(js, js[j..i1])
  {
    assert js[j..i] + js[i..i1] == js[j..i1];
    FcfsLikeFromList(js, j, i1);
  }

  /** The dispatch of `js[j]` in an FCFS-like state completes it in one slice, from `time`, and
      leaves another FCFS-like state. */
  lemma FcfsLikeServe(js: seq<Job>, j: int, i: int, rem: map<int, int>, time: int, q: int, mode: Requeue)
    requires q > 0 && FcfsLike(js, j, i, rem, time, q) && j < i
    ensures var o := Serve(js, i, js[j..i], rem, time, q, mode);
      o.p == js[j] && o.x == js[j].bt && o.e == time + js[j].bt && o.left == 0 &&
      o.queue == js[j + 1..o.i2] && FcfsLike(js, j + 1, o.i2, o.rem, o.e, q)
  {
    FcfsLikeFromList(js, j, i);
    var o := Serve(js, i, js[j..i], rem, time, q, mode);
    ServeShape(js, i, js[j..i], rem, time, q, mode);
    ServeAdmission(js, i, js[j..i], rem, time, q, mode);
    assert js[j..i][1..] + js[i..o.i2] == js[j + 1..o.i2];
    forall k | j + 1 <= k < |js| ensures Rem(o.rem, js[k].pid) == js[k].bt {
      assert js[k].pid != js[j].pid;
    }
  }

  /** With a quantum no smaller than any burst, Round Robin from an FCFS-like state is FCFS. */
  lemma {:induction false} RrFcfs(js: seq<Job>, j: int, i: int, rem: map<int, int>, time: int, q: int, mode: Requeue)
    requires q > 0 && FcfsLike(js, j, i, rem, time, q) && FromList(js, js[j..i])
    ensures RrRun(js, i, js[j..i], rem, time, q, mode) == FcfsRun(js[j..], time)
    decreases SumPos(js, rem), |js[j..i]| + (|js| - i), Waiting(js, i, js[j..i], time), 1
  {
    if js[j..i] == [] && i == |js| {
      assert js[j..] == [];
    } else if js[j..i] + js[i..AdmitUpTo(js, i, time)] == [] {
      var t := RrIdleStep(js, i, js[j..i], rem, time, q, mode);
      assert j == i && js[i..i] == [];
      FcfsLikeFromList(js, i, i);
      RrFcfs(js, i, i, rem, t, q, mode);
      FcfsIdleStart(js[i..], time, t);
    } else {
      var i1, queue1 := RrAdmitStep(js, i, js[j..i], rem, time, q, mode);
      FcfsLikeAdmit(js, j, i, i1, rem, time, q);
      RrServeFcfs(js, j, i1, rem, time, q, mode);
    }
  }

  lemma {:induction false} RrServeFcfs(js: seq<Job>, j: int, i: int, rem: map<int, int>, time: int, q: int, mode: Requeue)
    requires q > 0 && FcfsLike(js, j, i, rem, time, q) && j < i && FromList(js, js[j..i])
    ensures RrServe(js, i, js[j..i], rem, time, q, mode) == FcfsRun(js[j..], time)
    decreases SumPos(js, rem), |js[j..i]| + (|js| - i), 0, 0
  {
    var o := RrServeStep(js, i, js[j..i], rem, time, q, mode);
    ServeMeasure(js, i, js[j..i], rem, time, q, mode);
    FcfsLikeServe(js, j, i, rem, time, q, mode);
    FcfsLikeFromList(js, j + 1, o.i2);
    RrFcfs(js, j + 1, o.i2, o.rem, o.e, q, mode);
    FcfsStep(js[j..], time, o.e);
    assert js[j..][1..] == js[j + 1..];
  }

  /** When the quantum is at least every burst, Round Robin gives the FCFS schedule on the same
      list: the same completion order, completion times and chart. */
  lemma RrMatchesFcfs(js: seq<Job>, time: int, q: int, mode: Requeue)
    requires q > 0 && DistinctPids(js) && forall k :: 0 <= k < |js| ==> 0 < js[k].bt <= q
    ensures RrRun(js, 0, [], InitRem(js), time, q, mode) == FcfsRun(js, time)
  {
    forall k | 0 <= k < |js| ensures Rem(InitRem(js), js[k].pid) == js[k].bt {
      InitRemAt(js, k);
    }
    FcfsLikeFromList(js, 0, 0);
    assert js[0..0] == [] && js[0..] == js;
    RrFcfs(js, 0, 0, InitRem(js), time, q, mode);
  }

  /** The two processes of the admission-order example: P1 arrives at 0 with burst 3, P2 at 1
      with burst 2. */
  function OrderExample(): seq<Job>
  {
    [Job(1, 0, 3, 0), Job(2, 1, 2, 0)]
  }

  /** Admitting first: P1 runs from 0 to 2, and P2, which arrived meanwhile, joins the queue
      ahead of P1's return, so P2 has the second slice. */
  lemma AdmitFirstExample()
    ensures var g := RrRun(OrderExample(), 0, [], InitRem(OrderExample()), 0, 2, AdmitFirst).gantt;
      |g| >= 2 && g[0] == Slice(1, 0, 2) && g[1] == Slice(2, 2, 2)
  {
    var js := OrderExample();
    var p1, p2 := js[0], js[1];
    var rem0 := InitRem(js);
    assert js[..1] == [p1] && [p1][..0] == [];
    assert Rem(rem0, 1) == 3 && Rem(rem0, 2) == 2;
    assert js[0..1] == [p1] && js[1..2] == [p2] && js[2..2] == [];
    var rem1 := rem0[1 := 1];
    assert AdmitUpTo(js, 0, 0) == 1;
    var i1, q1 := RrAdmitStep(js, 0, [], rem0, 0, 2, AdmitFirst);
    var o1 := RrServeStep(js, 1, [p1], rem0, 0, 2, AdmitFirst);
    assert o1 == Served(p1, 2, 2, 1, 2, [p2, p1], rem1);
    var i2, q2 := RrAdmitStep(js, 2, [p2, p1], rem1, 2, 2, AdmitFirst);
    var o2 := RrServeStep(js, 2, [p2, p1], rem1, 2, 2, AdmitFirst);
    assert o2.p == p2 && o2.x == 2;
  }

  /** Re-queueing first: P1 goes back to the queue before P2 is admitted, so P1 has the second
      slice as well. */
  lemma RequeueFirstExample()
    ensures var g := RrRun(OrderExample(), 0, [], InitRem(OrderExample()), 0, 2, RequeueFirst).gantt;
      |g| >= 2 && g[0] == Slice(1, 0, 2) && g[1] == Slice(1, 2, 1)
  {
    var js := OrderExample();
    var p1, p2 := js[0], js[1];
    var rem0 := InitRem(js);
    assert js[..1] == [p1] && [p1][..0] == [];
    assert Rem(rem0, 1) == 3 && Rem(rem0, 2) == 2;
    assert js[0..1] == [p1] && js[1..2] == [p2] && js[1..1] == [];
    var rem1 := rem0[1 := 1];
    assert AdmitUpTo(js, 0, 0) == 1;
    var i1, q1 := RrAdmitStep(js, 0, [], rem0, 0, 2, RequeueFirst);
    var o1 := RrServeStep(js, 1, [p1], rem0, 0, 2, RequeueFirst);
    assert o1 == Served(p1, 2, 2, 1, 1, [p1], rem1);
    assert AdmitUpTo(js, 1, 2) == 2;
    var i2, q2 := RrAdmitStep(js, 1, [p1], rem1, 2, 2, RequeueFirst);
    assert q2 == [p1, p2];
    var o2 := RrServeStep(js, 2, [p1, p2], rem1, 2, 2, RequeueFirst);
    assert o2.p == p1 && o2.x == 1;
  }

  /** The two admission orders of the copies give different schedules on the same workload:
      the process that just ran and a process that arrived during its slice swap places. */
  lemma RrAdmissionOrder()
    ensures RrRun(OrderExample(), 0, [], InitRem(OrderExample()), 0, 2, AdmitFirst).gantt !=
            RrRun(OrderExample(), 0, [], InitRem(OrderExample()), 0, 2, RequeueFirst).gantt
  {
    AdmitFirstExample();
    RequeueFirstExample();
  }
}
