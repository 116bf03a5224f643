/** When every process has arrived by the time the clock starts, the preemptive policies never
    preempt: the first ready process with the smallest key keeps that place until it
    completes, because the other processes' keys do not change and its own does not grow. The
    preemptive policies then complete the same processes, in the same order and at the same
    times, as the non-preemptive policy with the same key. */
module NoPreemption {
  import opened Jobs
  import opened Selection
  import opened NonPreemptiveSpec
  import opened PreemptiveSpec

  /** Every process with remaining time still has its whole burst left: none has run yet. */
  predicate Untouched(js: seq<Job>, rem: map<int, int>)
  {
    forall k :: 0 <= k < |js| && Rem(rem, js[k].pid) > 0 ==> Rem(rem, js[k].pid) == js[k].bt
  }

  predicate AllArrived(js: seq<Job>, time: int)
  {
    forall k :: 0 <= k < |js| ==> js[k].at <= time
  }

  /** Process `ip` beats every other process with remaining time: a smaller key, or an equal
      key and an earlier place in the list. */
  predicate Dominates(js: seq<Job>, rem: map<int, int>, ip: int, key: Key)
    requires 0 <= ip < |js|
  {
    forall k :: 0 <= k < |js| && k != ip && Rem(rem, js[k].pid) > 0 ==>
      var a, b := PreKeyOf(js[ip], Rem(rem, js[ip].pid), key), PreKeyOf(js[k], Rem(rem, js[k].pid), key);
      a < b || (a == b && ip < k)
  }

  /** A ready process that beats every other pending process is the one a tick runs. */
  lemma DominantIsPicked(js: seq<Job>, rem: map<int, int>, time: int, key: Key, ip: int)
    requires 0 <= ip < |js| && Ready(js[ip], Rem(rem, js[ip].pid), time) && Dominates(js, rem, ip, key)
    ensures AnyReady(js, rem, time) && PreFirstMin(js, rem, time, key) == ip
  {
    assert AnyReady(js, rem, time);
    var i := PreFirstMin(js, rem, time, key);
    PreBestUpToIsMin(js, rem, time, key, |js|);
    if i != ip {
      assert false;
    }
  }

  /** With every process arrived, the process a tick runs beats every other pending process. */
  lemma PickedDominates(js: seq<Job>, rem: map<int, int>, time: int, key: Key)
    requires AllArrived(js, time) && AnyReady(js, rem, time)
    ensures Dominates(js, rem, PreFirstMin(js, rem, time, key), key)
  {
    var i := PreFirstMin(js, rem, time, key);
    PreBestUpToIsMin(js, rem, time, key, |js|);
    forall k | 0 <= k < |js| && k != i && Rem(rem, js[k].pid) > 0
      ensures var a, b := PreKeyOf(js[i], Rem(rem, js[i].pid), key), PreKeyOf(js[k], Rem(rem, js[k].pid), key);
        a < b || (a == b && i < k)
    {
      assert Ready(js[k], Rem(rem, js[k].pid), time);
    }
  }

  /** A tick of the dominant process keeps it dominant: the others keep their remaining time
      (pids are distinct) and its own key does not grow. */
  lemma DominatesAfterTick(js: seq<Job>, rem: map<int, int>, key: Key, ip: int, left: int)
    requires DistinctPids(js) && 0 <= ip < |js| && Dominates(js, rem, ip, key)
    requires left <= Rem(rem, js[ip].pid)
    ensures Dominates(js, rem[js[ip].pid := left], ip, key)
  {
    var rem' := rem[js[ip].pid := left];
    assert PreKeyOf(js[ip], left, key) <= PreKeyOf(js[ip], Rem(rem, js[ip].pid), key);
    forall k | 0 <= k < |js| && k != ip && Rem(rem', js[k].pid) > 0
      ensures var a, b := PreKeyOf(js[ip], Rem(rem', js[ip].pid), key), PreKeyOf(js[k], Rem(rem', js[k].pid), key);
        a < b || (a == b && ip < k)
    {
      assert js[k].pid != js[ip].pid;
      assert Rem(rem', js[k].pid) == Rem(rem, js[k].pid);
    }
  }

  /** The tick the dominant process runs from `time` to `t1`, leaving it `left` units. */
  lemma DominantTick(js: seq<Job>, rem: map<int, int>, time: int, key: Key, ip: int, t1: int, left: int)
    requires AllArrived(js, time) && 0 <= ip < |js| && Dominates(js, rem, ip, key)
    requires left == Rem(rem, js[ip].pid) - 1 && left >= 0 && t1 == time + 1
    ensures PreRun(js, rem, time, key) == PreTick(js[ip], time, t1, left, PreRun(js, rem[js[ip].pid := left], t1, key))
  {
    DominantIsPicked(js, rem, time, key, ip);
    var _, _, _ := PreRunStep(js, rem, time, key);
  }

  /** A dominant process with `r` units left runs tick after tick until it completes, at `fin`;
      it is the next completion, and nothing else changes. */
  lemma {:induction false} RunsToCompletion(js: seq<Job>, rem: map<int, int>, time: int, key: Key, ip: int, r: int, fin: int)
    requires DistinctPids(js) && AllArrived(js, time) && 0 <= ip < |js|
    requires r == Rem(rem, js[ip].pid) && r > 0 && Dominates(js, rem, ip, key) && fin == time + r
    ensures PreRun(js, rem, time, key).done ==
            [Finish(js[ip], fin)] + PreRun(js, rem[js[ip].pid := 0], fin, key).done
    decreases r
  {
    if r > 1 {
      var t1, r1 := time + 1, r - 1;
      var rem1 := rem[js[ip].pid := r1];
      DominantTick(js, rem, time, key, ip, t1, r1);
      DominatesAfterTick(js, rem, key, ip, r1);
      RunsToCompletion(js, rem1, t1, key, ip, r1, fin);
      TickThenRest(js, rem, time, key, ip, t1, r1, rem1, fin);
    } else {
      DominantTick(js, rem, time, key, ip, fin, 0);
    }
  }

  /** Chaining one tick of process `ip` that leaves it `left` units with the ticks that
      complete it. */
  lemma TickThenRest(js: seq<Job>, rem: map<int, int>, time: int, key: Key, ip: int, t1: int, left: int, rem1: map<int, int>, fin: int)
    requires 0 <= ip < |js| && left > 0 && rem1 == rem[js[ip].pid := left]
    requires PreRun(js, rem, time, key) == PreTick(js[ip], time, t1, left, PreRun(js, rem1, t1, key))
    requires PreRun(js, rem1, t1, key).done == [Finish(js[ip], fin)] + PreRun(js, rem1[js[ip].pid := 0], fin, key).done
    ensures PreRun(js, rem, time, key).done == [Finish(js[ip], fin)] + PreRun(js, rem[js[ip].pid := 0], fin, key).done
  {
    assert rem1[js[ip].pid := 0] == rem[js[ip].pid := 0];
  }

  /** The non-preemptive scan over a list and over its first `n` elements agree when only
      those are looked at. */
  lemma {:induction false} BestUpToPrefix(a: seq<Job>, b: seq<Job>, time: int, key: Key, n: int)
    requires 0 <= n <= |a|
    ensures BestUpTo(a + b, time, key, n) == BestUpTo(a, time, key, n)
    decreases n
  {
    if n > 0 {
      BestUpToPrefix(a, b, time, key, n - 1);
      assert (a + b)[n - 1] == a[n - 1];
    }
  }

  /** On untouched remaining times with every process arrived, the preemptive scan over the
      whole list makes the choice the non-preemptive scan makes over the pending list: the
      same process, found at the place the pending processes before it leave it. */
  lemma {:induction false} SameScan(js: seq<Job>, rem: map<int, int>, time: int, key: Key, n: int)
    requires 0 <= n <= |js| && AllArrived(js, time) && Untouched(js, rem)
    ensures var p := PendingUpTo(js, rem, n);
      var b, c := PreBestUpTo(js, rem, time, key, n), BestUpTo(p, time, key, |p|);
      (b < 0 <==> c < 0) && (b >= 0 ==> c == |PendingUpTo(js, rem, b)| && c < |p| && p[c] == js[b])
    decreases n
  {
    if n > 0 {
      SameScan(js, rem, time, key, n - 1);
      var p0 := PendingUpTo(js, rem, n - 1);
      if Rem(rem, js[n - 1].pid) > 0 {
        ScanPending(js, rem, time, key, n, p0, PreBestUpTo(js, rem, time, key, n - 1), BestUpTo(p0, time, key, |p0|));
      } else {
        assert PendingUpTo(js, rem, n) == p0;
      }
    }
  }

  /** One step of SameScan, when the process at `n - 1` is pending: both scans meet it, from
      picks `b0` and `c0` that agree, and both replace their pick exactly when its key is
      strictly smaller. */
  lemma ScanPending(js: seq<Job>, rem: map<int, int>, time: int, key: Key, n: int, p0: seq<Job>, b0: int, c0: int)
    requires 0 < n <= |js| && AllArrived(js, time) && Untouched(js, rem) && Rem(rem, js[n - 1].pid) > 0
    requires p0 == PendingUpTo(js, rem, n - 1) && b0 == PreBestUpTo(js, rem, time, key, n - 1)
    requires c0 == BestUpTo(p0, time, key, |p0|)
    requires (b0 < 0 <==> c0 < 0) && (b0 >= 0 ==> c0 == |PendingUpTo(js, rem, b0)| && c0 < |p0| && p0[c0] == js[b0])
    ensures var p := PendingUpTo(js, rem, n);
      var b, c := PreBestUpTo(js, rem, time, key, n), BestUpTo(p, time, key, |p|);
      (b < 0 <==> c < 0) && (b >= 0 ==> c == |PendingUpTo(js, rem, b)| && c < |p| && p[c] == js[b])
  {
    var x := js[n - 1];
    var p := p0 + [x];
    assert PendingUpTo(js, rem, n) == p;
    BestUpToPrefix(p0, [x], time, key, |p0|);
    assert p[|p0|] == x;
    var c := BestUpTo(p, time, key, |p|);
    assert Ready(x, Rem(rem, x.pid), time);
    assert PreKeyOf(x, Rem(rem, x.pid), key) == KeyOf(x, key);
    if b0 >= 0 {
      assert p[c0] == p0[c0] == js[b0];
      assert PreKeyOf(js[b0], Rem(rem, js[b0].pid), key) == KeyOf(js[b0], key);
      if KeyOf(x, key) < KeyOf(js[b0], key) {
        assert c == |p0| && PreBestUpTo(js, rem, time, key, n) == n - 1;
      } else {
        assert c == c0 && PreBestUpTo(js, rem, time, key, n) == b0;
      }
    } else {
      assert c == |p0| && PreBestUpTo(js, rem, time, key, n) == n - 1;
    }
  }

  /** With every process arrived and none touched, the next preemptive tick runs the process
      the non-preemptive decision on the pending list picks, found there at the place the
      pending processes before it leave it. */
  lemma SamePick(js: seq<Job>, rem: map<int, int>, time: int, key: Key)
    requires AllArrived(js, time) && Untouched(js, rem) && Pending(js, rem) != []
    ensures AnyReady(js, rem, time) && AnyArrived(Pending(js, rem), time)
    ensures var ip, c := PreFirstMin(js, rem, time, key), FirstMin(Pending(js, rem), time, key);
      c == |PendingUpTo(js, rem, ip)| && Pending(js, rem)[c] == js[ip]
  {
    var l := Pending(js, rem);
    PendingMember(js, rem, l[0]);
    var k0 :| 0 <= k0 < |js| && js[k0] == l[0];
    assert Ready(js[k0], Rem(rem, js[k0].pid), time);
    assert AnyArrived(l, time);
    SameScan(js, rem, time, key, |js|);
  }

  /** The non-preemptive decision when the pick `c` has arrived by `time`: it completes at
      `fin`, and the rest of the list is scheduled from there. */
  lemma NpDecide(l: seq<Job>, time: int, key: Key, c: int, fin: int)
    requires AnyArrived(l, time) && c == FirstMin(l, time, key) && fin == time + l[c].bt
    ensures NpRun(l, time, key).done == [Finish(l[c], fin)] + NpRun(Remove(l, c), fin, key).done
  {
    var _, _, _ := NpStep(l, time, key);
  }

  /** Completing the process at place `c` of the pending list, process `ip` of the list, leaves
      the pending list without it, and the rest untouched. */
  lemma PendingAfter(js: seq<Job>, rem: map<int, int>, ip: int, c: int, rem': map<int, int>)
    requires DistinctPids(js) && Untouched(js, rem) && 0 <= ip < |js| && Rem(rem, js[ip].pid) > 0
    requires c == |PendingUpTo(js, rem, ip)| && rem' == rem[js[ip].pid := 0]
    ensures 0 <= c < |Pending(js, rem)| && Remove(Pending(js, rem), c) == Pending(js, rem')
    ensures |Pending(js, rem')| < |Pending(js, rem)| && Untouched(js, rem')
  {
    var l := Pending(js, rem);
    var tl := PendingUpToSplit(js, rem, ip, |js|);
    RemoveMultiset(l, c);
    forall k | 0 <= k < |js| && Rem(rem', js[k].pid) > 0 ensures Rem(rem', js[k].pid) == js[k].bt {
      assert js[k].pid != js[ip].pid;
    }
  }

  /** The first decision, seen from both sides: the process `ip` the next preemptive tick runs
      is dominant and untouched, and it is the first completion, at `fin`, of the
      non-preemptive run over the pending list, whose rest is the pending list `rem'` leaves. */
  lemma FirstPick(js: seq<Job>, rem: map<int, int>, time: int, key: Key) returns (ip: int, fin: int, rem': map<int, int>)
    requires DistinctPids(js) && AllArrived(js, time) && Untouched(js, rem) && Pending(js, rem) != []
    ensures 0 <= ip < |js| && Dominates(js, rem, ip, key) && Rem(rem, js[ip].pid) == js[ip].bt > 0
    ensures fin == time + js[ip].bt && rem' == rem[js[ip].pid := 0]
    ensures NpRun(Pending(js, rem), time, key).done == [Finish(js[ip], fin)] + NpRun(Pending(js, rem'), fin, key).done
    ensures |Pending(js, rem')| < |Pending(js, rem)| && Untouched(js, rem')
  {
    var l := Pending(js, rem);
    SamePick(js, rem, time, key);
    ip := PreFirstMin(js, rem, time, key);
    PickedDominates(js, rem, time, key);
    var c := FirstMin(l, time, key);
    fin := time + js[ip].bt;
    rem' := rem[js[ip].pid := 0];
    NpDecide(l, time, key, c, fin);
    PendingAfter(js, rem, ip, c, rem');
  }

  /** From untouched remaining times, the preemptive run completes exactly what the
      non-preemptive run over the pending list completes. */
  lemma {:induction false} PreemptiveAsNonPreemptive(js: seq<Job>, rem: map<int, int>, time: int, key: Key)
    requires DistinctPids(js) && AllArrived(js, time) && Untouched(js, rem)
    ensures PreRun(js, rem, time, key).done == NpRun(Pending(js, rem), time, key).done
    decreases |Pending(js, rem)|
  {
    PendingCount(js, rem);
    if Pending(js, rem) != [] {
      var ip, fin, rem' := FirstPick(js, rem, time, key);
      var r := Rem(rem, js[ip].pid);
      RunsToCompletion(js, rem, time, key, ip, r, fin);
      PreemptiveAsNonPreemptive(js, rem', fin, key);
      SameHead(PreRun(js, rem, time, key).done, NpRun(Pending(js, rem), time, key).done,
               Finish(js[ip], fin), PreRun(js, rem', fin, key).done, NpRun(Pending(js, rem'), fin, key).done);
    }
  }

  /** Two lists with the same head and equal tails are equal. */
  lemma SameHead(a: seq<Finish>, b: seq<Finish>, f: Finish, ta: seq<Finish>, tb: seq<Finish>)
    requires a == [f] + ta && b == [f] + tb && ta == tb
    ensures a == b
  {
  }

  /** When every process has arrived at the start, shortest-remaining-time-first completes the
      same processes in the same order and at the same times as non-preemptive SJF, and
      preemptive Priority as non-preemptive Priority. */
  lemma PreemptiveMatchesNonPreemptive(js: seq<Job>, key: Key)
    requires DistinctPids(js) && forall k :: 0 <= k < |js| ==> js[k].bt > 0 && js[k].at <= 0
    ensures PreRun(js, InitRem(js), 0, key).done == NpRun(js, 0, key).done
  {
    forall k | 0 <= k < |js| ensures Rem(InitRem(js), js[k].pid) == js[k].bt {
      InitRemAt(js, k);
    }
    PendingInit(js);
    PreemptiveAsNonPreemptive(js, InitRem(js), 0, key);
  }
}
