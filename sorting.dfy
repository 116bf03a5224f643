/** The arrival-time sort that `fcfs` and `round_robin` apply to the process list in place
    (`processes.sort(key=lambda x: x.at)`). Python's sort is stable; every stable sort by the
    same key gives the same list, so the model writes it as insertion sort. */
module Sorting {
  import opened Jobs

  /** Places `x` after the last element of `s` whose arrival is at most `x.at`, passing from
      the back over the elements that arrive strictly later. */
  function InsertByAt(x: Job, s: seq<Job>): seq<Job>
    decreases |s|
  {
    if s == [] || s[|s| - 1].at <= x.at then s + [x]
    else InsertByAt(x, s[..|s| - 1]) + [s[|s| - 1]]
  }

  /** The list sorted by arrival time, equal arrivals kept in list order. */
  function SortByAt(js: seq<Job>): seq<Job>
    decreases |js|
  {
    if js == [] then [] else InsertByAt(js[|js| - 1], SortByAt(js[..|js| - 1]))
  }

  /** The processes of the list that arrive at `a`, in list order. */
  function WithAt(js: seq<Job>, a: int): seq<Job>
    decreases |js|
  {
    if js == [] then []
    else WithAt(js[..|js| - 1], a) + (if js[|js| - 1].at == a then [js[|js| - 1]] else [])
  }

  lemma WithAtSnoc(js: seq<Job>, x: Job, a: int)
    ensures WithAt(js + [x], a) == WithAt(js, a) + (if x.at == a then [x] else [])
  {
    assert (js + [x])[..|js|] == js;
  }

  /** Inserting keeps every element and adds exactly `x`. */
  lemma {:induction false} InsertMultiset(x: Job, s: seq<Job>)
    ensures multiset(InsertByAt(x, s)) == multiset(s) + multiset{x}
    decreases |s|
  {
    if !(s == [] || s[|s| - 1].at <= x.at) {
      var n := |s| - 1;
      InsertMultiset(x, s[..n]);
      assert s == s[..n] + [s[n]];
    }
  }

  /** Inserting into an arrival-sorted list gives an arrival-sorted list. */
  lemma {:induction false} InsertSorted(x: Job, s: seq<Job>)
    requires SortedByArrival(s)
    ensures SortedByArrival(InsertByAt(x, s))
    decreases |s|
  {
    if s == [] || s[|s| - 1].at <= x.at {
      SortedSnoc(s, x);
    } else {
      var n := |s| - 1;
      assert SortedByArrival(s[..n]);
      InsertSorted(x, s[..n]);
      InsertBounded(x, s[..n], s[n].at);
      SortedSnoc(InsertByAt(x, s[..n]), s[n]);
    }
  }

  /** A bound on every arrival, and on `x`'s, bounds every arrival after the insertion. */
  lemma {:induction false} InsertBounded(x: Job, s: seq<Job>, b: int)
    requires x.at <= b && forall k :: 0 <= k < |s| ==> s[k].at <= b
    ensures forall k :: 0 <= k < |InsertByAt(x, s)| ==> InsertByAt(x, s)[k].at <= b
    decreases |s|
  {
    if !(s == [] || s[|s| - 1].at <= x.at) {
      InsertBounded(x, s[..|s| - 1], b);
    }
  }

  lemma SortedSnoc(s: seq<Job>, x: Job)
    requires SortedByArrival(s) && forall k :: 0 <= k < |s| ==> s[k].at <= x.at
    ensures SortedByArrival(s + [x])
  {
  }

  /** Elements that arrive at `a` keep their order; the inserted one goes after them. */
  lemma {:induction false} InsertWithAt(x: Job, s: seq<Job>, a: int)
    ensures WithAt(InsertByAt(x, s), a) == WithAt(s, a) + (if x.at == a then [x] else [])
    decreases |s|
  {
    if s == [] || s[|s| - 1].at <= x.at {
      WithAtSnoc(s, x, a);
    } else {
      var n := |s| - 1;
      InsertWithAt(x, s[..n], a);
      WithAtSnoc(InsertByAt(x, s[..n]), s[n], a);
    }
  }

  /** The sort yields an arrival-sorted permutation of its input. */
  lemma {:induction false} SortIsSortedPermutation(js: seq<Job>)
    ensures SortedByArrival(SortByAt(js)) && multiset(SortByAt(js)) == multiset(js)
    decreases |js|
  {
    if js != [] {
      var n := |js| - 1;
      SortIsSortedPermutation(js[..n]);
      InsertSorted(js[n], SortByAt(js[..n]));
      InsertMultiset(js[n], SortByAt(js[..n]));
      assert js == js[..n] + [js[n]];
    }
  }

  /** The sort is stable: the processes of any one arrival time appear in the order of the
      input. */
  lemma {:induction false} SortIsStable(js: seq<Job>, a: int)
    ensures WithAt(SortByAt(js), a) == WithAt(js, a)
    decreases |js|
  {
    if js != [] {
      var n := |js| - 1;
      SortIsStable(js[..n], a);
      InsertWithAt(js[n], SortByAt(js[..n]), a);
    }
  }

  /** An already sorted list is left as it is. */
  lemma {:induction false} SortKeepsSorted(js: seq<Job>)
    requires SortedByArrival(js)
    ensures SortByAt(js) == js
    decreases |js|
  {
    if js != [] {
      var n := |js| - 1;
      assert SortedByArrival(js[..n]);
      SortKeepsSorted(js[..n]);
      assert js == js[..n] + [js[n]];
    }
  }

  /** Where the backward scan of the imperative insertion stops: `x` goes in at index `j`. */
  lemma {:induction false} InsertAt(x: Job, s: seq<Job>, j: int)
    requires 0 <= j <= |s| && (j == 0 || s[j - 1].at <= x.at)
    requires forall k :: j <= k < |s| ==> s[k].at > x.at
    ensures InsertByAt(x, s) == s[..j] + [x] + s[j..]
    decreases |s|
  {
    if j < |s| {
      var n := |s| - 1;
      InsertAt(x, s[..n], j);
      assert s[..n][..j] == s[..j];
      assert s[j..] == s[..n][j..] + [s[n]];
    }
  }

  /** Two lists with the same elements hold the same pids. */
  lemma HasPidPermutation(a: seq<Job>, b: seq<Job>, pid: int)
    requires multiset(a) == multiset(b)
    ensures HasPid(a, pid) == HasPid(b, pid)
  {
    if HasPid(a, pid) {
      var k :| 0 <= k < |a| && a[k].pid == pid;
      assert a[k] in multiset(b);
      var k' :| 0 <= k' < |b| && b[k'] == a[k];
    }
    if HasPid(b, pid) {
      var k :| 0 <= k < |b| && b[k].pid == pid;
      assert b[k] in multiset(a);
      var k' :| 0 <= k' < |a| && a[k'] == b[k];
    }
  }

  lemma DistinctSnoc(s: seq<Job>, x: Job)
    requires DistinctPids(s) && !HasPid(s, x.pid)
    ensures DistinctPids(s + [x])
  {
  }

  lemma {:induction false} InsertDistinct(x: Job, s: seq<Job>)
    requires DistinctPids(s) && !HasPid(s, x.pid)
    ensures DistinctPids(InsertByAt(x, s))
    decreases |s|
  {
    if s == [] || s[|s| - 1].at <= x.at {
      DistinctSnoc(s, x);
    } else {
      var n := |s| - 1;
      var l := s[n];
      assert DistinctPids(s[..n]);
      InsertDistinct(x, s[..n]);
      InsertMultiset(x, s[..n]);
      assert multiset(InsertByAt(x, s[..n])) == multiset(s[..n] + [x]);
      HasPidPermutation(InsertByAt(x, s[..n]), s[..n] + [x], l.pid);
      assert l.pid != x.pid;
      DistinctSnoc(InsertByAt(x, s[..n]), l);
    }
  }

  /** Sorting keeps the pids distinct. */
  lemma {:induction false} SortDistinct(js: seq<Job>)
    requires DistinctPids(js)
    ensures DistinctPids(SortByAt(js))
    decreases |js|
  {
    if js != [] {
      var n := |js| - 1;
      assert DistinctPids(js[..n]);
      SortDistinct(js[..n]);
      SortIsSortedPermutation(js[..n]);
      HasPidPermutation(SortByAt(js[..n]), js[..n], js[n].pid);
      InsertDistinct(js[n], SortByAt(js[..n]));
    }
  }

  lemma {:induction false} SumBtAppend(a: seq<Job>, b: seq<Job>)
    ensures SumBt(a + b) == SumBt(a) + SumBt(b)
    decreases |a|
  {
    if a == [] {
      assert a + b == b;
    } else {
      SumBtAppend(a[1..], b);
      assert (a + b)[1..] == a[1..] + b;
    }
  }

  lemma {:induction false} InsertSumBt(x: Job, s: seq<Job>)
    ensures SumBt(InsertByAt(x, s)) == SumBt(s) + x.bt
    decreases |s|
  {
    if s == [] || s[|s| - 1].at <= x.at {
      SumBtAppend(s, [x]);
    } else {
      var n := |s| - 1;
      InsertSumBt(x, s[..n]);
      SumBtAppend(InsertByAt(x, s[..n]), [s[n]]);
      SumBtAppend(s[..n], [s[n]]);
      assert s == s[..n] + [s[n]];
    }
  }

  /** Sorting keeps the total burst. */
  lemma {:induction false} SortSumBt(js: seq<Job>)
    ensures SumBt(SortByAt(js)) == SumBt(js)
    decreases |js|
  {
    if js != [] {
      var n := |js| - 1;
      SortSumBt(js[..n]);
      InsertSumBt(js[n], SortByAt(js[..n]));
      SumBtAppend(js[..n], [js[n]]);
      assert js == js[..n] + [js[n]];
    }
  }

  /** The remaining-time dictionary does not depend on the order of a list with distinct pids:
      building it before the sort, as `round_robin` does, gives the one of the sorted list. */
  lemma InitRemPermutation(a: seq<Job>, b: seq<Job>)
    requires DistinctPids(a) && DistinctPids(b) && multiset(a) == multiset(b)
    ensures InitRem(a) == InitRem(b)
  {
    forall pid ensures (pid in InitRem(a) <==> pid in InitRem(b)) && (pid in InitRem(a) ==> InitRem(a)[pid] == InitRem(b)[pid]) {
      InitRemKeys(a, pid);
      InitRemKeys(b, pid);
      HasPidPermutation(a, b, pid);
      if HasPid(a, pid) {
        var k :| 0 <= k < |a| && a[k].pid == pid;
        assert a[k] in multiset(b);
        var k' :| 0 <= k' < |b| && b[k'] == a[k];
        InitRemAt(a, k);
        InitRemAt(b, k');
      }
    }
  }
}
