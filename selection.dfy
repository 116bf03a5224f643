/** The choices every policy makes at a decision point. Picking a process is written in the
    source as "filter the ready processes, stable-sort them by a key, take element 0"; that is
    the FIRST ready process with the smallest key. */
module Selection {
  import opened Jobs

  /** The list without its element `i`: what `list.remove` leaves when that element is the
      first occurrence of the removed object. */
  function Remove<T>(s: seq<T>, i: int): (r: seq<T>)
    requires 0 <= i < |s|
    ensures |r| == |s| - 1
  {
    seq(|s| - 1, k requires 0 <= k < |s| - 1 => if k < i then s[k] else s[k + 1])
  }

  /** Remove is the list cut around element `i`; removing it takes exactly that element out of
      the multiset. */
  lemma RemoveMultiset<T>(s: seq<T>, i: int)
    requires 0 <= i < |s|
    ensures Remove(s, i) == s[..i] + s[i + 1..]
    ensures multiset{s[i]} + multiset(Remove(s, i)) == multiset(s)
  {
    assert Remove(s, i) == s[..i] + s[i + 1..];
    assert s == s[..i] + [s[i]] + s[i + 1..];
  }

  /** Taking a process out keeps the pids of the others distinct. */
  lemma RemoveDistinct(js: seq<Job>, i: int)
    requires 0 <= i < |js| && DistinctPids(js)
    ensures DistinctPids(Remove(js, i))
  {
    var r := Remove(js, i);
    forall a, b | 0 <= a < b < |r| ensures r[a].pid != r[b].pid {
      var a', b' := if a < i then a else a + 1, if b < i then b else b + 1;
      assert r[a] == js[a'] && r[b] == js[b'];
    }
  }

  /** Taking a process out of the list takes its burst out of the total. */
  lemma {:induction false} SumBtRemove(js: seq<Job>, i: int)
    requires 0 <= i < |js|
    ensures SumBt(js) == js[i].bt + SumBt(Remove(js, i))
  {
    if i > 0 {
      SumBtRemove(js[1..], i - 1);
      assert Remove(js, i) == [js[0]] + Remove(js[1..], i - 1);
      assert Remove(js, i)[1..] == Remove(js[1..], i - 1);
    } else {
      assert Remove(js, 0) == js[1..];
    }
  }

  /** The key a non-preemptive policy sorts the ready list by. */
  datatype Key = Burst | Priority

  function KeyOf(j: Job, key: Key): int
  {
    match key
    case Burst => j.bt
    case Priority => j.pr
  }

  /** Some process of the list has arrived by `time` (inclusive comparison). */
  predicate AnyArrived(js: seq<Job>, time: int)
  {
    exists k :: 0 <= k < |js| && js[k].at <= time
  }

  /** The index of element 0 of `js[..n]`'s arrived processes after a stable sort by `key`,
      or -1 when none of them has arrived: a later process replaces the best so far only
      with a strictly smaller key. */
  function BestUpTo(js: seq<Job>, time: int, key: Key, n: int): (r: int)
    requires 0 <= n <= |js|
    ensures -1 <= r < n && (r >= 0 ==> js[r].at <= time)
    decreases n
  {
    if n == 0 then -1
    else
      var b := BestUpTo(js, time, key, n - 1);
      if js[n - 1].at > time then b
      else if b < 0 || KeyOf(js[n - 1], key) < KeyOf(js[b], key) then n - 1
      else b
  }

  /** BestUpTo finds nothing exactly when nothing has arrived; otherwise its pick has the
      smallest key among the arrived processes of `js[..n]`, and every arrived process before
      it has a strictly larger key. */
  lemma {:induction false} BestUpToIsMin(js: seq<Job>, time: int, key: Key, n: int)
    requires 0 <= n <= |js|
    ensures var r := BestUpTo(js, time, key, n);
      (r < 0 <==> forall j :: 0 <= j < n ==> js[j].at > time) &&
      (r >= 0 ==>
        (forall j :: 0 <= j < n && js[j].at <= time ==> KeyOf(js[r], key) <= KeyOf(js[j], key)) &&
        (forall j :: 0 <= j < r && js[j].at <= time ==> KeyOf(js[r], key) < KeyOf(js[j], key)))
    decreases n
  {
    if n > 0 {
      BestUpToIsMin(js, time, key, n - 1);
    }
  }

  /** Element 0 of the arrived processes after a stable sort by `key`, as an index into the
      list (FirstMinIsMin). */
  function FirstMin(js: seq<Job>, time: int, key: Key): (i: nat)
    requires AnyArrived(js, time)
    ensures i < |js| && js[i].at <= time
  {
    BestUpToIsMin(js, time, key, |js|);
    BestUpTo(js, time, key, |js|)
  }

  /** The pick has the smallest key among the arrived processes, and every arrived process
      before it has a strictly larger key. */
  lemma FirstMinIsMin(js: seq<Job>, time: int, key: Key)
    requires AnyArrived(js, time)
    ensures var i := FirstMin(js, time, key);
      (forall j :: 0 <= j < |js| && js[j].at <= time ==> KeyOf(js[i], key) <= KeyOf(js[j], key)) &&
      (forall j :: 0 <= j < i && js[j].at <= time ==> KeyOf(js[i], key) < KeyOf(js[j], key))
  {
    BestUpToIsMin(js, time, key, |js|);
  }

  /** The contract of FirstMinIsMin determines the pick: no other index meets it. */
  lemma FirstMinUnique(js: seq<Job>, time: int, key: Key, i: int)
    requires 0 <= i < |js| && js[i].at <= time
    requires forall j :: 0 <= j < |js| && js[j].at <= time ==> KeyOf(js[i], key) <= KeyOf(js[j], key)
    requires forall j :: 0 <= j < i && js[j].at <= time ==> KeyOf(js[i], key) < KeyOf(js[j], key)
    ensures AnyArrived(js, time) && i == FirstMin(js, time, key)
  {
    assert AnyArrived(js, time);
    FirstMinIsMin(js, time, key);
  }

  /** The earliest arrival among `js[..n]`. */
  function MinAtUpTo(js: seq<Job>, n: int): (m: int)
    requires 0 < n <= |js|
    ensures forall k :: 0 <= k < n ==> m <= js[k].at
    ensures exists k :: 0 <= k < n && js[k].at == m
    decreases n
  {
    if n == 1 then js[0].at else Min(MinAtUpTo(js, n - 1), js[n - 1].at)
  }

  /** The earliest arrival time in the list. */
  function MinAt(js: seq<Job>): (m: int)
    requires js != []
    ensures forall k :: 0 <= k < |js| ==> m <= js[k].at
    ensures exists k :: 0 <= k < |js| && js[k].at == m
  {
    MinAtUpTo(js, |js|)
  }

  /** The latest arrival among `js[..n]`. */
  function MaxAtUpTo(js: seq<Job>, n: int): (m: int)
    requires 0 < n <= |js|
    ensures forall k :: 0 <= k < n ==> js[k].at <= m
    decreases n
  {
    if n == 1 then js[0].at else Max(MaxAtUpTo(js, n - 1), js[n - 1].at)
  }

  /** The latest arrival: a bound on how long a clock can idle before every process arrived. */
  function MaxAt(js: seq<Job>): (m: int)
    requires js != []
    ensures forall k :: 0 <= k < |js| ==> js[k].at <= m
  {
    MaxAtUpTo(js, |js|)
  }

  /** The admission loop of Round Robin: starting at index `i` of the arrival-sorted list, it
      admits the longest run of not yet admitted processes that have arrived by `time`, and
      returns the index of the first process it leaves out. */
  function AdmitUpTo(js: seq<Job>, i: int, time: int): (j: int)
    requires 0 <= i <= |js|
    ensures i <= j <= |js|
    ensures forall k :: i <= k < j ==> js[k].at <= time
    ensures j == |js| || js[j].at > time
    decreases |js| - i
  {
    if i < |js| && js[i].at <= time then AdmitUpTo(js, i + 1, time) else i
  }
}
