/** The log pipeline (utils/queue.h, libtetrislog/logclient.c, tetrislogd/main.c): what the
    sender loses is counted, and what the channel loses the daemon can tell. */
module Logs {
  import opened Collections

  const QUEUE_SIZE := 256
  const MAX_TRACKED_SENDERS := 32

  // ----- The queue -----

  /** A queue over a fixed array. Slots are not reused until the queue runs empty. */
  class Queue<T(0)> {
    const items: array<T>
    var front: int
    var rear: int

    ghost predicate Valid()
      reads this
    {
      -1 <= front < rear <= items.Length && (front == rear - 1 ==> rear == 0)
    }

    ghost function Contents(): seq<T>
      requires Valid()
      reads this, items
    {
      items[front + 1..rear]
    }

    constructor (capacity: nat)
      ensures Valid() && Contents() == [] && items.Length == capacity && fresh(items)
    {
      items := new T[capacity];
      front, rear := -1, 0;
    }

    method Empty() returns (e: bool)
      requires Valid()
      ensures e == (Contents() == [])
    {
      e := front == rear - 1;
    }

    /** Fails when the last slot is taken, even if earlier slots have been freed. */
    method Enqueue(x: T) returns (ok: bool)
      requires Valid()
      modifies this`rear, items
      ensures Valid() && ok == (old(rear) < items.Length)
      ensures Contents() == if ok then old(Contents()) + [x] else old(Contents())
    {
      if rear == items.Length {
        return false;
      }
      items[rear] := x;
      rear := rear + 1;
      return true;
    }

    method Dequeue() returns (ok: bool)
      requires Valid()
      modifies this`front, this`rear
      ensures Valid() && ok == (old(Contents()) != [])
      ensures Contents() == if ok then old(Contents())[1..] else []
    {
      if front == rear - 1 {
        return false;
      }
      front := front + 1;
      if front == rear - 1 {
        front, rear := -1, 0;
      }
      return true;
    }

    method Peek() returns (x: T)
      requires Valid() && Contents() != []
      ensures x == Contents()[0]
    {
      x := items[front + 1];
    }
  }

  // ----- The sender -----

  datatype Record = Record(pid: nat, number: nat)

  /** A record taken off the queue, and whether the channel accepted it. */
  datatype Attempt = Attempt(record: Record, sent: bool)

  ghost function Records(as': seq<Attempt>): (r: seq<Record>)
    ensures |r| == |as'|
  {
    seq(|as'|, i requires 0 <= i < |as'| => as'[i].record)
  }

  /** Attempts at the first `n` records. */
  function Tried(rs: seq<Record>, accepted: seq<bool>, n: nat): seq<Attempt>
    requires n <= |rs|
  {
    if n == 0 then [] else Tried(rs, accepted, n - 1) + [Attempt(rs[n - 1], n - 1 < |accepted| && accepted[n - 1])]
  }

  lemma TriedNone(rs: seq<Record>, accepted: seq<bool>, as': seq<Attempt>)
    ensures as' + Tried(rs, accepted, 0) == as' && rs[0..] == rs
  {}

  lemma TriedNext(rs: seq<Record>, accepted: seq<bool>, i: nat, as': seq<Attempt>)
    requires i < |rs|
    ensures rs[i..] != [] && rs[i..][0] == rs[i] && rs[i..][1..] == rs[i + 1..]
    ensures as' + Tried(rs, accepted, i + 1)
         == as' + Tried(rs, accepted, i) + [Attempt(rs[i], i < |accepted| && accepted[i])]
  {}

  function Failures(as': seq<Attempt>): nat {
    if as' == [] then 0 else Failures(as'[..|as'| - 1]) + (if as'[|as'| - 1].sent then 0 else 1)
  }

  function Successes(as': seq<Attempt>): nat {
    if as' == [] then 0 else Successes(as'[..|as'| - 1]) + (if as'[|as'| - 1].sent then 1 else 0)
  }

  lemma {:induction false} EveryAttemptCounts(as': seq<Attempt>)
    ensures Failures(as') + Successes(as') == |as'|
  {
    if as' != [] {
      EveryAttemptCounts(as'[..|as'| - 1]);
    }
  }

  lemma OneMoreAttempt(as': seq<Attempt>, a: Attempt)
    ensures Records(as' + [a]) == Records(as') + [a.record]
    ensures Failures(as' + [a]) == Failures(as') + (if a.sent then 0 else 1)
  {
    assert (as' + [a])[..|as'|] == as';
  }

  lemma Regroup(a: seq<Record>, b: seq<Record>)
    requires b != []
    ensures a + b == a + [b[0]] + b[1..]
  {
    assert b == [b[0]] + b[1..];
  }

  class LogClient {
    const queue: Queue<Record>
    var dropped: nat
    // What has happened so far: records offered, records the queue took, sending attempts.
    ghost var pushed: nat
    ghost var queued: seq<Record>
    ghost var attempts: seq<Attempt>

    /** Attempts and queue together are the accepted records in order, and every record that
        was offered is accepted or counted. */
    ghost predicate Valid()
      reads this, queue, queue.items
    {
      && queue.Valid() && queue.items.Length == QUEUE_SIZE
      && queued == Records(attempts) + queue.Contents()
      && dropped == (pushed - |queued|) + Failures(attempts) && |queued| <= pushed
    }

    constructor ()
      ensures Valid() && pushed == 0 && dropped == 0 && attempts == []
    {
      queue := new Queue<Record>(QUEUE_SIZE);
      dropped, pushed, queued, attempts := 0, 0, [], [];
    }

    method Push(r: Record)
      requires Valid()
      modifies this, queue`rear, queue.items
      ensures Valid() && pushed == old(pushed) + 1 && attempts == old(attempts)
      ensures if old(queue.rear) < QUEUE_SIZE then queued == old(queued) + [r] && dropped == old(dropped)
              else queued == old(queued) && dropped == old(dropped) + 1
    {
      pushed := pushed + 1;
      var ok := queue.Enqueue(r);
      if ok {
        queued := queued + [r];
      } else {
        dropped := dropped + 1;
      }
    }

    /** Takes one record off the queue and tries to send it. */
    method DrainOne(sent: bool)
      requires Valid() && queue.Contents() != []
      modifies this`dropped, this`attempts, queue`front, queue`rear
      ensures Valid() && attempts == old(attempts) + [Attempt(old(queue.Contents()[0]), sent)]
      ensures queue.Contents() == old(queue.Contents())[1..]
    {
      hide Records, Failures;
      var r := queue.Peek();
      ghost var before := attempts;
      ghost var done, waiting := Records(attempts), queue.Contents();
      Regroup(done, waiting);
      if !sent {
        dropped := dropped + 1;
      }
      var _ := queue.Dequeue();
      assert queued == done + [r] + queue.Contents();
      hide Queue.Contents;
      attempts := attempts + [Attempt(r, sent)];
      OneMoreAttempt(before, Attempt(r, sent));
    }

    /** Sends up to `most` records in queue order; `accepted` says which attempts the channel
        takes. */
    method Drain(most: nat, accepted: seq<bool>)
      requires Valid()
      modifies this`dropped, this`attempts, queue`front, queue`rear
      ensures Valid()
      ensures var rs := old(queue.Contents());
              var n := if most < |rs| then most else |rs|;
              attempts == old(attempts) + Tried(rs, accepted, n) && queue.Contents() == rs[n..]
    {
      hide Records, Failures, Tried, Queue.Contents;
      ghost var rs := queue.Contents();
      TriedNone(rs, accepted, attempts);
      for i := 0 to most
        invariant Valid() && i <= |rs| && queue.Contents() == rs[i..]
            && attempts == old(attempts) + Tried(rs, accepted, i)
      {
        var empty := queue.Empty();
        if empty {
          break;
        }
        TriedNext(rs, accepted, i, old(attempts));
        DrainOne(i < |accepted| && accepted[i]);
      }
    }

    /** Records offered = records sent + records counted as dropped + records still queued. */
    lemma NothingIsLostSilently()
      requires Valid()
      ensures pushed == Successes(attempts) + dropped + |queue.Contents()|
    {
      EveryAttemptCounts(attempts);
    }
  }

  // ----- The daemon -----

  datatype Tracker = Tracker(pid: nat, last: nat)

  class LogDaemon {
    var trackers: seq<Tracker>
    var gaps: nat

    constructor ()
      ensures trackers == [] && gaps == 0
    {
      trackers, gaps := [], 0;
    }

    method FindTracker(pid: nat) returns (i: nat)
      ensures i == Slot(trackers, pid)
    {
      i := 0;
      while i < |trackers| && trackers[i].pid != pid
        invariant i <= |trackers| && Slot(trackers, pid) == Slot(trackers[i..], pid) + i
      {
        assert trackers[i..][1..] == trackers[i + 1..];
        i := i + 1;
      }
    }

    method Receive(r: Record)
      modifies this
      ensures State(trackers, gaps) == Received(old(State(trackers, gaps)), r)
    {
      var i := FindTracker(r.pid);
      if i < |trackers| {
        var t := trackers[i];
        if r.number != t.last + 1 && r.number > t.last {
          gaps := gaps + (r.number - t.last - 1);
        }
        trackers := trackers[i := Tracker(r.pid, r.number)];
      } else if |trackers| < MAX_TRACKED_SENDERS {
        trackers := trackers + [Tracker(r.pid, r.number)];
      }
    }
  }

  /** The tracker table and the gaps counted. */
  datatype Daemon = State(trackers: seq<Tracker>, gaps: nat)

  function Slot(ts: seq<Tracker>, pid: nat): (i: nat)
    ensures i <= |ts|
    ensures i < |ts| ==> ts[i].pid == pid
    ensures forall k | 0 <= k < i :: ts[k].pid != pid
  {
    if ts == [] || ts[0].pid == pid then 0 else 1 + Slot(ts[1..], pid)
  }

  function Received(d: Daemon, r: Record): Daemon {
    var i := Slot(d.trackers, r.pid);
    if i < |d.trackers| then
      var last := d.trackers[i].last;
      State(d.trackers[i := Tracker(r.pid, r.number)], d.gaps + (if r.number > last then r.number - last - 1 else 0))
    else if |d.trackers| < MAX_TRACKED_SENDERS then State(d.trackers + [Tracker(r.pid, r.number)], d.gaps)
    else d
  }

  function Run(rs: seq<Record>): Daemon {
    if rs == [] then State([], 0) else Received(Run(rs[..|rs| - 1]), rs[|rs| - 1])
  }

  /** The channel keeps each sender's order. */
  ghost predicate InOrder(rs: seq<Record>) {
    forall i, j | 0 <= i < j < |rs| && rs[i].pid == rs[j].pid :: rs[i].number < rs[j].number
  }

  ghost function Pids(rs: seq<Record>): set<nat> {
    set i | 0 <= i < |rs| :: rs[i].pid
  }

  /** A number above some arrival of the sender and below another. */
  ghost predicate Between(rs: seq<Record>, pid: nat, k: nat) {
    && (exists i :: 0 <= i < |rs| && rs[i].pid == pid && rs[i].number < k)
    && (exists j :: 0 <= j < |rs| && rs[j].pid == pid && k < rs[j].number)
  }

  /** A bound on all numbers. */
  function Ceiling(rs: seq<Record>): nat {
    if rs == [] then 0
    else
      var c, n := Ceiling(rs[..|rs| - 1]), rs[|rs| - 1].number + 1;
      if c < n then n else c
  }

  lemma {:induction false} BelowCeiling(rs: seq<Record>, i: nat)
    requires i < |rs|
    ensures rs[i].number < Ceiling(rs)
  {
    if i < |rs| - 1 {
      BelowCeiling(rs[..|rs| - 1], i);
    }
  }

  /** Numbers between a sender's first and last arrival that never arrived. */
  ghost function Missing(rs: seq<Record>, pid: nat): set<nat> {
    set k: nat | k < Ceiling(rs) && Between(rs, pid, k) && Record(pid, k) !in rs
  }

  lemma MissingIs(rs: seq<Record>, pid: nat, k: nat)
    ensures k in Missing(rs, pid) <==> Between(rs, pid, k) && Record(pid, k) !in rs
  {
    if Between(rs, pid, k) {
      var j :| 0 <= j < |rs| && rs[j].pid == pid && k < rs[j].number;
      BelowCeiling(rs, j);
    }
  }

  ghost function MissingOver(rs: seq<Record>, ts: seq<Tracker>): nat {
    if ts == [] then 0 else MissingOver(rs, ts[..|ts| - 1]) + |Missing(rs, ts[|ts| - 1].pid)|
  }

  ghost predicate Known(ts: seq<Tracker>, pid: nat) {
    exists i :: 0 <= i < |ts| && ts[i].pid == pid
  }

  ghost predicate OnePerPid(ts: seq<Tracker>) {
    forall i, j | 0 <= i < j < |ts| :: ts[i].pid != ts[j].pid
  }

  /** One tracker per sender, holding a number that arrived from it. */
  ghost predicate Tracked(rs: seq<Record>, ts: seq<Tracker>) {
    && OnePerPid(ts)
    && (forall i | 0 <= i < |ts| :: Record(ts[i].pid, ts[i].last) in rs)
    && (forall k | 0 <= k < |rs| :: Known(ts, rs[k].pid))
  }

  // ----- What one arrival adds -----

  /** The numbers strictly between two others. */
  ghost function Gap(a: nat, b: nat): (s: set<nat>)
    requires a < b
    ensures forall k: nat :: k in s <==> a < k < b
    ensures |s| == b - a - 1
  {
    if a + 1 == b then {} else Gap(a, b - 1) + {b - 1}
  }

  /** An arrival from another sender changes nothing for this one. */
  lemma OtherSender(rs: seq<Record>, r: Record, pid: nat)
    requires r.pid != pid
    ensures Missing(rs + [r], pid) == Missing(rs, pid)
  {
    forall k: nat ensures k in Missing(rs + [r], pid) <==> k in Missing(rs, pid) {
      MissingIs(rs + [r], pid, k);
      MissingIs(rs, pid, k);
      BetweenOther(rs, r, pid, k);
    }
  }

  lemma BetweenOther(rs: seq<Record>, r: Record, pid: nat, k: nat)
    requires r.pid != pid
    ensures Between(rs + [r], pid, k) == Between(rs, pid, k)
  {
    var t := rs + [r];
    assert forall i | 0 <= i < |rs| :: t[i] == rs[i];
  }

  /** An arrival beyond the last one adds exactly the numbers skipped. */
  lemma NextArrival(rs: seq<Record>, r: Record, last: nat)
    requires Record(r.pid, last) in rs && last < r.number
    requires forall k | 0 <= k < |rs| && rs[k].pid == r.pid :: rs[k].number <= last
    ensures |Missing(rs + [r], r.pid)| == |Missing(rs, r.pid)| + (r.number - last - 1)
  {
    var skipped := Gap(last, r.number);
    var t := rs + [r];
    forall k: nat ensures k in Missing(t, r.pid) <==> k in Missing(rs, r.pid) || k in skipped {
      MissingIs(t, r.pid, k);
      MissingIs(rs, r.pid, k);
      BetweenNext(rs, r, last, k);
    }
    forall k: nat | k in Missing(rs, r.pid) ensures k !in skipped {
      MissingIs(rs, r.pid, k);
    }
    assert Missing(t, r.pid) == Missing(rs, r.pid) + skipped;
  }

  ghost predicate IsGreatest(rs: seq<Record>, pid: nat, n: int) {
    (exists k :: 0 <= k < |rs| && rs[k].pid == pid && rs[k].number == n)
    && forall k | 0 <= k < |rs| && rs[k].pid == pid :: rs[k].number <= n
  }

  ghost predicate IsLeast(rs: seq<Record>, pid: nat, n: int) {
    (exists k :: 0 <= k < |rs| && rs[k].pid == pid && rs[k].number == n)
    && forall k | 0 <= k < |rs| && rs[k].pid == pid :: n <= rs[k].number
  }

  lemma {:induction false} Extremes(rs: seq<Record>, pid: nat) returns (lo: nat, hi: nat)
    requires exists k :: 0 <= k < |rs| && rs[k].pid == pid
    ensures IsLeast(rs, pid, lo) && IsGreatest(rs, pid, hi) && lo <= hi
    decreases |rs|
  {
    var n := |rs| - 1;
    assert forall k | 0 <= k < n :: rs[..n][k] == rs[k];
    if k :| 0 <= k < n && rs[k].pid == pid {
      assert rs[..n][k].pid == pid;
      lo, hi := Extremes(rs[..n], pid);
      if rs[n].pid == pid {
        lo := if rs[n].number < lo then rs[n].number else lo;
        hi := if rs[n].number > hi then rs[n].number else hi;
      }
    } else {
      lo, hi := rs[n].number, rs[n].number;
    }
  }

  /** An arrival before the first one adds exactly the numbers left out. */
  lemma EarlierArrival(rs: seq<Record>, r: Record, lo: nat)
    requires IsLeast(rs, r.pid, lo) && r.number < lo
    ensures |Missing(rs + [r], r.pid)| == |Missing(rs, r.pid)| + (lo - r.number - 1)
  {
    var skipped := Gap(r.number, lo);
    var t := rs + [r];
    forall k: nat ensures k in Missing(t, r.pid) <==> k in Missing(rs, r.pid) || k in skipped {
      MissingIs(t, r.pid, k);
      MissingIs(rs, r.pid, k);
      BetweenEarlier(rs, r, lo, k);
    }
    forall k: nat | k in Missing(rs, r.pid) ensures k !in skipped {
      MissingIs(rs, r.pid, k);
    }
    assert Missing(t, r.pid) == Missing(rs, r.pid) + skipped;
  }

  lemma BetweenEarlier(rs: seq<Record>, r: Record, lo: nat, k: nat)
    requires IsLeast(rs, r.pid, lo) && r.number < lo
    ensures var t := rs + [r];
            Between(t, r.pid, k) && Record(r.pid, k) !in t
            <==> (Between(rs, r.pid, k) && Record(r.pid, k) !in rs) || r.number < k < lo
  {
    var t := rs + [r];
    assert t[|rs|] == r && forall i | 0 <= i < |rs| :: t[i] == rs[i];
    var l :| 0 <= l < |rs| && rs[l].pid == r.pid && rs[l].number == lo;
    assert t[l].pid == r.pid && t[l].number == lo && rs[l] == Record(r.pid, lo);
    if Between(t, r.pid, k) && Record(r.pid, k) !in t && k >= lo {
      assert rs[l].number != k;
      var j :| 0 <= j < |t| && t[j].pid == r.pid && k < t[j].number;
      assert k < rs[j].number;
    }
  }

  /** An arrival between others is no longer missing, if it was. */
  lemma InnerArrival(rs: seq<Record>, r: Record, lo: nat, hi: nat)
    requires IsLeast(rs, r.pid, lo) && IsGreatest(rs, r.pid, hi) && lo <= r.number <= hi
    ensures |Missing(rs + [r], r.pid)| == |Missing(rs, r.pid)| - (if r in rs then 0 else 1)
  {
    hide Missing, IsLeast, IsGreatest;
    var before, after := Missing(rs, r.pid), Missing(rs + [r], r.pid);
    forall k: nat ensures k in after <==> k in before && (r in rs || k != r.number) {
      InnerMissing(rs, r, lo, hi, k);
    }
    if r in rs {
      assert after == before;
    } else {
      InnerMissing(rs, r, lo, hi, r.number);
      assert before == after + {r.number};
    }
  }

  lemma InnerMissing(rs: seq<Record>, r: Record, lo: nat, hi: nat, k: nat)
    requires IsLeast(rs, r.pid, lo) && IsGreatest(rs, r.pid, hi) && lo <= r.number <= hi
    ensures k in Missing(rs + [r], r.pid) <==> k in Missing(rs, r.pid) && (r in rs || k != r.number)
    ensures r !in rs && k == r.number ==> k in Missing(rs, r.pid)
  {
    hide Missing;
    var l :| 0 <= l < |rs| && rs[l].pid == r.pid && rs[l].number == lo;
    var h :| 0 <= h < |rs| && rs[h].pid == r.pid && rs[h].number == hi;
    assert rs[l] == Record(r.pid, lo) && rs[h] == Record(r.pid, hi);
    MissingIs(rs + [r], r.pid, k);
    MissingIs(rs, r.pid, k);
    BetweenInner(rs, r, l, h, k);
    assert Record(r.pid, k) == r <==> k == r.number;
  }

  lemma BetweenInner(rs: seq<Record>, r: Record, l: nat, h: nat, k: nat)
    requires l < |rs| && h < |rs| && rs[l].pid == r.pid == rs[h].pid && rs[l].number <= r.number <= rs[h].number
    ensures Between(rs + [r], r.pid, k) == Between(rs, r.pid, k)
  {
    var t := rs + [r];
    assert t[|rs|] == r && forall i | 0 <= i < |rs| :: t[i] == rs[i];
  }

  /** What the daemon adds to its count when `number` follows `last`. */
  function GapCounted(last: nat, number: nat): nat {
    if number > last then number - last - 1 else 0
  }

  /** The arrivals that are counted rightly: behind everything so far, when the last arrival was
      the greatest; right in front of everything so far; or a repetition that does not look
      like a gap. */
  ghost predicate Fitting(rs: seq<Record>, r: Record, last: nat) {
    || (r.number > last && IsGreatest(rs, r.pid, last))
    || IsLeast(rs, r.pid, r.number + 1)
    || (r in rs && r.number <= last + 1)
  }

  /** One arrival from a known sender: the gap counted is the change in what is missing if and
      only if the arrival fits. */
  lemma ArrivalChange(rs: seq<Record>, r: Record, last: nat)
    requires Record(r.pid, last) in rs
    ensures |Missing(rs + [r], r.pid)| == |Missing(rs, r.pid)| + GapCounted(last, r.number) <==> Fitting(rs, r, last)
  {
    var l :| 0 <= l < |rs| && rs[l] == Record(r.pid, last);
    var lo, hi := Extremes(rs, r.pid);
    ExtremesAre(rs, r.pid, lo, hi);
    assert lo <= last <= hi;
    if r.number > hi {
      var h :| 0 <= h < |rs| && rs[h].pid == r.pid && rs[h].number == hi;
      assert rs[h] == Record(r.pid, hi);
      NextArrival(rs, r, hi);
    } else if r.number < lo {
      EarlierArrival(rs, r, lo);
    } else {
      InnerArrival(rs, r, lo, hi);
    }
  }

  lemma ExtremesAre(rs: seq<Record>, pid: nat, lo: nat, hi: nat)
    requires IsLeast(rs, pid, lo) && IsGreatest(rs, pid, hi)
    ensures forall n: int :: IsLeast(rs, pid, n) <==> n == lo
    ensures forall n: int :: IsGreatest(rs, pid, n) <==> n == hi
    ensures forall k | 0 <= k < |rs| && rs[k].pid == pid :: lo <= rs[k].number <= hi
  {
  }

  lemma BetweenNext(rs: seq<Record>, r: Record, last: nat, k: nat)
    requires Record(r.pid, last) in rs && last < r.number
    requires forall i | 0 <= i < |rs| && rs[i].pid == r.pid :: rs[i].number <= last
    ensures var t := rs + [r];
            Between(t, r.pid, k) && Record(r.pid, k) !in t
            <==> (Between(rs, r.pid, k) && Record(r.pid, k) !in rs) || last < k < r.number
  {
    var t := rs + [r];
    assert t[|rs|] == r && forall i | 0 <= i < |rs| :: t[i] == rs[i];
    var l :| 0 <= l < |rs| && rs[l] == Record(r.pid, last);
    assert t[l].pid == r.pid && t[l].number == last;
    if Between(t, r.pid, k) && Record(r.pid, k) !in t && k <= last {
      assert rs[l].number != k;
      var i :| 0 <= i < |t| && t[i].pid == r.pid && t[i].number < k;
      assert rs[i].number < k;
    }
  }

  /** A first arrival leaves nothing missing. */
  lemma FirstArrival(rs: seq<Record>, r: Record)
    requires forall k | 0 <= k < |rs| :: rs[k].pid != r.pid
    ensures Missing(rs + [r], r.pid) == {}
  {
    var t := rs + [r];
    forall k: nat ensures k !in Missing(t, r.pid) {
      MissingIs(t, r.pid, k);
    }
  }

  lemma {:induction false} MissingElsewhere(rs: seq<Record>, r: Record, ts: seq<Tracker>)
    requires forall i | 0 <= i < |ts| :: ts[i].pid != r.pid
    ensures MissingOver(rs + [r], ts) == MissingOver(rs, ts)
    decreases |ts|
  {
    if ts != [] {
      MissingElsewhere(rs, r, ts[..|ts| - 1]);
      OtherSender(rs, r, ts[|ts| - 1].pid);
    }
  }

  lemma {:induction false} MissingAt(rs: seq<Record>, r: Record, ts: seq<Tracker>, i: nat, t: Tracker)
    requires i < |ts| && ts[i].pid == r.pid == t.pid && forall j | 0 <= j < |ts| && j != i :: ts[j].pid != r.pid
    ensures MissingOver(rs + [r], ts[i := t]) - MissingOver(rs, ts) == |Missing(rs + [r], r.pid)| - |Missing(rs, r.pid)|
    decreases |ts|
  {
    var n := |ts| - 1;
    if i == n {
      assert ts[i := t][..n] == ts[..n];
      MissingElsewhere(rs, r, ts[..n]);
    } else {
      assert ts[i := t][..n] == ts[..n][i := t];
      MissingAt(rs, r, ts[..n], i, t);
      OtherSender(rs, r, ts[n].pid);
    }
  }

  // ----- The account -----

  lemma {:induction false} TrackerCount(ts: seq<Tracker>)
    requires OnePerPid(ts)
    ensures |(set i | 0 <= i < |ts| :: ts[i].pid)| == |ts|
    decreases |ts|
  {
    if ts != [] {
      var n := |ts| - 1;
      TrackerCount(ts[..n]);
      assert (set i | 0 <= i < |ts| :: ts[i].pid) == (set i | 0 <= i < n :: ts[..n][i].pid) + {ts[n].pid};
    }
  }

  /** A table that is full has no room for a sender beyond the limit only. */
  lemma RoomForNewSender(rs: seq<Record>, r: Record, ts: seq<Tracker>)
    requires Tracked(rs, ts) && |Pids(rs + [r])| <= MAX_TRACKED_SENDERS && !Known(ts, r.pid)
    ensures |ts| < MAX_TRACKED_SENDERS
  {
    var mine := set i | 0 <= i < |ts| :: ts[i].pid;
    var all := Pids(rs + [r]);
    TrackerCount(ts);
    forall p | p in mine ensures p in all && p != r.pid {
      var i :| 0 <= i < |ts| && ts[i].pid == p;
      var k :| 0 <= k < |rs| && rs[k] == Record(ts[i].pid, ts[i].last);
      assert (rs + [r])[k].pid == p;
    }
    assert (rs + [r])[|rs|].pid == r.pid;
    SubsetSize(mine + {r.pid}, all);
  }

  lemma NewcomerIsNew(rs: seq<Record>, ts: seq<Tracker>, pid: nat)
    requires Tracked(rs, ts) && !Known(ts, pid)
    ensures forall k | 0 <= k < |rs| :: rs[k].pid != pid
  {
  }

  lemma KnownGrows(ts: seq<Tracker>, t: Tracker, pid: nat)
    ensures Known(ts + [t], pid) <==> pid == t.pid || Known(ts, pid)
  {
    assert (ts + [t])[|ts|] == t;
    forall i | 0 <= i < |ts| ensures (ts + [t])[i] == ts[i] {
    }
  }

  lemma KnownStays(ts: seq<Tracker>, i: nat, t: Tracker, pid: nat)
    requires i < |ts| && ts[i].pid == t.pid
    ensures Known(ts[i := t], pid) == Known(ts, pid)
  {
    forall j | 0 <= j < |ts| ensures ts[i := t][j].pid == ts[j].pid {
    }
  }

  lemma OnePerPidGrows(ts: seq<Tracker>, t: Tracker)
    requires OnePerPid(ts) && !Known(ts, t.pid)
    ensures OnePerPid(ts + [t])
  {
  }

  lemma StillTrackedNew(rs: seq<Record>, r: Record, ts: seq<Tracker>)
    requires Tracked(rs, ts) && !Known(ts, r.pid)
    ensures Tracked(rs + [r], ts + [Tracker(r.pid, r.number)])
  {
    hide Known, OnePerPid;
    var tr := Tracker(r.pid, r.number);
    NewcomerIsNew(rs, ts, r.pid);
    OnePerPidGrows(ts, tr);
    forall pid: nat ensures Known(ts + [tr], pid) <==> pid == r.pid || Known(ts, pid) {
      KnownGrows(ts, tr, pid);
    }
  }

  lemma StillTrackedAt(rs: seq<Record>, r: Record, ts: seq<Tracker>, i: nat)
    requires Tracked(rs, ts) && i < |ts| && ts[i].pid == r.pid
    ensures Tracked(rs + [r], ts[i := Tracker(r.pid, r.number)])
  {
    hide Known;
    var t, ts' := rs + [r], ts[i := Tracker(r.pid, r.number)];
    forall pid: nat ensures Known(ts', pid) == Known(ts, pid) {
      KnownStays(ts, i, Tracker(r.pid, r.number), pid);
    }
    forall j | 0 <= j < |ts'| ensures Record(ts'[j].pid, ts'[j].last) in t {
    }
    KnownAt(ts, i);
  }

  lemma KnownAt(ts: seq<Tracker>, i: nat)
    requires i < |ts|
    ensures Known(ts, ts[i].pid)
  {
  }

  /** The gap count is the number of missing records, over all senders tracked. */
  ghost predicate Exact(rs: seq<Record>) {
    Run(rs).gaps == MissingOver(rs, Run(rs).trackers)
  }

  /** The next arrival comes from a new sender or fits what came before. */
  ghost predicate FitsNext(rs: seq<Record>, r: Record) {
    var ts := Run(rs).trackers;
    var i := Slot(ts, r.pid);
    i < |ts| ==> Fitting(rs, r, ts[i].last)
  }

  lemma SlotOfKnown(ts: seq<Tracker>, pid: nat)
    ensures Known(ts, pid) <==> Slot(ts, pid) < |ts|
  {
  }

  lemma KnownArrival(rs: seq<Record>, r: Record, ts: seq<Tracker>, i: nat)
    requires Tracked(rs, ts) && i < |ts| && ts[i].pid == r.pid
    ensures var ts' := ts[i := Tracker(r.pid, r.number)];
            && Tracked(rs + [r], ts')
            && (MissingOver(rs + [r], ts') == MissingOver(rs, ts) + GapCounted(ts[i].last, r.number)
                <==> Fitting(rs, r, ts[i].last))
  {
    hide MissingOver, Missing, Known, Fitting, GapCounted;
    StillTrackedAt(rs, r, ts, i);
    ArrivalChange(rs, r, ts[i].last);
    MissingAt(rs, r, ts, i, Tracker(r.pid, r.number));
  }

  lemma NewArrival(rs: seq<Record>, r: Record, ts: seq<Tracker>)
    requires Tracked(rs, ts) && !Known(ts, r.pid)
    ensures var ts' := ts + [Tracker(r.pid, r.number)];
            Tracked(rs + [r], ts') && MissingOver(rs + [r], ts') == MissingOver(rs, ts)
  {
    hide Missing, Tracked;
    var ts' := ts + [Tracker(r.pid, r.number)];
    StillTrackedNew(rs, r, ts);
    NewcomerIsNew(rs, ts, r.pid);
    FirstArrival(rs, r);
    assert ts'[..|ts|] == ts;
    MissingElsewhere(rs, r, ts);
  }

  /** One arrival keeps an exact count exact if and only if it fits. */
  lemma OneMoreArrival(rs: seq<Record>, r: Record)
    requires Tracked(rs, Run(rs).trackers) && |Pids(rs + [r])| <= MAX_TRACKED_SENDERS
    ensures Tracked(rs + [r], Run(rs + [r]).trackers)
    ensures Exact(rs) ==> (Exact(rs + [r]) <==> FitsNext(rs, r))
  {
    hide Pids, MissingOver, Tracked, Known, Slot, Fitting;
    var ts := Run(rs).trackers;
    var i := Slot(ts, r.pid);
    SlotOfKnown(ts, r.pid);
    assert (rs + [r])[..|rs|] == rs;
    if i < |ts| {
      KnownArrival(rs, r, ts, i);
    } else {
      RoomForNewSender(rs, r, ts);
      NewArrival(rs, r, ts);
    }
  }

  lemma {:induction false} AlwaysTracked(rs: seq<Record>)
    requires |Pids(rs)| <= MAX_TRACKED_SENDERS
    ensures Tracked(rs, Run(rs).trackers)
    decreases |rs|
  {
    hide Pids, Exact;
    if rs != [] {
      var n := |rs| - 1;
      assert rs == rs[..n] + [rs[n]];
      FewerSenders(rs, n);
      AlwaysTracked(rs[..n]);
      OneMoreArrival(rs[..n], rs[n]);
    }
  }

  ghost predicate ExactThroughout(rs: seq<Record>) {
    forall n | 0 <= n <= |rs| :: Exact(rs[..n])
  }

  ghost predicate FitsThroughout(rs: seq<Record>) {
    forall n | 0 <= n < |rs| :: FitsNext(rs[..n], rs[n])
  }

  /** For any arrivals from up to 32 senders: the gap count is exact after every arrival if and
      only if every arrival from a known sender fits what came before it. */
  lemma {:induction false} ExactIffFitting(rs: seq<Record>)
    requires |Pids(rs)| <= MAX_TRACKED_SENDERS
    ensures ExactThroughout(rs) <==> FitsThroughout(rs)
    decreases |rs|
  {
    hide Pids, FitsNext;
    if rs == [] {
      assert Exact(rs[..0]);
    } else {
      var n := |rs| - 1;
      FewerSenders(rs, n);
      ExactIffFitting(rs[..n]);
      AlwaysTracked(rs[..n]);
      assert rs[..n] + [rs[n]] == rs == rs[..|rs|];
      OneMoreArrival(rs[..n], rs[n]);
      hide Exact;
      PrefixesButLast(rs);
    }
  }

  lemma PrefixesButLast(rs: seq<Record>)
    requires rs != []
    ensures var n := |rs| - 1;
            && (ExactThroughout(rs) <==> ExactThroughout(rs[..n]) && Exact(rs))
            && (FitsThroughout(rs) <==> FitsThroughout(rs[..n]) && FitsNext(rs[..n], rs[n]))
            && (ExactThroughout(rs[..n]) ==> Exact(rs[..n]))
  {
    hide Exact, FitsNext;
    var n := |rs| - 1;
    assert rs[..|rs|] == rs && rs[..n][..n] == rs[..n];
    forall k | 0 <= k <= n ensures rs[..n][..k] == rs[..k] {
    }
  }

  /** In order, the last number of every sender is its greatest. */
  lemma OrderFits(rs: seq<Record>, n: nat)
    requires InOrder(rs) && n < |rs| && |Pids(rs[..n])| <= MAX_TRACKED_SENDERS
    ensures FitsNext(rs[..n], rs[n])
  {
    hide Pids, Run, Known;
    var ts, r := Run(rs[..n]).trackers, rs[n];
    var i := Slot(ts, r.pid);
    if i < |ts| {
      OrderedLast(rs, n);
      var k :| 0 <= k < n && rs[..n][k].pid == r.pid && rs[..n][k].number == ts[i].last;
      assert rs[k].number < rs[n].number;
    }
  }

  ghost predicate LastIsGreatest(rs: seq<Record>, ts: seq<Tracker>) {
    forall i | 0 <= i < |ts| :: IsGreatest(rs, ts[i].pid, ts[i].last)
  }

  lemma {:induction false} OrderedLast(rs: seq<Record>, n: nat)
    requires InOrder(rs) && n <= |rs| && |Pids(rs[..n])| <= MAX_TRACKED_SENDERS
    ensures LastIsGreatest(rs[..n], Run(rs[..n]).trackers)
    decreases n
  {
    hide Pids, IsGreatest, Tracked, Known, InOrder;
    if n > 0 {
      var before, r := rs[..n - 1], rs[n - 1];
      assert rs[..n][..n - 1] == before && before + [r] == rs[..n];
      FewerSenders(rs[..n], n - 1);
      AlwaysTracked(before);
      OrderedLast(rs, n - 1);
      hide Run;
      forall i | 0 <= i < |Run(rs[..n]).trackers|
        ensures IsGreatest(rs[..n], Run(rs[..n]).trackers[i].pid, Run(rs[..n]).trackers[i].last)
      {
        var t := Run(rs[..n]).trackers[i];
        if t.pid == r.pid {
          LastInOrder(rs, n);
          TrackerIs(before, r, i);
        } else {
          TrackerStays(before, r, i);
          GreatestOfOther(before, r, t.pid, t.last);
        }
      }
    }
  }

  lemma LastInOrder(rs: seq<Record>, n: nat)
    requires InOrder(rs) && 0 < n <= |rs|
    ensures IsGreatest(rs[..n], rs[n - 1].pid, rs[n - 1].number)
  {
    assert rs[..n][n - 1] == rs[n - 1];
  }

  lemma GreatestOfOther(rs: seq<Record>, r: Record, pid: nat, n: int)
    requires IsGreatest(rs, pid, n) && r.pid != pid
    ensures IsGreatest(rs + [r], pid, n)
  {
    var t := rs + [r];
    assert t[|rs|] == r && forall i | 0 <= i < |rs| :: t[i] == rs[i];
  }

  /** The tracker of the sender of the latest arrival. */
  lemma TrackerIs(rs: seq<Record>, r: Record, i: nat)
    requires Tracked(rs, Run(rs).trackers) && i < |Run(rs + [r]).trackers| && Run(rs + [r]).trackers[i].pid == r.pid
    requires |Pids(rs + [r])| <= MAX_TRACKED_SENDERS
    ensures Run(rs + [r]).trackers[i].last == r.number
  {
    hide Pids, Exact, FitsNext;
    OneMoreArrival(rs, r);
    assert (rs + [r])[..|rs|] == rs;
    var ts, ts' := Run(rs).trackers, Run(rs + [r]).trackers;
    SlotOfKnown(ts, r.pid);
    if !Known(ts, r.pid) {
      RoomForNewSender(rs, r, ts);
    }
    SamePid(ts', Slot(ts, r.pid), i);
  }

  lemma SamePid(ts: seq<Tracker>, i: nat, j: nat)
    requires OnePerPid(ts) && i < |ts| && j < |ts| && ts[i].pid == ts[j].pid
    ensures i == j
  {}

  lemma TrackerStays(rs: seq<Record>, r: Record, i: nat)
    requires i < |Run(rs + [r]).trackers| && Run(rs + [r]).trackers[i].pid != r.pid
    ensures i < |Run(rs).trackers| && Run(rs + [r]).trackers[i] == Run(rs).trackers[i]
  {
    assert (rs + [r])[..|rs|] == rs;
  }

  /** For any interleaving of up to 32 senders and any losses, as long as the channel keeps
      each sender's order: the daemon's gap count is the number of records, summed over the
      senders, that lie between a sender's first and last arrival and never arrived. */
  lemma GapsAreTheMissing(rs: seq<Record>)
    requires InOrder(rs) && |Pids(rs)| <= MAX_TRACKED_SENDERS
    ensures Run(rs).gaps == MissingOver(rs, Run(rs).trackers)
    ensures OnePerPid(Run(rs).trackers) && forall p: nat :: Known(Run(rs).trackers, p) <==> p in Pids(rs)
  {
    hide InOrder, MissingOver, Run, FitsNext;
    forall n | 0 <= n < |rs| ensures FitsNext(rs[..n], rs[n]) {
      FewerSenders(rs, n);
      OrderFits(rs, n);
    }
    ExactIffFitting(rs);
    assert rs[..|rs|] == rs;
    AlwaysTracked(rs);
    var ts := Run(rs).trackers;
    forall p: nat | Known(ts, p) ensures p in Pids(rs) {
      var i :| 0 <= i < |ts| && ts[i].pid == p;
      var k :| 0 <= k < |rs| && rs[k] == Record(ts[i].pid, ts[i].last);
    }
  }

  lemma FewerSenders(rs: seq<Record>, n: nat)
    requires n <= |rs|
    ensures |Pids(rs[..n])| <= |Pids(rs)|
  {
    assert forall p | p in Pids(rs[..n]) :: p in Pids(rs) by {
      forall p | p in Pids(rs[..n]) ensures p in Pids(rs) {
        var i :| 0 <= i < n && rs[..n][i].pid == p;
        assert rs[i].pid == p;
      }
    }
    SubsetSize(Pids(rs[..n]), Pids(rs));
  }

  /** Numbers that fall back, as when a process identifier is used again, can be overcounted:
      here everything numbered between the first and the last number arrives, but the number
      that the second process sends is counted as lost by the first. */
  lemma ReusedPidIsOvercounted()
    ensures var rs := [Record(7, 0), Record(7, 2), Record(7, 0), Record(7, 1)];
            Run(rs).gaps == 1 && Missing(rs, 7) == {}
  {
    var rs := [Record(7, 0), Record(7, 2), Record(7, 0), Record(7, 1)];
    assert rs[..3] == [Record(7, 0), Record(7, 2), Record(7, 0)];
    assert rs[..3][..2] == [Record(7, 0), Record(7, 2)];
    assert rs[..3][..2][..1] == [Record(7, 0)];
    assert Run([]) == State([], 0);
    assert Run([Record(7, 0)]) == State([Tracker(7, 0)], 0);
    assert Run(rs[..3][..2]) == State([Tracker(7, 2)], 1);
    assert Run(rs[..3]) == State([Tracker(7, 0)], 1);
    forall k: nat ensures k !in Missing(rs, 7) {
      MissingIs(rs, 7, k);
      assert rs[0] == Record(7, 0) && rs[1] == Record(7, 2) && rs[2] == Record(7, 0) && rs[3] == Record(7, 1);
    }
  }
}
