/**
 * CCheckQueue: script checks shared out between worker threads and a master, with one mutex
 * and two condition variables. Each critical section is one atomic step; a sleeping thread may
 * wake up at any time, notified or not.
 */
module CheckQueue {

  /** A verification, known by its identity; what calling it returns is up to the script checker. */
  type Check = nat

  /** What the mutex protects. */
  datatype Shared = Shared(queue: seq<Check>, nIdle: nat, nTotal: nat, fAllOk: bool, nTodo: nat)

  /** How a thread comes into a critical section of Loop, and how it leaves. */
  datatype Entry = Start | Resume | Finished(nNow: nat, fOk: bool)

  datatype Exit = Took(vChecks: seq<Check>, fOk: bool) | Slept | Returned(ret: bool)

  predicate All(run: Check -> bool, s: seq<Check>) {
    forall i | 0 <= i < |s| :: run(s[i])
  }

  // ---------- one critical section ----------

  ghost predicate MayEnter(s: Shared, e: Entry) {
    && (e.Start? || s.nTotal > 0)
    && (e.Resume? ==> s.nIdle > 0)
    && (e.Finished? ==> 0 < e.nNow <= s.nTodo)
  }

  ghost function CleanUp(s: Shared, e: Entry): Shared
    requires MayEnter(s, e)
  {
    match e
    case Start => s.(nTotal := s.nTotal + 1)
    case Resume => s.(nIdle := s.nIdle - 1)
    case Finished(nNow, fOk) => s.(fAllOk := s.fAllOk && fOk, nTodo := s.nTodo - nNow)
  }

  function BatchSize(s: Shared, nBatchSize: nat): (n: nat)
    requires s.queue != []
    ensures 1 <= n <= |s.queue|
  {
    var share := |s.queue| / (s.nTotal + s.nIdle + 1);
    ShareFits(|s.queue|, s.nTotal + s.nIdle + 1);
    var capped := if nBatchSize < share then nBatchSize else share;
    if capped < 1 then 1 else capped
  }

  lemma {:induction false} ShareFits(n: nat, d: nat)
    requires d >= 1
    ensures n / d <= n
  {}

  /**
   * A batch leaves as many checks for each of the other threads, and once more; it is the largest that
   * does so and has no more than nBatchSize checks, or else a single check.
   */
  lemma {:induction false} FairShare(s: Shared, nBatchSize: nat, m: nat)
    requires s.queue != []
    ensures var n := BatchSize(s, nBatchSize);
            && (n == 1 || (n <= nBatchSize && n * (s.nTotal + s.nIdle + 1) <= |s.queue|))
            && (m <= nBatchSize && m * (s.nTotal + s.nIdle + 1) <= |s.queue| ==> m <= n)
  {
    var d := s.nTotal + s.nIdle + 1;
    ShareIsLargest(|s.queue|, d, m);
    ShareIsLargest(|s.queue|, d, BatchSize(s, nBatchSize));
  }

  lemma {:induction false} ShareIsLargest(n: nat, d: nat, m: nat)
    requires d >= 1
    ensures m * d <= n <==> m <= n / d
  {
    assert n == n / d * d + n % d;
    if m <= n / d {
      assert n / d * d == m * d + (n / d - m) * d;
    } else {
      assert m * d == n / d * d + d + (m - n / d - 1) * d;
    }
  }

  /** The last n checks, last first. */
  ghost function Popped(queue: seq<Check>, n: nat): seq<Check>
    requires n <= |queue|
  {
    seq(n, i requires 0 <= i < n => queue[|queue| - 1 - i])
  }

  ghost function Head(s: Shared, fMaster: bool, nBatchSize: nat): (Shared, Exit)
    requires s.nTotal > 0
  {
    if s.queue == [] then
      if fMaster && s.nTodo == 0 then (s.(nTotal := s.nTotal - 1, fAllOk := true), Returned(s.fAllOk))
      else (s.(nIdle := s.nIdle + 1), Slept)
    else
      var n := BatchSize(s, nBatchSize);
      (s.(queue := s.queue[..|s.queue| - n]), Took(Popped(s.queue, n), s.fAllOk))
  }

  ghost predicate WakesMaster(s: Shared, fMaster: bool, e: Entry)
    requires MayEnter(s, e)
  {
    e.Finished? && !fMaster && CleanUp(s, e).nTodo == 0
  }

  class CCheckQueue {
    var queue: seq<Check>
    var nIdle: nat
    var nTotal: nat
    var fAllOk: bool
    var nTodo: nat
    const nBatchSize: nat
    const run: Check -> bool

    ghost function State(): Shared
      reads this
    {
      Shared(queue, nIdle, nTotal, fAllOk, nTodo)
    }

    constructor (nBatchSize: nat, run: Check -> bool)
      ensures State() == Shared([], 0, 0, true, 0)
      ensures this.nBatchSize == nBatchSize && this.run == run
    {
      queue, nIdle, nTotal, fAllOk, nTodo := [], 0, 0, true, 0;
      this.nBatchSize, this.run := nBatchSize, run;
    }

    /** From taking the mutex in Loop to releasing it or going to sleep. */
    method CriticalSection(fMaster: bool, e: Entry) returns (x: Exit, notifyMaster: bool)
      requires MayEnter(State(), e)
      modifies this
      ensures (State(), x) == Head(CleanUp(old(State()), e), fMaster, nBatchSize)
      ensures notifyMaster == WakesMaster(old(State()), fMaster, e)
    {
      notifyMaster := false;
      match e {
        case Start =>
          nTotal := nTotal + 1;
        case Resume =>
          nIdle := nIdle - 1;
        case Finished(nNow, fOk) =>
          fAllOk := fAllOk && fOk;
          nTodo := nTodo - nNow;
          notifyMaster := nTodo == 0 && !fMaster;
      }
      x := Proceed(fMaster);
    }

    /** The loop head: return, sleep or take a batch. */
    method Proceed(fMaster: bool) returns (x: Exit)
      requires nTotal > 0
      modifies this
      ensures (State(), x) == Head(old(State()), fMaster, nBatchSize)
    {
      if queue == [] {
        if fMaster && nTodo == 0 {
          nTotal := nTotal - 1;
          x := Returned(fAllOk);
          fAllOk := true;
        } else {
          nIdle := nIdle + 1;
          x := Slept;
        }
      } else {
        var nNow := BatchSize(Shared(queue, nIdle, nTotal, fAllOk, nTodo), nBatchSize);
        var vChecks := Take(nNow);
        x := Took(vChecks, fAllOk);
      }
    }

    /** Swap checks from the back of the queue into a local batch. */
    method Take(nNow: nat) returns (vChecks: seq<Check>)
      requires nNow <= |queue|
      modifies this`queue
      ensures vChecks == Popped(old(queue), nNow) && queue == old(queue)[..|old(queue)| - nNow]
    {
      vChecks := [];
      for i := 0 to nNow
        invariant vChecks == Popped(old(queue), i) && queue == old(queue)[..|old(queue)| - i]
      {
        vChecks := vChecks + [queue[|queue| - 1]];
        queue := queue[..|queue| - 1];
      }
    }

    /** The work done outside the mutex; it stops at the first failure. */
    method Execute(vChecks: seq<Check>, start: bool) returns (fOk: bool)
      ensures fOk == (start && All(run, vChecks))
    {
      fOk := start;
      for i := 0 to |vChecks|
        invariant fOk == (start && All(run, vChecks[..i]))
      {
        assert vChecks[..i + 1] == vChecks[..i] + [vChecks[i]];
        if fOk {
          fOk := run(vChecks[i]);
        }
      }
      assert vChecks[..|vChecks|] == vChecks;
    }

    method Add(vChecks: seq<Check>) returns (notifyOne: bool, notifyAll: bool)
      modifies this`queue, this`nTodo
      ensures queue == old(queue) + vChecks && nTodo == old(nTodo) + |vChecks|
      ensures notifyOne == (|vChecks| == 1) && notifyAll == (|vChecks| > 1)
    {
      for i := 0 to |vChecks|
        invariant queue == old(queue) + vChecks[..i] && nTodo == old(nTodo)
      {
        queue := queue + [vChecks[i]];
      }
      nTodo := nTodo + |vChecks|;
      notifyOne, notifyAll := |vChecks| == 1, |vChecks| > 1;
    }

    method IsIdle() returns (b: bool)
      ensures b == Idle(State())
    {
      b := nTotal == nIdle && nTodo == 0 && fAllOk;
    }
  }

  ghost predicate Idle(s: Shared) {
    s.nTotal == s.nIdle && s.nTodo == 0 && s.fAllOk
  }

  // ---------- all threads together ----------

  /** Where a thread is while it does not hold the mutex. */
  datatype Thread = Outside | Busy(hand: seq<Check>, start: bool) | Asleep(notified: bool)

  /** Thread 0 is the master. `added` records what was added since the last Wait returned. */
  datatype System = System(shared: Shared, threads: seq<Thread>, added: seq<Check>)

  datatype Kind = Inside | Sleeping | Holding | Effort

  ghost function Weight(t: Thread, k: Kind): nat {
    match k
    case Inside => if t.Outside? then 0 else 1
    case Sleeping => if t.Asleep? then 1 else 0
    case Holding => if t.Busy? then |t.hand| else 0
    case Effort => match t case Outside => 1 case Busy(_, _) => 2 case Asleep(notified) => if notified then 1 else 0
  }

  ghost function Sum(ts: seq<Thread>, k: Kind): nat {
    if ts == [] then 0 else Weight(ts[0], k) + Sum(ts[1..], k)
  }

  lemma {:induction false} SumUpdate(ts: seq<Thread>, i: nat, t: Thread, k: Kind)
    requires i < |ts|
    ensures Sum(ts[i := t], k) == Sum(ts, k) - Weight(ts[i], k) + Weight(t, k)
    ensures Weight(ts[i], k) <= Sum(ts, k)
  {
    if i == 0 {
      assert ts[i := t][1..] == ts[1..];
    } else {
      SumUpdate(ts[1..], i - 1, t, k);
      assert ts[i := t][1..] == ts[1..][i - 1 := t];
    }
  }

  lemma {:induction false} SumSame(ts: seq<Thread>, us: seq<Thread>, k: Kind)
    requires |ts| == |us| && forall i | 0 <= i < |ts| :: Weight(ts[i], k) == Weight(us[i], k)
    ensures Sum(ts, k) == Sum(us, k)
  {
    if ts != [] {
      SumSame(ts[1..], us[1..], k);
    }
  }

  lemma {:induction false} SumPositive(ts: seq<Thread>, k: Kind) returns (i: nat)
    requires Sum(ts, k) > 0
    ensures i < |ts| && Weight(ts[i], k) > 0
  {
    if Weight(ts[0], k) > 0 {
      i := 0;
    } else {
      i := SumPositive(ts[1..], k);
      i := i + 1;
    }
  }

  /** Checks that are neither done nor in the queue are in somebody's hands. */
  ghost predicate CountsOk(s: System) {
    && |s.threads| > 0
    && s.shared.nTotal == Sum(s.threads, Inside)
    && s.shared.nIdle == Sum(s.threads, Sleeping)
    && s.shared.nTodo == |s.shared.queue| + Sum(s.threads, Holding)
    && s.shared.nTodo <= |s.added|
  }

  ghost predicate HandOk(run: Check -> bool, t: Thread) {
    t.Busy? ==> All(run, t.hand)
  }

  ghost predicate HandsOk(run: Check -> bool, ts: seq<Thread>) {
    forall i | 0 <= i < |ts| :: HandOk(run, ts[i])
  }

  /** No thread works on nothing, and one that was told of a failure was told the truth. */
  ghost predicate BusyOk(ts: seq<Thread>, fAllOk: bool) {
    forall i | 0 <= i < |ts| && ts[i].Busy? :: ts[i].hand != [] && (fAllOk ==> ts[i].start)
  }

  /** fAllOk and the checks still to do stand for all checks added. */
  ghost predicate ResultOk(run: Check -> bool, s: System) {
    All(run, s.added) <==>
    s.shared.fAllOk && All(run, s.shared.queue) && HandsOk(run, s.threads)
  }

  /** A master nobody has woken has a reason to sleep. */
  ghost predicate MasterOk(s: System)
    requires |s.threads| > 0
  {
    && (s.threads[0].Asleep? ==> s.shared.queue == [])
    && (s.threads[0] == Asleep(false) ==> s.shared.nTodo > 0)
  }

  ghost predicate Inv(run: Check -> bool, s: System) {
    CountsOk(s) && BusyOk(s.threads, s.shared.fAllOk) && ResultOk(run, s) && MasterOk(s)
  }

  ghost function EntryOf(run: Check -> bool, t: Thread): Entry {
    match t
    case Outside => Start
    case Asleep(_) => Resume
    case Busy(hand, start) => Finished(|hand|, start && All(run, hand))
  }

  ghost function ThreadAfter(x: Exit): Thread {
    match x
    case Took(vChecks, fOk) => Busy(vChecks, fOk)
    case Slept => Asleep(false)
    case Returned(_) => Outside
  }

  /** condMaster.notify_one() */
  ghost function NotifyMaster(ts: seq<Thread>): seq<Thread>
    requires |ts| > 0
  {
    if ts[0].Asleep? then ts[0 := Asleep(true)] else ts
  }

  ghost predicate CanMove(run: Check -> bool, s: System, i: nat) {
    i < |s.threads| && MayEnter(s.shared, EntryOf(run, s.threads[i]))
  }

  /** What thread i leaves behind when it goes through a critical section of Loop. */
  ghost function Outcome(run: Check -> bool, nBatchSize: nat, s: System, i: nat): (Shared, Exit)
    requires CanMove(run, s, i)
  {
    Head(CleanUp(s.shared, EntryOf(run, s.threads[i])), i == 0, nBatchSize)
  }

  ghost function Move(run: Check -> bool, nBatchSize: nat, s: System, i: nat): System
    requires CanMove(run, s, i)
  {
    var e := EntryOf(run, s.threads[i]);
    var (shared', x) := Outcome(run, nBatchSize, s, i);
    var ts := if WakesMaster(s.shared, i == 0, e) then NotifyMaster(s.threads) else s.threads;
    System(shared', ts[i := ThreadAfter(x)], if x.Returned? then [] else s.added)
  }

  /** The threads after condWorker.notify_one() reached thread j, if it reached any. */
  ghost predicate NotifiedOne(ts: seq<Thread>, us: seq<Thread>, j: nat) {
    if exists k :: 0 < k < |ts| && ts[k] == Asleep(false)
    then 0 < j < |ts| && ts[j] == Asleep(false) && us == ts[j := Asleep(true)]
    else us == ts
  }

  ghost predicate NotifiedAll(ts: seq<Thread>, us: seq<Thread>) {
    |us| == |ts| && forall k | 0 <= k < |ts| :: us[k] == if k > 0 && ts[k].Asleep? then Asleep(true) else ts[k]
  }

  /** Add is called by the master, outside Wait. */
  ghost predicate Adding(s: System, checks: seq<Check>, j: nat, s': System) {
    && |s.threads| > 0 && s.threads[0].Outside?
    && s'.shared == s.shared.(queue := s.shared.queue + checks, nTodo := s.shared.nTodo + |checks|)
    && s'.added == s.added + checks
    && if |checks| == 1 then NotifiedOne(s.threads, s'.threads, j)
       else if |checks| > 1 then NotifiedAll(s.threads, s'.threads)
       else s'.threads == s.threads
  }

  ghost predicate Woken(ts: seq<Thread>, us: seq<Thread>, i: nat) {
    i < |ts| == |us| && ts[i] == Asleep(false) && us[i] == Asleep(true)
  }

  /** Add wakes nobody for no check, one sleeping worker for one check, all of them for more; never the master. */
  lemma {:induction false} AddWakes(s: System, checks: seq<Check>, j: nat, s': System)
    requires Adding(s, checks, j, s')
    ensures |s'.threads| == |s.threads| && s'.threads[0] == s.threads[0]
    ensures forall i | 0 < i < |s.threads| :: s'.threads[i] == s.threads[i] || Woken(s.threads, s'.threads, i)
    ensures checks == [] ==> forall i: nat :: !Woken(s.threads, s'.threads, i)
    ensures |checks| == 1 ==> forall i: nat, k: nat ::
              Woken(s.threads, s'.threads, i) && Woken(s.threads, s'.threads, k) ==> i == k
    ensures |checks| == 1 && (exists k :: 0 < k < |s.threads| && s.threads[k] == Asleep(false))
            ==> exists i: nat :: Woken(s.threads, s'.threads, i)
    ensures |checks| > 1 ==> forall i | 0 < i < |s.threads| && s.threads[i] == Asleep(false) ::
              Woken(s.threads, s'.threads, i)
  {
    if |checks| == 1 && exists k :: 0 < k < |s.threads| && s.threads[k] == Asleep(false) {
      assert Woken(s.threads, s'.threads, j);
    }
  }

  // ---------- every step keeps the invariant ----------

  /** Every thread can go on whenever the mutex is free; the counters never drop below zero. */
  lemma {:induction false} AnyThreadCanMove(run: Check -> bool, s: System, i: nat)
    requires Inv(run, s) && i < |s.threads|
    ensures CanMove(run, s, i)
  {
    SumUpdate(s.threads, i, Outside, Inside);
    SumUpdate(s.threads, i, Outside, Sleeping);
    SumUpdate(s.threads, i, Outside, Holding);
  }

  lemma {:induction false} NotifyKeepsSums(ts: seq<Thread>, us: seq<Thread>)
    requires |ts| == |us|
    requires forall i | 0 <= i < |ts| :: us[i] == ts[i] || (ts[i].Asleep? && us[i].Asleep?)
    ensures Sum(us, Inside) == Sum(ts, Inside) && Sum(us, Sleeping) == Sum(ts, Sleeping)
            && Sum(us, Holding) == Sum(ts, Holding)
  {
    SumSame(ts, us, Inside);
    SumSame(ts, us, Sleeping);
    SumSame(ts, us, Holding);
  }

  lemma {:induction false} SumsUpdate(ts: seq<Thread>, i: nat, t: Thread)
    requires i < |ts|
    ensures forall k ::
            Sum(ts[i := t], k) == Sum(ts, k) - Weight(ts[i], k) + Weight(t, k) && Weight(ts[i], k) <= Sum(ts, k)
  {
    forall k
      ensures Sum(ts[i := t], k) == Sum(ts, k) - Weight(ts[i], k) + Weight(t, k) && Weight(ts[i], k) <= Sum(ts, k)
    {
      SumUpdate(ts, i, t, k);
    }
  }

  /** The threads before the moving one is put back. */
  ghost function Others(run: Check -> bool, s: System, i: nat): seq<Thread>
    requires CanMove(run, s, i)
  {
    if WakesMaster(s.shared, i == 0, EntryOf(run, s.threads[i])) then NotifyMaster(s.threads) else s.threads
  }

  lemma {:induction false} MoveKeepsCounts(run: Check -> bool, nBatchSize: nat, s: System, i: nat)
    requires CountsOk(s) && CanMove(run, s, i)
    requires Outcome(run, nBatchSize, s, i).1.Returned? ==> Sum(s.threads, Holding) == Weight(s.threads[i], Holding)
    ensures CountsOk(Move(run, nBatchSize, s, i))
  {
    var ts := Others(run, s, i);
    var t := ThreadAfter(Outcome(run, nBatchSize, s, i).1);
    NotifyKeepsSums(s.threads, ts);
    SumsUpdate(ts, i, t);
    assert Weight(ts[i], Inside) == Weight(s.threads[i], Inside);
  }

  /** When the master returns, nobody else holds a check. */
  lemma {:induction false} ReturnMeansDone(run: Check -> bool, nBatchSize: nat, s: System, i: nat)
    requires CountsOk(s) && CanMove(run, s, i) && Outcome(run, nBatchSize, s, i).1.Returned?
    ensures i == 0 && s.shared.queue == [] && Sum(s.threads, Holding) == Weight(s.threads[0], Holding)
    ensures forall k | 0 < k < |s.threads| :: Weight(s.threads[k], Holding) == 0
  {
    forall k | 0 < k < |s.threads|
      ensures Weight(s.threads[k], Holding) == 0
    {
      SumUpdate(s.threads, 0, Outside, Holding);
      SumUpdate(s.threads[0 := Outside], k, Outside, Holding);
    }
  }

  lemma {:induction false} PoppedAll(run: Check -> bool, queue: seq<Check>, n: nat)
    requires n <= |queue|
    ensures All(run, queue) <==> All(run, queue[..|queue| - n]) && All(run, Popped(queue, n))
  {
    var rest, hand := queue[..|queue| - n], Popped(queue, n);
    if All(run, rest) && All(run, hand) {
      forall i | 0 <= i < |queue|
        ensures run(queue[i])
      {
        if i < |rest| {
          assert rest[i] == queue[i];
        } else {
          assert hand[|queue| - 1 - i] == queue[i];
        }
      }
    }
  }

  ghost predicate HandsBut(run: Check -> bool, ts: seq<Thread>, i: nat) {
    forall k | 0 <= k < |ts| && k != i :: HandOk(run, ts[k])
  }

  lemma {:induction false} HandsSplit(run: Check -> bool, ts: seq<Thread>, i: nat, t: Thread)
    requires i < |ts|
    ensures HandsOk(run, ts) <==> HandsBut(run, ts, i) && HandOk(run, ts[i])
    ensures HandsOk(run, ts[i := t]) <==> HandsBut(run, ts, i) && HandOk(run, t)
  {
    var us := ts[i := t];
    if HandsOk(run, us) {
      forall k | 0 <= k < |ts| && k != i
        ensures HandOk(run, ts[k])
      {
        assert us[k] == ts[k];
      }
      assert us[i] == t;
    }
  }

  /** What a move does to the result: nothing is forgotten, nothing is made up. */
  lemma {:induction false} MoveKeepsResult(run: Check -> bool, nBatchSize: nat, s: System, i: nat)
    requires CanMove(run, s, i) && BusyOk(s.threads, s.shared.fAllOk) && ResultOk(run, s) && |s.threads| > 0
    requires !Outcome(run, nBatchSize, s, i).1.Returned?
    ensures ResultOk(run, Move(run, nBatchSize, s, i))
  {
    var ts, t := Others(run, s, i), ThreadAfter(Outcome(run, nBatchSize, s, i).1);
    HandsSplit(run, s.threads, i, t);
    HandsSplit(run, ts, i, t);
    assert HandsBut(run, ts, i) <==> HandsBut(run, s.threads, i) by {
      assert forall k | 0 <= k < |ts| && k != i :: HandOk(run, ts[k]) == HandOk(run, s.threads[k]);
    }
    if s.shared.queue != [] {
      PoppedAll(run, s.shared.queue, BatchSize(CleanUp(s.shared, EntryOf(run, s.threads[i])), nBatchSize));
    }
  }

  lemma {:induction false} MoveKeepsBusy(run: Check -> bool, nBatchSize: nat, s: System, i: nat)
    requires CanMove(run, s, i) && BusyOk(s.threads, s.shared.fAllOk) && |s.threads| > 0
    requires Outcome(run, nBatchSize, s, i).1.Returned?
             ==> forall k | 0 <= k < |s.threads| && k != i :: !s.threads[k].Busy?
    ensures var s' := Move(run, nBatchSize, s, i); BusyOk(s'.threads, s'.shared.fAllOk)
  {}

  lemma {:induction false} MoveKeepsMaster(run: Check -> bool, nBatchSize: nat, s: System, i: nat)
    requires CanMove(run, s, i) && |s.threads| > 0 && MasterOk(s)
    ensures MasterOk(Move(run, nBatchSize, s, i))
  {}

  /** The master's return resets the result, with nothing left that it could be about. */
  lemma {:induction false} ReturnKeepsResult(run: Check -> bool, nBatchSize: nat, s: System)
    requires Inv(run, s) && CanMove(run, s, 0) && Outcome(run, nBatchSize, s, 0).1.Returned?
    ensures ResultOk(run, Move(run, nBatchSize, s, 0))
    ensures forall k | 0 < k < |s.threads| :: !s.threads[k].Busy?
  {
    ReturnMeansDone(run, nBatchSize, s, 0);
  }

  lemma {:induction false} MoveKeepsInv(run: Check -> bool, nBatchSize: nat, s: System, i: nat)
    requires Inv(run, s) && i < |s.threads|
    ensures CanMove(run, s, i) && Inv(run, Move(run, nBatchSize, s, i))
  {
    hide CountsOk, BusyOk, ResultOk, MasterOk, Move, CanMove, Outcome;
    AnyThreadCanMove(run, s, i);
    if Outcome(run, nBatchSize, s, i).1.Returned? {
      ReturnMeansDone(run, nBatchSize, s, i);
      ReturnKeepsResult(run, nBatchSize, s);
    } else {
      MoveKeepsResult(run, nBatchSize, s, i);
    }
    MoveKeepsCounts(run, nBatchSize, s, i);
    MoveKeepsBusy(run, nBatchSize, s, i);
    MoveKeepsMaster(run, nBatchSize, s, i);
  }

  lemma {:induction false} AddKeepsInv(run: Check -> bool, s: System, checks: seq<Check>, j: nat, s': System)
    requires Inv(run, s) && Adding(s, checks, j, s')
    ensures Inv(run, s')
  {
    NotifyKeepsSums(s.threads, s'.threads);
    AllAppend(run, s.added, checks);
    AllAppend(run, s.shared.queue, checks);
    assert HandsOk(run, s'.threads) == HandsOk(run, s.threads) by {
      assert forall k | 0 <= k < |s.threads| :: HandOk(run, s'.threads[k]) == HandOk(run, s.threads[k]);
    }
  }

  lemma {:induction false} AllAppend(run: Check -> bool, a: seq<Check>, b: seq<Check>)
    ensures All(run, a + b) <==> All(run, a) && All(run, b)
  {
    if All(run, a + b) {
      forall i | 0 <= i < |a|
        ensures run(a[i])
      {
        assert (a + b)[i] == a[i];
      }
      forall i | 0 <= i < |b|
        ensures run(b[i])
      {
        assert (a + b)[|a| + i] == b[i];
      }
    }
  }

  // ---------- every run ----------

  datatype Step = Moves(i: nat) | Adds(checks: seq<Check>, j: nat)

  ghost predicate Steps(run: Check -> bool, nBatchSize: nat, s: System, a: Step, s': System) {
    match a
    case Moves(i) => CanMove(run, s, i) && s' == Move(run, nBatchSize, s, i)
    case Adds(checks, j) => Adding(s, checks, j, s')
  }

  ghost predicate Initial(s: System) {
    && |s.threads| > 0 && (forall i | 0 <= i < |s.threads| :: s.threads[i] == Outside)
    && s.shared == Shared([], 0, 0, true, 0) && s.added == []
  }

  /** A sequence of states, each the result of some thread's step in the one before. */
  ghost predicate Run(run: Check -> bool, nBatchSize: nat, states: seq<System>, steps: seq<Step>) {
    && |states| == |steps| + 1
    && Initial(states[0])
    && forall k | 0 <= k < |steps| :: Steps(run, nBatchSize, states[k], steps[k], states[k + 1])
  }

  lemma {:induction false} NoneInside(ts: seq<Thread>)
    requires forall i | 0 <= i < |ts| :: ts[i] == Outside
    ensures Sum(ts, Inside) == 0 && Sum(ts, Sleeping) == 0 && Sum(ts, Holding) == 0
  {
    if ts != [] {
      NoneInside(ts[1..]);
    }
  }

  lemma {:induction false} RunKeepsInv(run: Check -> bool, nBatchSize: nat, states: seq<System>, steps: seq<Step>,
                                       k: nat)
    requires Run(run, nBatchSize, states, steps) && k < |states|
    ensures Inv(run, states[k])
  {
    if k == 0 {
      NoneInside(states[0].threads);
    } else {
      RunKeepsInv(run, nBatchSize, states, steps, k - 1);
      assert Steps(run, nBatchSize, states[k - 1], steps[k - 1], states[k]);
      match steps[k - 1]
      case Moves(i) => MoveKeepsInv(run, nBatchSize, states[k - 1], i);
      case Adds(checks, j) => AddKeepsInv(run, states[k - 1], checks, j, states[k]);
    }
  }

  /**
   * Whatever the interleaving, Wait returns true exactly when every check added since the last
   * Wait is true, and it leaves the queue idle.
   */
  lemma {:induction false} WaitIsExact(run: Check -> bool, nBatchSize: nat, states: seq<System>, steps: seq<Step>,
                                       k: nat)
    requires Run(run, nBatchSize, states, steps) && k < |steps| && steps[k].Moves?
    requires CanMove(run, states[k], steps[k].i) && Outcome(run, nBatchSize, states[k], steps[k].i).1.Returned?
    ensures steps[k].i == 0
    ensures Outcome(run, nBatchSize, states[k], 0).1.ret <==> All(run, states[k].added)
    ensures Idle(states[k + 1].shared)
  {
    RunKeepsInv(run, nBatchSize, states, steps, k);
    RunKeepsInv(run, nBatchSize, states, steps, k + 1);
    var s := states[k];
    ReturnMeansDone(run, nBatchSize, s, steps[k].i);
    assert forall i | 0 < i < |s.threads| :: HandOk(run, s.threads[i]);
    UnusedIsIdle(run, states[k + 1]);
  }

  /** The assertion of CCheckQueueControl's constructor: a queue nobody added to is idle. */
  lemma {:induction false} UnusedIsIdle(run: Check -> bool, s: System)
    requires Inv(run, s) && s.threads[0].Outside? && s.added == []
    ensures Idle(s.shared)
  {
    AllAsleep(s.threads);
  }

  lemma {:induction false} AllAsleep(ts: seq<Thread>)
    requires Sum(ts, Holding) == 0 && forall i | 0 <= i < |ts| && ts[i].Busy? :: ts[i].hand != []
    ensures Sum(ts, Inside) == Sum(ts, Sleeping)
  {
    if ts != [] {
      assert forall i | 0 <= i < |ts| - 1 :: ts[1..][i] == ts[i + 1];
      AllAsleep(ts[1..]);
    }
  }

  /** What IsIdle finds out from its counters: no check is left, none has failed, and nobody is at work. */
  lemma {:induction false} IdleExactly(run: Check -> bool, s: System)
    requires Inv(run, s)
    ensures Idle(s.shared) <==> s.shared.queue == [] && s.shared.fAllOk && forall i | 0 <= i < |s.threads| ::
              !s.threads[i].Busy?
  {
    NobodyBusy(s.threads);
    if s.shared.nTodo == 0 {
      AllAsleep(s.threads);
    }
    if forall i | 0 <= i < |s.threads| :: !s.threads[i].Busy? {
      NothingHeld(s.threads);
    }
  }

  lemma {:induction false} NobodyBusy(ts: seq<Thread>)
    ensures Sum(ts, Sleeping) <= Sum(ts, Inside)
    ensures Sum(ts, Inside) == Sum(ts, Sleeping) ==> forall i | 0 <= i < |ts| :: !ts[i].Busy?
  {
    if ts != [] {
      NobodyBusy(ts[1..]);
      if Sum(ts, Inside) == Sum(ts, Sleeping) {
        assert forall i | 0 < i < |ts| :: ts[i] == ts[1..][i - 1];
      }
    }
  }

  lemma {:induction false} NothingHeld(ts: seq<Thread>)
    requires forall i | 0 <= i < |ts| :: !ts[i].Busy?
    ensures Sum(ts, Holding) == 0 && Sum(ts, Inside) == Sum(ts, Sleeping)
  {
    if ts != [] {
      NothingHeld(ts[1..]);
    }
  }

  // ---------- progress ----------

  /** A thread that will go on without being woken again. */
  ghost predicate Awake(t: Thread) {
    t.Busy? || t == Asleep(true)
  }

  /** No wake-up is lost: while the master waits, some thread is awake. */
  lemma {:induction false} SomebodyIsAwake(run: Check -> bool, s: System) returns (i: nat)
    requires Inv(run, s) && !s.threads[0].Outside?
    ensures i < |s.threads| && Awake(s.threads[i]) && CanMove(run, s, i)
  {
    i := 0;
    if s.threads[0] == Asleep(false) {
      i := SumPositive(s.threads, Holding);
    }
    AnyThreadCanMove(run, s, i);
  }

  ghost function Rank(s: System): nat {
    3 * |s.shared.queue| + Sum(s.threads, Effort)
  }

  /** Every move of a thread that is awake, or that enters, brings the end of Wait nearer. */
  lemma {:induction false} MoveDecreasesRank(run: Check -> bool, nBatchSize: nat, s: System, i: nat)
    requires Inv(run, s) && CanMove(run, s, i) && (Awake(s.threads[i]) || s.threads[i].Outside?)
    requires !Outcome(run, nBatchSize, s, i).1.Returned?
    ensures Rank(Move(run, nBatchSize, s, i)) < Rank(s)
  {
    var ts := Others(run, s, i);
    var t := ThreadAfter(Outcome(run, nBatchSize, s, i).1);
    if ts != s.threads {
      SumUpdate(s.threads, 0, Asleep(true), Effort);
    }
    SumUpdate(ts, i, t, Effort);
    if s.shared.queue != [] {
      assert !s.threads[0].Asleep?;
    }
  }

  /**
   * Wait returns: once the master is inside, no more than Rank moves other than spurious
   * wake-ups are possible before it is out again, and until then one is always possible.
   */
  lemma {:induction false} WaitReturns(run: Check -> bool, nBatchSize: nat, states: seq<System>, moves: seq<nat>)
    requires |states| == |moves| + 1 && Inv(run, states[0])
    requires forall k | 0 <= k < |moves| ::
               && CanMove(run, states[k], moves[k]) && states[k + 1] == Move(run, nBatchSize, states[k], moves[k])
               && (Awake(states[k].threads[moves[k]]) || states[k].threads[moves[k]].Outside?)
               && !Outcome(run, nBatchSize, states[k], moves[k]).1.Returned?
    ensures |moves| + Rank(states[|moves|]) <= Rank(states[0]) && Inv(run, states[|moves|])
    decreases |moves|
  {
    if moves != [] {
      var n := |moves| - 1;
      WaitReturns(run, nBatchSize, states[..|moves|], moves[..n]);
      MoveDecreasesRank(run, nBatchSize, states[n], moves[n]);
      MoveKeepsInv(run, nBatchSize, states[n], moves[n]);
    }
  }
}
