/**
 The reader/writer spin lock as a protocol: any number of threads, each taking one atomic step at a time, in any order.
 */
module SpinLock {

  /** The counter is an unsigned 32-bit integer. */
  const MODULUS: nat := 0x1_0000_0000

  /**
   Where a thread is. A writer claims the flag, then waits for the counter to reach zero. A reader waits for the flag
   to be clear, adds itself to the counter, looks at the flag again and either enters or takes itself off again.
   */
  datatype Place = Outside | Claiming | Draining | Writing | Waiting | Adding | Rechecking | Withdrawing | Reading

  datatype State = State(threads: seq<Place>, readers: nat, isWriting: bool)

  /** A thread outside chooses which lock to take; every other step is determined. */
  datatype Step = Step(thread: nat, exclusive: bool)

  /** The thread is between its increment of the counter and its decrement. */
  predicate Counted(p: Place) {
    p.Rechecking? || p.Withdrawing? || p.Reading?
  }

  /** The thread is between claiming the flag and clearing it. */
  predicate Claimed(p: Place) {
    p.Draining? || p.Writing?
  }

  function Start(n: nat): State {
    State(seq(n, _ => Outside), 0, false)
  }

  function Moved(s: State, t: nat, p: Place): State
    requires t < |s.threads|
  {
    s.(threads := s.threads[t := p])
  }

  function Increment(readers: nat): nat {
    (readers + 1) % MODULUS
  }

  function Decrement(readers: nat): nat {
    (readers + MODULUS - 1) % MODULUS
  }

  function Next(s: State, step: Step): State
    requires step.thread < |s.threads|
  {
    var t := step.thread;
    match s.threads[t]
    case Outside => Moved(s, t, if step.exclusive then Claiming else Waiting)
    case Claiming => if s.isWriting then s else Moved(s, t, Draining).(isWriting := true)
    case Draining => if s.readers > 0 then s else Moved(s, t, Writing)
    case Writing => Moved(s, t, Outside).(isWriting := false)
    case Waiting => if s.isWriting then s else Moved(s, t, Adding)
    case Adding => Moved(s, t, Rechecking).(readers := Increment(s.readers))
    case Rechecking => Moved(s, t, if s.isWriting then Withdrawing else Reading)
    case Withdrawing => Moved(s, t, Waiting).(readers := Decrement(s.readers))
    case Reading => Moved(s, t, Outside).(readers := Decrement(s.readers))
  }

  ghost predicate IsRun(n: nat, steps: seq<Step>) {
    forall i :: 0 <= i < |steps| ==> steps[i].thread < n
  }

  function Reached(n: nat, steps: seq<Step>): (s: State)
    requires IsRun(n, steps)
    ensures |s.threads| == n
  {
    if steps == [] then Start(n) else Next(Reached(n, steps[..|steps| - 1]), steps[|steps| - 1])
  }

  // Counting.

  function Count(ps: seq<Place>): nat {
    if ps == [] then 0 else Count(ps[..|ps| - 1]) + if Counted(ps[|ps| - 1]) then 1 else 0
  }

  lemma {:induction false} CountMoved(ps: seq<Place>, t: nat, p: Place)
    requires t < |ps|
    ensures Count(ps[t := p]) == Count(ps) - (if Counted(ps[t]) then 1 else 0) + if Counted(p) then 1 else 0
  {
    var n := |ps| - 1;
    if t == n {
      assert ps[t := p][..n] == ps[..n];
    } else {
      assert ps[t := p][..n] == ps[..n][t := p];
      CountMoved(ps[..n], t, p);
    }
  }

  lemma {:induction false} CountBounds(ps: seq<Place>, t: nat)
    requires t < |ps|
    ensures Counted(ps[t]) ==> Count(ps) > 0
    ensures !Counted(ps[t]) ==> Count(ps) < |ps|
  {
    var n := |ps| - 1;
    if t < n {
      CountBounds(ps[..n], t);
    }
    CountAtMost(ps[..n]);
  }

  lemma {:induction false} CountAtMost(ps: seq<Place>)
    ensures Count(ps) <= |ps|
  {
    if ps != [] {
      CountAtMost(ps[..|ps| - 1]);
    }
  }

  // The invariant.

  ghost predicate Counts(s: State) {
    s.readers == Count(s.threads) % MODULUS
  }

  /** The flag is set exactly while one thread, and only one, has claimed it. */
  ghost predicate OneClaim(s: State) {
    && (forall i, j :: 0 <= i < j < |s.threads| ==> !(Claimed(s.threads[i]) && Claimed(s.threads[j])))
    && (s.isWriting <==> exists i :: 0 <= i < |s.threads| && Claimed(s.threads[i]))
  }

  /** While a writer is inside, no reader is. */
  ghost predicate NoReader(s: State) {
    forall i, j :: 0 <= i < |s.threads| && 0 <= j < |s.threads| && s.threads[i].Writing? ==> !s.threads[j].Reading?
  }

  ghost predicate Safe(s: State) {
    Counts(s) && OneClaim(s) && NoReader(s)
  }

  lemma Wrapped(c: nat)
    ensures Increment(c % MODULUS) == (c + 1) % MODULUS
    ensures Decrement((c + 1) % MODULUS) == c % MODULUS
  {
    var r := c % MODULUS;
    assert r == MODULUS - 1 ==> (c + 1) % MODULUS == 0;
    assert r < MODULUS - 1 ==> (c + 1) % MODULUS == r + 1;
  }

  /** A move between two places that are both counted, or both not, leaves the count. */
  lemma CountSame(s: State, t: nat, p: Place)
    requires t < |s.threads| && Counts(s) && Counted(p) == Counted(s.threads[t])
    ensures Counts(Moved(s, t, p))
  {
    CountMoved(s.threads, t, p);
  }

  lemma StepCounts(s: State, step: Step)
    requires step.thread < |s.threads| && Counts(s)
    ensures Counts(Next(s, step))
  {
    var t, ps := step.thread, s.threads;
    match ps[t]
    case Adding =>
      CountMoved(ps, t, Rechecking);
      Wrapped(Count(ps));
    case Withdrawing =>
      CountMoved(ps, t, Waiting);
      CountBounds(ps, t);
      Wrapped(Count(ps) - 1);
    case Reading =>
      CountMoved(ps, t, Outside);
      CountBounds(ps, t);
      Wrapped(Count(ps) - 1);
    case _ =>
      if Next(s, step).threads != ps {
        CountSame(s, t, Next(s, step).threads[t]);
      }
  }

  lemma StepOneClaim(s: State, step: Step)
    requires step.thread < |s.threads| && OneClaim(s)
    ensures OneClaim(Next(s, step))
  {
    var t, after := step.thread, Next(s, step);
    if s.threads[t].Claiming? && !s.isWriting {
      assert Claimed(after.threads[t]);
    } else if s.threads[t].Writing? {
      forall i | 0 <= i < |after.threads| ensures !Claimed(after.threads[i]) {
        assert i != t ==> !Claimed(s.threads[i]);
      }
    } else if s.isWriting {
      var i :| 0 <= i < |s.threads| && Claimed(s.threads[i]);
      assert Claimed(after.threads[i]);
    }
  }

  /** A writer that sees the counter at zero sees no reader, because it is itself not one of them. */
  lemma StepNoReader(s: State, step: Step)
    requires step.thread < |s.threads| && Safe(s) && |s.threads| <= MODULUS
    ensures NoReader(Next(s, step))
  {
    var t, after := step.thread, Next(s, step);
    CountBounds(s.threads, t);
    forall i, j | 0 <= i < |after.threads| && 0 <= j < |after.threads| && after.threads[i].Writing?
      ensures !after.threads[j].Reading?
    {
      if i == t && s.threads[t].Draining? {
        CountBounds(s.threads, j);
      } else if j == t {
        assert Claimed(s.threads[i]);
      }
    }
  }

  /** No run of at most 2^32 threads lets a writer in with anyone else. */
  lemma {:induction false} RunIsSafe(n: nat, steps: seq<Step>)
    requires IsRun(n, steps) && n <= MODULUS
    ensures Safe(Reached(n, steps))
  {
    if steps == [] {
      StartIsSafe(n);
    } else {
      var before, last := steps[..|steps| - 1], steps[|steps| - 1];
      RunIsSafe(n, before);
      StepCounts(Reached(n, before), last);
      StepOneClaim(Reached(n, before), last);
      StepNoReader(Reached(n, before), last);
    }
  }

  lemma {:induction false} CountOutside(ps: seq<Place>)
    requires forall i :: 0 <= i < |ps| ==> !Counted(ps[i])
    ensures Count(ps) == 0
  {
    if ps != [] {
      CountOutside(ps[..|ps| - 1]);
    }
  }

  lemma StartIsSafe(n: nat)
    ensures Safe(Start(n))
  {
    CountOutside(Start(n).threads);
  }

  /** Two threads are inside together, one of them to write. */
  ghost predicate Clash(s: State) {
    exists i, j :: 0 <= i < |s.threads| && 0 <= j < |s.threads| && i != j
                   && s.threads[i].Writing? && (s.threads[j].Writing? || s.threads[j].Reading?)
  }

  lemma SafeMeansNoClash(s: State)
    requires Safe(s)
    ensures !Clash(s)
  {
  }

  /** For fewer than 2^32 threads the counter is the number of threads between increment and decrement. */
  lemma CounterIsExact(n: nat, steps: seq<Step>)
    requires IsRun(n, steps) && n < MODULUS
    ensures Reached(n, steps).readers == Count(Reached(n, steps).threads)
  {
    RunIsSafe(n, steps);
    CountAtMost(Reached(n, steps).threads);
  }

  /** Once every thread has left, the lock is as new. */
  lemma ReleasedLockIsFree(n: nat, steps: seq<Step>)
    requires IsRun(n, steps) && n <= MODULUS
    requires forall i :: 0 <= i < n ==> Reached(n, steps).threads[i].Outside?
    ensures Reached(n, steps) == Start(n)
  {
    RunIsSafe(n, steps);
    CountOutside(Reached(n, steps).threads);
    assert Reached(n, steps).threads == Start(n).threads;
  }

  // A writer that has claimed the flag gets in.

  /** How many steps of its own a thread can take, while the flag is set, before it is off the counter for good. */
  function Left(p: Place): nat {
    match p
    case Adding => 3
    case Rechecking => 2
    case Withdrawing => 1
    case Reading => 1
    case _ => 0
  }

  function AllLeft(ps: seq<Place>): nat {
    if ps == [] then 0 else AllLeft(ps[..|ps| - 1]) + Left(ps[|ps| - 1])
  }

  lemma {:induction false} AllLeftMoved(ps: seq<Place>, t: nat, p: Place)
    requires t < |ps|
    ensures AllLeft(ps[t := p]) == AllLeft(ps) - Left(ps[t]) + Left(p)
  {
    var n := |ps| - 1;
    if t == n {
      assert ps[t := p][..n] == ps[..n];
    } else {
      assert ps[t := p][..n] == ps[..n][t := p];
      AllLeftMoved(ps[..n], t, p);
    }
  }

  lemma {:induction false} CountedIsLeft(ps: seq<Place>)
    ensures Count(ps) <= AllLeft(ps) <= 3 * |ps|
  {
    if ps != [] {
      CountedIsLeft(ps[..|ps| - 1]);
    }
  }

  /** Thread `w` waits for the counter to reach zero. */
  ghost predicate Drains(s: State, w: nat) {
    w < |s.threads| && s.threads[w].Draining? && s.isWriting && OneClaim(s)
  }

  /** No step of another thread lets more readers in, and every step of one that is on its way takes it further out. */
  lemma StepDrains(s: State, step: Step, w: nat)
    requires Drains(s, w) && step.thread < |s.threads| && step.thread != w
    ensures var after := Next(s, step);
            && Drains(after, w) && |after.threads| == |s.threads|
            && AllLeft(after.threads) == AllLeft(s.threads) - if Left(s.threads[step.thread]) > 0 then 1 else 0
  {
    var t, after := step.thread, Next(s, step);
    StepOneClaim(s, step);
    if after.threads != s.threads {
      AllLeftMoved(s.threads, t, after.threads[t]);
    }
  }

  function Onward(s: State, steps: seq<Step>): (r: State)
    requires forall i :: 0 <= i < |steps| ==> steps[i].thread < |s.threads|
    ensures |r.threads| == |s.threads|
  {
    if steps == [] then s else Next(Onward(s, steps[..|steps| - 1]), steps[|steps| - 1])
  }

  /** How many of the steps are taken by threads that are on the counter or about to be. */
  function Outgoing(s: State, steps: seq<Step>): nat
    requires forall i :: 0 <= i < |steps| ==> steps[i].thread < |s.threads|
  {
    if steps == [] then 0
    else
      var before, last := steps[..|steps| - 1], steps[|steps| - 1];
      Outgoing(s, before) + if Left(Onward(s, before).threads[last.thread]) > 0 then 1 else 0
  }

  /** A draining writer waits for at most three steps of each other thread, however many come to read meanwhile. */
  lemma {:induction false} RunDrains(s: State, steps: seq<Step>, w: nat)
    requires Drains(s, w)
    requires forall i :: 0 <= i < |steps| ==> steps[i].thread < |s.threads| && steps[i].thread != w
    ensures Drains(Onward(s, steps), w)
    ensures Outgoing(s, steps) + AllLeft(Onward(s, steps).threads) == AllLeft(s.threads) <= 3 * |s.threads|
  {
    if steps == [] {
      CountedIsLeft(s.threads);
    } else {
      var before, last := steps[..|steps| - 1], steps[|steps| - 1];
      RunDrains(s, before, w);
      StepDrains(Onward(s, before), last, w);
    }
  }

  /** When they are all out, its next step takes the writer in. */
  lemma DrainedWriterEnters(s: State, w: nat, exclusive: bool)
    requires Drains(s, w) && Counts(s) && AllLeft(s.threads) == 0
    ensures Next(s, Step(w, exclusive)).threads[w].Writing?
  {
    CountedIsLeft(s.threads);
  }

  /** A thread that has come for the lock goes away only after it has been inside. */
  lemma LeavesFromInside(s: State, step: Step, t: nat)
    requires step.thread < |s.threads| && t < |s.threads|
    requires Next(s, step).threads[t].Outside? && !s.threads[t].Outside?
    ensures t == step.thread && (s.threads[t].Reading? || s.threads[t].Writing?)
  {
  }

  // More than 2^32 threads.

  /** The first `k` threads are reading and the others are outside. */
  ghost predicate Crowd(s: State, k: nat) {
    && k <= |s.threads| && !s.isWriting && s.readers == k % MODULUS
    && forall i :: 0 <= i < |s.threads| ==> s.threads[i] == if i < k then Reading else Outside
  }

  lemma Extend(n: nat, steps: seq<Step>, step: Step)
    requires IsRun(n, steps) && step.thread < n
    ensures IsRun(n, steps + [step]) && Reached(n, steps + [step]) == Next(Reached(n, steps), step)
  {
    assert (steps + [step])[..|steps|] == steps;
  }

  /** The four steps by which one more thread comes to read. */
  function Enter(s: State, step: Step): State
    requires step.thread < |s.threads|
  {
    Next(Next(Next(Next(s, step), step), step), step)
  }

  lemma Enters(n: nat, steps: seq<Step>, enter: Step) returns (after: seq<Step>)
    requires IsRun(n, steps) && enter.thread < n
    ensures IsRun(n, after) && Reached(n, after) == Enter(Reached(n, steps), enter)
  {
    Extend(n, steps, enter);
    var one := steps + [enter];
    Extend(n, one, enter);
    var two := one + [enter];
    Extend(n, two, enter);
    var three := two + [enter];
    Extend(n, three, enter);
    return three + [enter];
  }

  lemma CrowdGrows(s: State, k: nat)
    requires k < |s.threads| && Crowd(s, k)
    ensures Crowd(Enter(s, Step(k, false)), k + 1)
  {
    Wrapped(k);
    var one := Next(s, Step(k, false));
    assert one == Moved(s, k, Waiting);
    var two := Next(one, Step(k, false));
    assert two == Moved(s, k, Adding);
    var three := Next(two, Step(k, false));
    assert three == Moved(s, k, Rechecking).(readers := Increment(s.readers));
  }

  lemma {:induction false} CrowdForms(n: nat, k: nat) returns (steps: seq<Step>)
    requires k <= n
    ensures IsRun(n, steps) && Crowd(Reached(n, steps), k)
  {
    if k == 0 {
      return [];
    }
    steps := CrowdForms(n, k - 1);
    var enter := Step(k - 1, false);
    CrowdGrows(Reached(n, steps), k - 1);
    steps := Enters(n, steps, enter);
  }

  /** 2^32 readers wrap the counter to zero, and the next thread writes among them. */
  lemma WrapLetsWriterIn(n: nat) returns (steps: seq<Step>)
    requires n > MODULUS
    ensures IsRun(n, steps) && Clash(Reached(n, steps))
  {
    steps := CrowdForms(n, MODULUS);
    var claim := Step(MODULUS, true);
    Extend(n, steps, claim);
    Extend(n, steps + [claim], claim);
    Extend(n, steps + [claim] + [claim], claim);
    steps := steps + [claim] + [claim] + [claim];
    assert Reached(n, steps).threads[MODULUS].Writing? && Reached(n, steps).threads[0].Reading?;
  }

  /** The lock excludes, in every run, exactly for up to 2^32 threads. */
  lemma ExcludesIff(n: nat)
    ensures (forall steps :: IsRun(n, steps) ==> !Clash(Reached(n, steps))) <==> n <= MODULUS
  {
    if n <= MODULUS {
      forall steps | IsRun(n, steps) ensures !Clash(Reached(n, steps)) {
        RunIsSafe(n, steps);
        SafeMeansNoClash(Reached(n, steps));
      }
    } else {
      var steps := WrapLetsWriterIn(n);
    }
  }
}
