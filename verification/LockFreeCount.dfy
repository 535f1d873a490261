/**
 * How far the record count can overshoot without a lock (audit_record.c). The test `count < CAP` and
 * the increment are separate steps, and a plain `count++` is itself a load and a store.
 */
module LockFreeCount {
  import opened Core
  import opened LockFreeRing

  /** Past the test, but not yet counted. */
  predicate Busy(w: Writer) {
    w.Counting? || w.Loaded?
  }

  function BusyCount(ws: seq<Writer>): (n: nat)
    ensures n <= |ws|
  {
    if ws == [] then 0 else (if Busy(ws[0]) then 1 else 0) + BusyCount(ws[1..])
  }

  lemma {:induction false} BusyUpdate(ws: seq<Writer>, i: nat, w: Writer)
    requires i < |ws|
    ensures BusyCount(ws[i := w]) + (if Busy(ws[i]) then 1 else 0) == BusyCount(ws) + (if Busy(w) then 1 else 0)
  {
    if i == 0 {
      assert ws[i := w][1..] == ws[1..];
    } else {
      assert ws[i := w][1..] == ws[1..][i - 1 := w];
      BusyUpdate(ws[1..], i - 1, w);
    }
  }

  lemma {:induction false} IdleIsNotBusy(n: nat)
    ensures BusyCount(seq(n, _ => Idle)) == 0
  {
    if n > 0 {
      assert seq(n, _ => Idle)[1..] == seq(n - 1, _ => Idle);
      IdleIsNotBusy(n - 1);
    }
  }

  // ---- invariants --------------------------------------------------------------------------------

  ghost predicate AtomicInv(cap: nat, count: nat, ws: seq<Writer>) {
    && count + BusyCount(ws) <= cap + |ws| - 1
    && forall i :: 0 <= i < |ws| ==> !ws[i].Loaded?
  }

  /** With one slot nobody passes the test again after the first store. */
  ghost predicate OneSlotInv(count: nat, ws: seq<Writer>) {
    && count + BusyCount(ws) <= |ws|
    && forall i :: 0 <= i < |ws| && ws[i].Loaded? ==>
         ws[i].seen + BusyCount(ws) <= |ws| && (count == 0 ==> ws[i].seen == 0)
  }

  predicate OneWriterInv(cap: nat, count: nat, w: Writer) {
    && count <= cap
    && (w.Counting? ==> count < cap)
    && (w.Loaded? ==> w.seen < cap)
  }

  /** A stale load can push the count back, but then it is small itself. */
  predicate TwoWritersInv(cap: nat, count: nat, v: Writer, w: Writer) {
    && count <= cap + 1
    && (v.Counting? || w.Counting? ==> count <= cap)
    && (v.Loaded? ==> v.seen <= cap && (v.seen == cap ==> count >= cap))
    && (w.Loaded? ==> w.seen <= cap && (w.seen == cap ==> count >= cap))
    && (Busy(v) && Busy(w) ==> count < cap && (v.Loaded? ==> v.seen < cap) && (w.Loaded? ==> w.seen < cap))
  }

  /** Modes in which the count stays below CAP + N. */
  predicate Bounded(cap: nat, atomic: bool, writers: nat) {
    atomic || cap == 1 || writers <= 2
  }

  ghost predicate CountInv(cap: nat, atomic: bool, count: nat, ws: seq<Writer>) {
    if atomic then AtomicInv(cap, count, ws)
    else if cap == 1 then OneSlotInv(count, ws)
    else if |ws| == 0 then count == 0
    else if |ws| == 1 then OneWriterInv(cap, count, ws[0])
    else |ws| == 2 && TwoWritersInv(cap, count, ws[0], ws[1])
  }

  lemma AtomicStep(cap: nat, s: State, i: nat, rec: Record)
    requires cap > 0 && i < |s.writers| && AtomicInv(cap, s.count, s.writers)
    ensures var s' := WriterStep(cap, true, s, i, rec); AtomicInv(cap, s'.count, s'.writers)
  {
    BusyUpdate(s.writers, i, WriterStep(cap, true, s, i, rec).writers[i]);
    if s.writers[i].Checking? && s.count < cap {
      assert BusyCount(s.writers[i := Counting]) <= |s.writers|;
    }
  }

  /** What one plain step does to the count and to its writer. */
  function Moved(count: nat, w: Writer): (nat, Writer) {
    match w
    case Checking => (count, if count < 1 then Counting else Idle)
    case Counting => (count, Loaded(count))
    case Loaded(seen) => (seen + 1, Idle)
    case _ => (count, Checking)
  }

  lemma OneSlotMoves(s: State, i: nat, rec: Record)
    requires i < |s.writers|
    ensures var s' := WriterStep(1, false, s, i, rec);
            && s'.writers == s.writers[i := s'.writers[i]]
            && ((s'.count, s'.writers[i]) == Moved(s.count, s.writers[i])
                || (s'.count == s.count && !Busy(s.writers[i]) && !Busy(s'.writers[i])))
  {
  }

  lemma OneSlotUpdate(count: nat, ws: seq<Writer>, i: nat, count': nat, w: Writer)
    requires i < |ws| && OneSlotInv(count, ws)
    requires (count', w) == Moved(count, ws[i]) || (count' == count && !Busy(ws[i]) && !Busy(w))
    ensures OneSlotInv(count', ws[i := w])
  {
    BusyUpdate(ws, i, w);
    if ws[i].Checking? && count == 0 {
      assert BusyCount(ws[i := w]) <= |ws|;
    }
  }

  lemma OneSlotStep(s: State, i: nat, rec: Record)
    requires i < |s.writers| && OneSlotInv(s.count, s.writers)
    ensures var s' := WriterStep(1, false, s, i, rec); OneSlotInv(s'.count, s'.writers)
  {
    OneSlotMoves(s, i, rec);
    var s' := WriterStep(1, false, s, i, rec);
    OneSlotUpdate(s.count, s.writers, i, s'.count, s'.writers[i]);
  }

  lemma WriterKeepsCount(cap: nat, atomic: bool, s: State, i: nat, rec: Record)
    requires cap > 0 && i < |s.writers| && CountInv(cap, atomic, s.count, s.writers)
    ensures var s' := WriterStep(cap, atomic, s, i, rec); CountInv(cap, atomic, s'.count, s'.writers)
  {
    if atomic {
      AtomicStep(cap, s, i, rec);
    } else if cap == 1 {
      OneSlotStep(s, i, rec);
    }
  }

  lemma StepKeepsCount(cap: nat, blank: Record, atomic: bool, s: State, t: Turn)
    requires cap > 0 && CountInv(cap, atomic, s.count, s.writers)
    ensures var s' := Step(cap, blank, atomic, s, t);
            |s'.writers| == |s.writers| && CountInv(cap, atomic, s'.count, s'.writers)
  {
    if t.Write? && t.i < |s.writers| {
      WriterKeepsCount(cap, atomic, s, t.i, t.rec);
    }
  }

  lemma {:induction false} PlayKeepsCount(cap: nat, blank: Record, atomic: bool, s: State, turns: seq<Turn>)
    requires cap > 0 && CountInv(cap, atomic, s.count, s.writers)
    ensures var s' := Play(cap, blank, atomic, s, turns);
            |s'.writers| == |s.writers| && CountInv(cap, atomic, s'.count, s'.writers)
    decreases |turns|
  {
    if turns != [] {
      StepKeepsCount(cap, blank, atomic, s, turns[0]);
      PlayKeepsCount(cap, blank, atomic, Step(cap, blank, atomic, s, turns[0]), turns[1..]);
    }
  }

  /** The count never exceeds CAP + N - 1 when the increment is one step, or with one slot or two writers. */
  lemma CountIsBounded(cap: nat, blank: Record, atomic: bool, writers: nat, readers: nat, turns: seq<Turn>)
    requires cap > 0 && Bounded(cap, atomic, writers)
    ensures Play(cap, blank, atomic, Init(cap, blank, writers, readers), turns).count <= cap + writers - 1
  {
    IdleIsNotBusy(writers);
    PlayKeepsCount(cap, blank, atomic, Init(cap, blank, writers, readers), turns);
  }

  // ---- reachable counts ---------------------------------------------------------------------------

  /** Some run leads to this count with the writers at these points. */
  ghost predicate Reach(cap: nat, blank: Record, atomic: bool, readers: nat, count: nat, ws: seq<Writer>)
    requires cap > 0
  {
    exists turns :: var s := Play(cap, blank, atomic, Init(cap, blank, |ws|, readers), turns);
                    s.count == count && s.writers == ws
  }

  lemma Reached(cap: nat, blank: Record, atomic: bool, readers: nat, turns: seq<Turn>, s: State)
    requires cap > 0 && s == Play(cap, blank, atomic, Init(cap, blank, |s.writers|, readers), turns)
    ensures Reach(cap, blank, atomic, readers, s.count, s.writers)
  {
  }

  lemma ReachInit(cap: nat, blank: Record, atomic: bool, readers: nat, n: nat)
    requires cap > 0
    ensures Reach(cap, blank, atomic, readers, 0, seq(n, _ => Idle))
  {
    var init := Init(cap, blank, n, readers);
    Reached(cap, blank, atomic, readers, [], init);
    assert init.writers == seq(n, _ => Idle);
  }

  /** Adds one turn of writer `i` to a run. */
  lemma ReachTurn(cap: nat, blank: Record, atomic: bool, readers: nat, count: nat, ws: seq<Writer>, i: nat)
    requires cap > 0 && i < |ws| && Reach(cap, blank, atomic, readers, count, ws)
    requires ws[i].Counting? || ws[i].Loaded?
    ensures ws[i].Loaded? ==> Reach(cap, blank, atomic, readers, ws[i].seen + 1, ws[i := Idle])
    ensures ws[i].Counting? && atomic ==> Reach(cap, blank, atomic, readers, count + 1, ws[i := Idle])
    ensures ws[i].Counting? && !atomic ==> Reach(cap, blank, atomic, readers, count, ws[i := Loaded(count)])
  {
    var init := Init(cap, blank, |ws|, readers);
    var turns :| var s := Play(cap, blank, atomic, init, turns); s.count == count && s.writers == ws;
    var s := Play(cap, blank, atomic, init, turns);
    var turn := Write(i, blank);
    PlayAppend(cap, blank, atomic, init, turns, [turn]);
    PlayTurns(cap, blank, atomic, s, turn);
    assert Play(cap, blank, atomic, init, turns + [turn]) == Step(cap, blank, atomic, s, turn);
  }

  lemma ReachPass(cap: nat, blank: Record, atomic: bool, readers: nat, count: nat, ws: seq<Writer>, i: nat)
    requires cap > 0 && i < |ws| && Reach(cap, blank, atomic, readers, count, ws) && ws[i].Idle? && count < cap
    ensures Reach(cap, blank, atomic, readers, count, ws[i := Counting])
  {
    var init := Init(cap, blank, |ws|, readers);
    var turns :| var s := Play(cap, blank, atomic, init, turns); s.count == count && s.writers == ws;
    var s := Play(cap, blank, atomic, init, turns);
    PlayKeepsSafe(cap, blank, atomic, init, turns);
    var store := StoreAlone(cap, blank, atomic, s, i, blank);
    var s1 := Play(cap, blank, atomic, s, store);
    var turn := Write(i, blank);
    PlayTurns(cap, blank, atomic, s1, turn);
    PlayAppend(cap, blank, atomic, s, store, [turn]);
    PlayAppend(cap, blank, atomic, init, turns, store + [turn]);
    assert ws[i := Checking][i := Counting] == ws[i := Counting];
    assert Play(cap, blank, atomic, init, turns + (store + [turn])) == Step(cap, blank, atomic, s1, turn);
  }

  /** A writer past the test finishes undisturbed. */
  lemma ReachFinish(cap: nat, blank: Record, atomic: bool, readers: nat, count: nat, ws: seq<Writer>, i: nat)
    requires cap > 0 && i < |ws| && Reach(cap, blank, atomic, readers, count, ws) && ws[i].Counting?
    ensures Reach(cap, blank, atomic, readers, count + 1, ws[i := Idle])
  {
    ReachTurn(cap, blank, atomic, readers, count, ws, i);
    if !atomic {
      ReachTurn(cap, blank, atomic, readers, count, ws[i := Loaded(count)], i);
      assert ws[i := Loaded(count)][i := Idle] == ws[i := Idle];
    }
  }

  /** One idle writer can fill the ring up to any level. */
  lemma {:induction false} ReachFill(cap: nat, blank: Record, atomic: bool, readers: nat, count: nat, ws: seq<Writer>,
                                    i: nat, target: nat)
    requires cap > 0 && i < |ws| && Reach(cap, blank, atomic, readers, count, ws) && ws[i].Idle?
    requires count <= target <= cap
    ensures Reach(cap, blank, atomic, readers, target, ws)
    decreases target - count
  {
    if count < target {
      ReachPass(cap, blank, atomic, readers, count, ws, i);
      ReachFinish(cap, blank, atomic, readers, count, ws[i := Counting], i);
      assert ws[i := Counting][i := Idle] == ws;
      ReachFill(cap, blank, atomic, readers, count + 1, ws, i, target);
    }
  }

  // ---- a crowd of writers ----------------------------------------------------------------------------

  /** Some writers in front, then `k` that have passed the test, then `m` idle ones. */
  function Line(front: seq<Writer>, k: nat, m: nat): seq<Writer> {
    front + seq(k, _ => Counting) + seq(m, _ => Idle)
  }

  lemma {:induction false} CrowdPasses(cap: nat, blank: Record, atomic: bool, readers: nat, count: nat,
                                      front: seq<Writer>, k: nat, m: nat)
    requires cap > 0 && count < cap && Reach(cap, blank, atomic, readers, count, Line(front, k, m))
    ensures Reach(cap, blank, atomic, readers, count, Line(front, k + m, 0))
    decreases m
  {
    if m > 0 {
      ReachPass(cap, blank, atomic, readers, count, Line(front, k, m), |front| + k);
      assert Line(front, k, m)[|front| + k := Counting] == Line(front, k + 1, m - 1);
      CrowdPasses(cap, blank, atomic, readers, count, front, k + 1, m - 1);
    }
  }

  lemma {:induction false} CrowdFinishes(cap: nat, blank: Record, atomic: bool, readers: nat, count: nat,
                                        front: seq<Writer>, k: nat, m: nat)
    requires cap > 0 && Reach(cap, blank, atomic, readers, count, Line(front, k, m))
    ensures Reach(cap, blank, atomic, readers, count + k, Line(front, 0, m + k))
    decreases k
  {
    if k > 0 {
      ReachFinish(cap, blank, atomic, readers, count, Line(front, k, m), |front| + k - 1);
      assert Line(front, k, m)[|front| + k - 1 := Idle] == Line(front, k - 1, m + 1);
      CrowdFinishes(cap, blank, atomic, readers, count + 1, front, k - 1, m + 1);
    }
  }

  /** CAP + N - 1 is reached: all writers pass the test while one place is left. */
  lemma BoundIsReached(cap: nat, blank: Record, atomic: bool, writers: nat, readers: nat)
    requires cap > 0 && writers > 0
    ensures Reach(cap, blank, atomic, readers, cap + writers - 1, Line([], 0, writers))
  {
    ReachInit(cap, blank, atomic, readers, writers);
    assert seq(writers, _ => Idle) == Line([], 0, writers);
    ReachFill(cap, blank, atomic, readers, 0, Line([], 0, writers), 0, cap - 1);
    CrowdPasses(cap, blank, atomic, readers, cap - 1, [], 0, writers);
    CrowdFinishes(cap, blank, atomic, readers, cap - 1, [], writers, 0);
  }

  // ---- plain increments overshoot further --------------------------------------------------------------

  /** One writer holds a stale count of 0 while the others fill the ring and crowd past the test. */
  lemma FirstWave(cap: nat, blank: Record, readers: nat, m: nat)
    requires cap >= 2
    ensures Reach(cap, blank, false, readers, cap - 1 + m, Line([Loaded(0), Counting], 0, m))
  {
    ReachInit(cap, blank, false, readers, m + 2);
    assert seq(m + 2, _ => Idle) == Line([Idle, Idle], 0, m);
    ReachPass(cap, blank, false, readers, 0, Line([Idle, Idle], 0, m), 0);
    assert Line([Idle, Idle], 0, m)[0 := Counting] == Line([Counting, Idle], 0, m);
    ReachTurn(cap, blank, false, readers, 0, Line([Counting, Idle], 0, m), 0);
    assert Line([Counting, Idle], 0, m)[0 := Loaded(0)] == Line([Loaded(0), Idle], 0, m);
    ReachFill(cap, blank, false, readers, 0, Line([Loaded(0), Idle], 0, m), 1, cap - 1);
    ReachPass(cap, blank, false, readers, cap - 1, Line([Loaded(0), Idle], 0, m), 1);
    assert Line([Loaded(0), Idle], 0, m)[1 := Counting] == Line([Loaded(0), Counting], 0, m);
    CrowdPasses(cap, blank, false, readers, cap - 1, [Loaded(0), Counting], 0, m);
    CrowdFinishes(cap, blank, false, readers, cap - 1, [Loaded(0), Counting], m, 0);
  }

  /** The stale store resets the count to 1, the crowd passes again, and the high count comes back. */
  lemma SecondWave(cap: nat, blank: Record, readers: nat, m: nat, high: nat)
    requires cap >= 2 && Reach(cap, blank, false, readers, high, Line([Loaded(0), Counting], 0, m))
    ensures Reach(cap, blank, false, readers, high + m + 2, Line([Idle, Idle], 0, m))
  {
    ReachTurn(cap, blank, false, readers, high, Line([Loaded(0), Counting], 0, m), 1);
    assert Line([Loaded(0), Counting], 0, m)[1 := Loaded(high)] == Line([Loaded(0), Loaded(high)], 0, m);
    ReachTurn(cap, blank, false, readers, high, Line([Loaded(0), Loaded(high)], 0, m), 0);
    assert Line([Loaded(0), Loaded(high)], 0, m)[0 := Idle] == Line([Idle, Loaded(high)], 0, m);
    ReachPass(cap, blank, false, readers, 1, Line([Idle, Loaded(high)], 0, m), 0);
    assert Line([Idle, Loaded(high)], 0, m)[0 := Counting] == Line([Counting, Loaded(high)], 0, m);
    CrowdPasses(cap, blank, false, readers, 1, [Counting, Loaded(high)], 0, m);
    ReachTurn(cap, blank, false, readers, 1, Line([Counting, Loaded(high)], m, 0), 1);
    assert Line([Counting, Loaded(high)], m, 0)[1 := Idle] == Line([Counting, Idle], m, 0);
    CrowdFinishes(cap, blank, false, readers, high + 1, [Counting, Idle], m, 0);
    ReachFinish(cap, blank, false, readers, high + 1 + m, Line([Counting, Idle], 0, m), 0);
    assert Line([Counting, Idle], 0, m)[0 := Idle] == Line([Idle, Idle], 0, m);
  }

  ghost predicate NeverBeyond(cap: nat, blank: Record, atomic: bool, writers: nat, readers: nat)
    requires cap > 0
  {
    forall turns :: Play(cap, blank, atomic, Init(cap, blank, writers, readers), turns).count <= cap + writers - 1
  }

  /**
   * The bound CAP + N - 1 holds over all interleavings exactly when the increment is one atomic step,
   * or the ring has a single slot, or at most two backends write. Otherwise at least CAP + 2N - 3 is reached.
   */
  lemma BoundHoldsIff(cap: nat, blank: Record, atomic: bool, writers: nat, readers: nat)
    requires cap > 0
    ensures NeverBeyond(cap, blank, atomic, writers, readers) <==> atomic || cap == 1 || writers <= 2
    ensures !NeverBeyond(cap, blank, atomic, writers, readers) ==>
              Reach(cap, blank, atomic, readers, cap + 2 * writers - 3, seq(writers, _ => Idle))
  {
    if Bounded(cap, atomic, writers) {
      forall turns
        ensures Play(cap, blank, atomic, Init(cap, blank, writers, readers), turns).count <= cap + writers - 1
      {
        CountIsBounded(cap, blank, atomic, writers, readers, turns);
      }
    } else {
      var m := writers - 2;
      FirstWave(cap, blank, readers, m);
      SecondWave(cap, blank, readers, m, cap - 1 + m);
      assert Line([Idle, Idle], 0, m) == seq(writers, _ => Idle);
      var turns :| var s := Play(cap, blank, false, Init(cap, blank, writers, readers), turns);
                   s.count == cap + 2 * writers - 3;
      assert !(Play(cap, blank, atomic, Init(cap, blank, writers, readers), turns).count <= cap + writers - 1);
    }
  }
}
