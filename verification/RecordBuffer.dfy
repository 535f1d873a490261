/** The shared ring of audit records, written one call at a time (audit_record.c). */
module RecordBuffer {
  import opened Core

  /** What a full read of a ring with `cap` slots must show: the last `cap` records, oldest first. */
  function Window(history: seq<Record>, cap: nat): seq<Record> {
    if |history| <= cap then history else history[|history| - cap..]
  }

  lemma WrapAround(x: nat, cap: nat)
    requires 0 < cap && x < 2 * cap
    ensures x % cap == if x < cap then x else x - cap
  {
    if x >= cap {
      assert x == cap + (x - cap);
    }
  }

  /** The i-th oldest record once the ring is full. */
  function Oldest(slots: seq<Record>, head: nat, i: nat): Record
    requires head < |slots| && i < |slots|
  {
    if head + i < |slots| then slots[head + i] else slots[head + i - |slots|]
  }

  /** The ring stands for a history: its first records while it fills, its last ones afterwards. */
  ghost predicate Represents(head: nat, count: nat, slots: seq<Record>, history: seq<Record>) {
    var cap := |slots|;
    && head < cap
    && (|history| < cap ==>
          head == count == |history| && forall i :: 0 <= i < count ==> slots[i] == history[i])
    && (|history| >= cap ==>
          count == cap
          && forall i :: 0 <= i < cap ==> Oldest(slots, head, i) == history[|history| - cap + i])
  }

  function NextCount(count: nat, cap: nat): nat {
    if count < cap then count + 1 else count
  }

  /** Storing at the head, moving it and counting extends the history, also where the ring becomes full or wraps. */
  lemma WriteExtends(head: nat, count: nat, slots: seq<Record>, history: seq<Record>, rec: Record)
    requires Represents(head, count, slots, history)
    ensures Represents((head + 1) % |slots|, NextCount(count, |slots|), slots[head := rec], history + [rec])
  {
    var cap, slots', history' := |slots|, slots[head := rec], history + [rec];
    WrapAround(head + 1, cap);
    var head' := (head + 1) % cap;
    forall i | 0 <= i < cap && |history'| >= cap
      ensures Oldest(slots', head', i) == history'[|history'| - cap + i]
    {
      if i < cap - 1 && count == cap {
        assert Oldest(slots, head, i + 1) == history[|history| - cap + (i + 1)];
      }
    }
  }

  /** What the query loop reads at step `n` is record `n` of the window. */
  lemma ReadsWindow(head: nat, count: nat, slots: seq<Record>, history: seq<Record>, n: nat)
    requires Represents(head, count, slots, history) && n < count
    ensures var start := if count < |slots| then 0 else head;
            && (start + n) % |slots| < |slots| && n < |Window(history, |slots|)|
            && slots[(start + n) % |slots|] == Window(history, |slots|)[n]
  {
    var cap := |slots|;
    WrapAround((if count < cap then 0 else head) + n, cap);
    if count == cap {
      assert Oldest(slots, head, n) == history[|history| - cap + n];
    }
  }

  class Ring {
    const slots: array<Record>
    var head: nat
    var count: nat
    ghost var history: seq<Record>  // every record ever written

    ghost predicate Valid()
      reads this, slots
    {
      Represents(head, count, slots[..], history)
    }

    constructor (cap: nat, blank: Record)
      requires cap > 0
      ensures Valid() && history == [] && slots.Length == cap && fresh(slots)
    {
      slots := new Record[cap](_ => blank);
      head, count, history := 0, 0, [];
    }

    method Write(stmtType: string, objectName: Option<string>, ruleId: string, level: Level)
      requires Valid()
      modifies this, slots
      ensures Valid()
      ensures history == old(history) + [MakeRecord(stmtType, objectName, ruleId, level)]
    {
      ghost var rec := MakeRecord(stmtType, objectName, ruleId, level);
      WriteExtends(head, count, slots[..], history, rec);
      var pos := head;
      slots[pos] := MakeRecord(stmtType, objectName, ruleId, level);
      assert slots[..] == old(slots[..])[pos := rec];
      head := (pos + 1) % slots.Length;
      if count < slots.Length {
        count := count + 1;
      }
      history := history + [rec];
    }

    method ReadRecord(start: nat, n: nat) returns (rec: Record)
      requires Valid() && n < count && start == (if count < slots.Length then 0 else head)
      ensures n < |Window(history, slots.Length)| && rec == Window(history, slots.Length)[n]
    {
      ReadsWindow(head, count, slots[..], history, n);
      rec := slots[(start + n) % slots.Length];
    }

    /** Reads the oldest records of the window into `result`, as many as fit. */
    method Query(result: array<Record>) returns (n: nat)
      requires Valid() && result != slots
      modifies result
      ensures n <= result.Length
      ensures var view := Window(history, slots.Length);
              n == (if |view| < result.Length then |view| else result.Length) && result[..n] == view[..n]
      ensures result[n..] == old(result[n..])
    {
      var cap := slots.Length;
      var total: int := count;
      if total > result.Length {
        total := result.Length;
      }
      if total > cap {
        total := cap;
      }
      var start := if count < slots.Length then 0 else head;
      n := 0;
      while n < total
        invariant 0 <= n <= total <= result.Length
        invariant forall k :: 0 <= k < n ==> result[k] == Window(history, slots.Length)[k]
        invariant forall k :: n <= k < result.Length ==> result[k] == old(result[k])
      {
        var rec := ReadRecord(start, n);
        result[n] := rec;
        n := n + 1;
      }
    }
  }
}
