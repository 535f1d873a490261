/** When a query can return a record that nobody wrote (audit_record.c). */
module LockFreeTearing {
  import opened Core
  import opened RecordBuffer
  import opened LockFreeRing

  /** Every record that a finished query shows was handed to a writer, or is blank. */
  ghost predicate WholeAnswers(blank: Record, s: State) {
    forall j, k :: 0 <= j < |s.readers| && s.readers[j].Finished? && 0 <= k < |s.readers[j].result| ==>
      s.readers[j].result[k] in s.issued || s.readers[j].result[k] == blank
  }

  ghost predicate NeverTears(cap: nat, blank: Record, atomic: bool, writers: nat, readers: nat)
    requires cap > 0
  {
    forall turns :: WholeAnswers(blank, Play(cap, blank, atomic, Init(cap, blank, writers, readers), turns))
  }

  // ---- without writers, or without readers ---------------------------------------------------

  ghost predicate BlankReader(blank: Record, r: Reader) {
    match r
    case Reading(_, _, _, done, partial, _) => (forall k :: 0 <= k < |done| ==> done[k] == blank) && partial == blank
    case Finished(_, result) => forall k :: 0 <= k < |result| ==> result[k] == blank
    case _ => true
  }

  ghost predicate AllBlank(blank: Record, s: State) {
    && s.writers == []
    && (forall k :: 0 <= k < |s.slots| ==> s.slots[k] == blank)
    && (forall j :: 0 <= j < |s.readers| ==> BlankReader(blank, s.readers[j]))
  }

  lemma StepKeepsBlank(cap: nat, blank: Record, atomic: bool, s: State, t: Turn)
    requires cap > 0 && AllBlank(blank, s)
    ensures AllBlank(blank, Step(cap, blank, atomic, s, t))
  {
    if t.Read? && t.j < |s.readers| {
      assert BlankReader(blank, s.readers[t.j]);
    }
  }

  lemma {:induction false} PlayKeepsBlank(cap: nat, blank: Record, atomic: bool, s: State, turns: seq<Turn>)
    requires cap > 0 && AllBlank(blank, s)
    ensures AllBlank(blank, Play(cap, blank, atomic, s, turns))
    decreases |turns|
  {
    if turns != [] {
      StepKeepsBlank(cap, blank, atomic, s, turns[0]);
      PlayKeepsBlank(cap, blank, atomic, Step(cap, blank, atomic, s, turns[0]), turns[1..]);
    }
  }

  lemma {:induction false} PlayKeepsReaders(cap: nat, blank: Record, atomic: bool, s: State, turns: seq<Turn>)
    requires cap > 0
    ensures |Play(cap, blank, atomic, s, turns).readers| == |s.readers|
    decreases |turns|
  {
    if turns != [] {
      PlayKeepsReaders(cap, blank, atomic, Step(cap, blank, atomic, s, turns[0]), turns[1..]);
    }
  }

  lemma AloneIsWhole(cap: nat, blank: Record, atomic: bool, writers: nat, readers: nat, turns: seq<Turn>)
    requires cap > 0 && (writers == 0 || readers == 0)
    ensures WholeAnswers(blank, Play(cap, blank, atomic, Init(cap, blank, writers, readers), turns))
  {
    var init := Init(cap, blank, writers, readers);
    var s := Play(cap, blank, atomic, init, turns);
    PlayKeepsReaders(cap, blank, atomic, init, turns);
    if writers == 0 {
      PlayKeepsBlank(cap, blank, atomic, init, turns);
      assert forall j :: 0 <= j < |s.readers| ==> BlankReader(blank, s.readers[j]);
    }
  }

  // ---- one writer and one reader -----------------------------------------------------------------

  ghost predicate Leads(cap: nat, blank: Record, atomic: bool, s: State, t: State)
    requires cap > 0
  {
    exists turns :: Play(cap, blank, atomic, s, turns) == t
  }

  lemma LeadsOn(cap: nat, blank: Record, atomic: bool, s: State, t: State, turns: seq<Turn>, u: State)
    requires cap > 0 && Leads(cap, blank, atomic, s, t) && Play(cap, blank, atomic, t, turns) == u
    ensures Leads(cap, blank, atomic, s, u)
  {
    var before :| Play(cap, blank, atomic, s, before) == t;
    PlayAppend(cap, blank, atomic, s, before, turns);
  }

  lemma LeadsStep(cap: nat, blank: Record, atomic: bool, s: State, t: State, turn: Turn)
    requires cap > 0 && Leads(cap, blank, atomic, s, t)
    ensures Leads(cap, blank, atomic, s, Step(cap, blank, atomic, t, turn))
  {
    PlayTurns(cap, blank, atomic, t, turn);
    LeadsOn(cap, blank, atomic, s, t, [turn], Step(cap, blank, atomic, t, turn));
  }

  lemma LeadsKeepsSafe(cap: nat, blank: Record, atomic: bool, s: State, t: State)
    requires cap > 0 && Safe(cap, s) && Leads(cap, blank, atomic, s, t)
    ensures Safe(cap, t)
  {
    var turns :| Play(cap, blank, atomic, s, turns) == t;
    PlayKeepsSafe(cap, blank, atomic, s, turns);
  }

  /** The ring holds copies of one record only, and nothing else was written. */
  ghost predicate FilledWith(s: State, rec: Record, history: seq<Record>) {
    && Represents(s.head, s.count, s.slots, history)
    && (forall r :: r in history ==> r == rec)
    && (forall r :: r in s.issued ==> r == rec)
  }

  lemma {:induction false} Fill(cap: nat, blank: Record, atomic: bool, init: State, s: State, rec: Record,
                               history: seq<Record>, n: nat) returns (t: State, after: seq<Record>)
    requires cap > 0 && Safe(cap, init) && Leads(cap, blank, atomic, init, s)
    requires s.writers != [] && s.writers[0].Idle? && FilledWith(s, rec, history)
    ensures Leads(cap, blank, atomic, init, t) && FilledWith(t, rec, after) && |after| == |history| + n
    ensures t.writers == s.writers && t.readers == s.readers && |t.slots| == |s.slots|
    decreases n
  {
    if n == 0 {
      t, after := s, history;
    } else {
      LeadsKeepsSafe(cap, blank, atomic, init, s);
      var turns := WriteAlone(cap, blank, atomic, s, 0, rec);
      var u := Written(cap, s, rec);
      LeadsOn(cap, blank, atomic, init, s, turns, u);
      t, after := Fill(cap, blank, atomic, init, u, rec, history + [rec], n - 1);
    }
  }

  lemma SetRest(x: Record, a: Record, b: Record)
    ensures SetFrom(SetField(x, 0, a), 1, b) == SetField(b, 0, a)
  {
    var p := SetField(x, 0, a);
    var q := SetField(p, 1, b);
    var r := SetField(q, 2, b);
    var t := SetField(r, 3, b);
    assert SetFrom(p, 1, b) == SetFrom(q, 2, b) == SetFrom(r, 3, b) == SetFrom(t, 4, b);
    assert SetFrom(t, 4, b) == SetFrom(SetField(t, 4, b), 5, b);
  }

  /** A reader that has read the first field of the oldest record. */
  function HalfRead(s: State, blank: Record, a: Record): State
    requires s.readers != []
  {
    s.(readers := s.readers[0 := Reading(1, 1, s.head, [], SetField(blank, 0, a), 1)])
  }

  lemma ReadFirstField(cap: nat, blank: Record, atomic: bool, init: State, s: State, a: Record)
    requires cap > 0 && Leads(cap, blank, atomic, init, s) && s.readers != [] && s.readers[0].Asleep?
    requires |s.slots| == cap == s.count && s.head < cap && s.slots[s.head] == a
    ensures Leads(cap, blank, atomic, init, HalfRead(s, blank, a))
  {
    var t := Read(0, 1);
    var s1 := Step(cap, blank, atomic, s, t);
    var s2 := Step(cap, blank, atomic, s1, t);
    var s3 := Step(cap, blank, atomic, s2, t);
    LeadsStep(cap, blank, atomic, init, s, t);
    LeadsStep(cap, blank, atomic, init, s1, t);
    LeadsStep(cap, blank, atomic, init, s2, t);
    LeadsStep(cap, blank, atomic, init, s3, t);
    WrapAround(s.head, cap);
    assert s3.readers[0] == Reading(1, 1, s.head, [], blank, 0);
    assert Step(cap, blank, atomic, s3, t).readers == HalfRead(s, blank, a).readers;
  }

  /** The reader goes on after the slot has been overwritten. */
  lemma ReadRest(cap: nat, blank: Record, atomic: bool, init: State, s: State, slot: nat, a: Record, b: Record) returns (t: State)
    requires cap > 0 && Leads(cap, blank, atomic, init, s) && |s.slots| == cap && slot < cap && s.slots[slot] == b
    requires s.readers != [] && s.readers[0] == Reading(1, 1, slot, [], SetField(blank, 0, a), 1)
    ensures Leads(cap, blank, atomic, init, t) && t.issued == s.issued && |t.readers| == |s.readers|
    ensures t.readers[0] == Finished(1, [SetField(b, 0, a)])
  {
    var turn := Read(0, 1);
    WrapAround(slot, cap);
    var copy := CopyFields(cap, blank, atomic, s, 0, turn);
    SetRest(blank, a, b);
    var s1 := FieldsCopied(s, 0);
    LeadsOn(cap, blank, atomic, init, s, copy, s1);
    LeadsStep(cap, blank, atomic, init, s1, turn);
    var s2 := Step(cap, blank, atomic, s1, turn);
    LeadsStep(cap, blank, atomic, init, s2, turn);
    t := Step(cap, blank, atomic, s2, turn);
    assert s2.readers[0].done == [SetField(b, 0, a)];
  }

  /** The writer overwrites the oldest record while the reader is between two of its fields. */
  lemma Overtake(cap: nat, blank: Record, atomic: bool, writers: nat, readers: nat, a: Record, b: Record) returns (t: State)
    requires cap > 0 && writers > 0 && readers > 0
    ensures Leads(cap, blank, atomic, Init(cap, blank, writers, readers), t)
    ensures |t.readers| == readers && t.readers[0] == Finished(1, [SetField(b, 0, a)])
    ensures forall r :: r in t.issued ==> r == a || r == b
  {
    var init := Init(cap, blank, writers, readers);
    assert Play(cap, blank, atomic, init, []) == init;
    var full, history := Fill(cap, blank, atomic, init, init, a, [], cap);
    assert Oldest(full.slots, full.head, 0) == history[0] && history[0] in history;
    ReadFirstField(cap, blank, atomic, init, full, a);
    var half := HalfRead(full, blank, a);
    LeadsKeepsSafe(cap, blank, atomic, init, half);
    var store := StoreAlone(cap, blank, atomic, half, 0, b);
    var over := Play(cap, blank, atomic, half, store);
    LeadsOn(cap, blank, atomic, init, half, store, over);
    t := ReadRest(cap, blank, atomic, init, over, full.head, a, b);
  }

  lemma OneWriterTears(cap: nat, blank: Record, atomic: bool, writers: nat, readers: nat)
    requires cap > 0 && writers > 0 && readers > 0
    ensures !NeverTears(cap, blank, atomic, writers, readers)
  {
    var a := Record(blank.stmtType + "a", "a", "", Notice, Pass);
    var b := Record(blank.stmtType + "b", "b", "", Notice, Pass);
    var t := Overtake(cap, blank, atomic, writers, readers, a, b);
    var torn := SetField(b, 0, a);
    assert a.stmtType != b.stmtType by {
      assert a.stmtType[|blank.stmtType|] == 'a' && b.stmtType[|blank.stmtType|] == 'b';
    }
    assert |torn.stmtType| == |blank.stmtType| + 1 && torn !in t.issued;
    assert t.readers[0].result[0] == torn && !WholeAnswers(blank, t);
    var turns :| Play(cap, blank, atomic, Init(cap, blank, writers, readers), turns) == t;
  }

  /**
   * Queries show whole records only in every interleaving, whatever the capacity and the kind of
   * increment, exactly when nobody writes or nobody reads.
   */
  lemma NeverTearsIff(cap: nat, blank: Record, atomic: bool, writers: nat, readers: nat)
    requires cap > 0
    ensures NeverTears(cap, blank, atomic, writers, readers) <==> writers == 0 || readers == 0
  {
    if writers == 0 || readers == 0 {
      forall turns
        ensures WholeAnswers(blank, Play(cap, blank, atomic, Init(cap, blank, writers, readers), turns))
      {
        AloneIsWhole(cap, blank, atomic, writers, readers, turns);
      }
    } else {
      OneWriterTears(cap, blank, atomic, writers, readers);
    }
  }
}
