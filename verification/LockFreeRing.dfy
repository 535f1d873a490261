/**
 * The record ring as the backends and the REST worker really use it: without a lock, one load or
 * store at a time, in any interleaving (audit_record.c).
 */
module LockFreeRing {
  import opened Core
  import opened RecordBuffer

  const FIELDS := 5

  /** `dst` with one field copied from `src`. */
  function SetField(dst: Record, field: nat, src: Record): Record {
    if field == 0 then dst.(stmtType := src.stmtType)
    else if field == 1 then dst.(objectName := src.objectName)
    else if field == 2 then dst.(ruleId := src.ruleId)
    else if field == 3 then dst.(level := src.level)
    else dst.(conclusion := src.conclusion)
  }

  /** A backend inside audit_record_write; `seen` is the count that a plain increment has loaded. */
  datatype Writer = Idle | Storing(rec: Record, pos: nat, field: nat) | Checking | Counting | Loaded(seen: nat)

  /** The worker inside audit_record_query, called with room for `want` records. */
  datatype Reader =
    | Asleep
    | Counted(want: nat, count: nat)
    | Placed(want: nat, total: nat, head: nat)
    | Reading(want: nat, total: nat, start: nat, done: seq<Record>, partial: Record, field: nat)
    | Finished(want: nat, result: seq<Record>)

  /** `fault` is set by any access outside the slots; `issued` lists every record handed to a writer. */
  datatype State = State(head: nat, count: nat, slots: seq<Record>, writers: seq<Writer>, readers: seq<Reader>,
                         fault: bool, issued: seq<Record>)

  /** Who takes the next step; an idle writer starts with `rec`, an idle reader with `want`. */
  datatype Turn = Write(i: nat, rec: Record) | Read(j: nat, want: nat)

  function Init(cap: nat, blank: Record, writers: nat, readers: nat): State {
    State(0, 0, seq(cap, _ => blank), seq(writers, _ => Idle), seq(readers, _ => Asleep), false, [])
  }

  function WriterStep(cap: nat, atomic: bool, s: State, i: nat, rec: Record): State
    requires cap > 0 && i < |s.writers|
  {
    match s.writers[i]
    case Idle => s.(writers := s.writers[i := Storing(rec, s.head, 0)], issued := s.issued + [rec])
    case Storing(r, pos, field) =>
      if field >= FIELDS then s.(head := (pos + 1) % cap, writers := s.writers[i := Checking])
      else if pos < |s.slots| then
        s.(slots := s.slots[pos := SetField(s.slots[pos], field, r)],
           writers := s.writers[i := Storing(r, pos, field + 1)])
      else s.(fault := true)
    case Checking => s.(writers := s.writers[i := if s.count < cap then Counting else Idle])
    case Counting =>
      if atomic then s.(count := s.count + 1, writers := s.writers[i := Idle])
      else s.(writers := s.writers[i := Loaded(s.count)])
    case Loaded(seen) => s.(count := seen + 1, writers := s.writers[i := Idle])
  }

  function Least(a: nat, b: nat): nat {
    if a < b then a else b
  }

  function ReaderStep(cap: nat, blank: Record, s: State, j: nat, want: nat): State
    requires cap > 0 && j < |s.readers|
  {
    match s.readers[j]
    case Counted(w, c) => s.(readers := s.readers[j := Placed(w, Least(Least(c, w), cap), s.head)])
    case Placed(w, total, h) =>
      s.(readers := s.readers[j := Reading(w, total, if s.count < cap then 0 else h, [], blank, 0)])
    case Reading(w, total, start, done, partial, field) =>
      if |done| >= total then s.(readers := s.readers[j := Finished(w, done)])
      else if field >= FIELDS then s.(readers := s.readers[j := Reading(w, total, start, done + [partial], blank, 0)])
      else
        var idx := (start + |done|) % cap;
        if idx < |s.slots| then
          s.(readers := s.readers[j := Reading(w, total, start, done, SetField(partial, field, s.slots[idx]), field + 1)])
        else s.(fault := true)
    case _ => s.(readers := s.readers[j := Counted(want, s.count)])
  }

  function Step(cap: nat, blank: Record, atomic: bool, s: State, t: Turn): State
    requires cap > 0
  {
    match t
    case Write(i, rec) => if i < |s.writers| then WriterStep(cap, atomic, s, i, rec) else s
    case Read(j, want) => if j < |s.readers| then ReaderStep(cap, blank, s, j, want) else s
  }

  function Play(cap: nat, blank: Record, atomic: bool, s: State, turns: seq<Turn>): State
    requires cap > 0
    decreases |turns|
  {
    if turns == [] then s else Play(cap, blank, atomic, Step(cap, blank, atomic, s, turns[0]), turns[1..])
  }

  lemma {:induction false} PlayAppend(cap: nat, blank: Record, atomic: bool, s: State, a: seq<Turn>, b: seq<Turn>)
    requires cap > 0
    ensures Play(cap, blank, atomic, s, a + b) == Play(cap, blank, atomic, Play(cap, blank, atomic, s, a), b)
    decreases |a|
  {
    if a == [] {
      assert a + b == b;
    } else {
      assert (a + b)[1..] == a[1..] + b;
      PlayAppend(cap, blank, atomic, Step(cap, blank, atomic, s, a[0]), a[1..], b);
    }
  }

  // ---- every interleaving is safe ------------------------------------------------------------

  predicate WriterOk(cap: nat, w: Writer) {
    w.Storing? ==> w.pos < cap && w.field <= FIELDS
  }

  predicate ReaderOk(cap: nat, r: Reader) {
    match r
    case Placed(want, total, h) => total <= want && total <= cap && h < cap
    case Reading(want, total, start, done, _, field) =>
      |done| <= total && total <= want && total <= cap && start < cap && field <= FIELDS
    case Finished(want, result) => |result| <= want && |result| <= cap
    case _ => true
  }

  /** No access has left the ring, and no answer is longer than the ring or the caller's buffer. */
  ghost predicate Safe(cap: nat, s: State) {
    && |s.slots| == cap && s.head < cap && !s.fault
    && (forall i :: 0 <= i < |s.writers| ==> WriterOk(cap, s.writers[i]))
    && (forall j :: 0 <= j < |s.readers| ==> ReaderOk(cap, s.readers[j]))
  }

  lemma WriterKeepsSafe(cap: nat, atomic: bool, s: State, i: nat, rec: Record)
    requires cap > 0 && i < |s.writers| && Safe(cap, s)
    ensures Safe(cap, WriterStep(cap, atomic, s, i, rec))
  {
    assert WriterOk(cap, s.writers[i]);
  }

  lemma ReaderKeepsSafe(cap: nat, blank: Record, s: State, j: nat, want: nat)
    requires cap > 0 && j < |s.readers| && Safe(cap, s)
    ensures Safe(cap, ReaderStep(cap, blank, s, j, want))
  {
    assert ReaderOk(cap, s.readers[j]);
  }

  lemma {:induction false} PlayKeepsSafe(cap: nat, blank: Record, atomic: bool, s: State, turns: seq<Turn>)
    requires cap > 0 && Safe(cap, s)
    ensures Safe(cap, Play(cap, blank, atomic, s, turns))
    decreases |turns|
  {
    if turns != [] {
      match turns[0] {
        case Write(i, rec) => if i < |s.writers| { WriterKeepsSafe(cap, atomic, s, i, rec); }
        case Read(j, want) => if j < |s.readers| { ReaderKeepsSafe(cap, blank, s, j, want); }
      }
      PlayKeepsSafe(cap, blank, atomic, Step(cap, blank, atomic, s, turns[0]), turns[1..]);
    }
  }

  /**
   * Under every interleaving the head stays below the capacity, no slot outside the ring is touched, and
   * a query returns at most min(want, cap) records, whatever the count is.
   */
  lemma EveryRunIsSafe(cap: nat, blank: Record, atomic: bool, writers: nat, readers: nat, turns: seq<Turn>)
    requires cap > 0
    ensures var s := Play(cap, blank, atomic, Init(cap, blank, writers, readers), turns);
            && s.head < cap && !s.fault
            && forall j :: 0 <= j < |s.readers| && s.readers[j].Finished? ==>
                 |s.readers[j].result| <= Least(s.readers[j].want, cap)
  {
    PlayKeepsSafe(cap, blank, atomic, Init(cap, blank, writers, readers), turns);
    var s := Play(cap, blank, atomic, Init(cap, blank, writers, readers), turns);
    forall j | 0 <= j < |s.readers| && s.readers[j].Finished?
      ensures |s.readers[j].result| <= Least(s.readers[j].want, cap)
    {
      assert ReaderOk(cap, s.readers[j]);
    }
  }

  // ---- what a query can show ---------------------------------------------------------------------

  /** The field has this value in the blank record or in some record handed to a writer. */
  ghost predicate Traced(blank: Record, issued: seq<Record>, r: Record, field: nat) {
    SetField(r, field, blank) == r || exists src :: src in issued && SetField(r, field, src) == r
  }

  ghost predicate AllTraced(blank: Record, issued: seq<Record>, r: Record) {
    forall field :: 0 <= field < FIELDS ==> Traced(blank, issued, r, field)
  }

  ghost predicate ReaderTraced(blank: Record, issued: seq<Record>, r: Reader) {
    match r
    case Reading(_, _, _, done, partial, _) =>
      (forall k :: 0 <= k < |done| ==> AllTraced(blank, issued, done[k])) && AllTraced(blank, issued, partial)
    case Finished(_, result) => forall k :: 0 <= k < |result| ==> AllTraced(blank, issued, result[k])
    case _ => true
  }

  ghost predicate StateTraced(blank: Record, s: State) {
    && (forall k :: 0 <= k < |s.slots| ==> AllTraced(blank, s.issued, s.slots[k]))
    && (forall i :: 0 <= i < |s.writers| && s.writers[i].Storing? ==> s.writers[i].rec in s.issued)
    && (forall j :: 0 <= j < |s.readers| ==> ReaderTraced(blank, s.issued, s.readers[j]))
  }

  lemma BlankIsTraced(blank: Record, issued: seq<Record>)
    ensures AllTraced(blank, issued, blank)
  {
  }

  lemma CopyIsTraced(blank: Record, issued: seq<Record>, dst: Record, field: nat, src: Record)
    requires AllTraced(blank, issued, dst) && field < FIELDS
    requires src in issued || AllTraced(blank, issued, src)
    ensures AllTraced(blank, issued, SetField(dst, field, src))
  {
    var r := SetField(dst, field, src);
    forall g | 0 <= g < FIELDS
      ensures Traced(blank, issued, r, g)
    {
      if g == field {
        if src in issued {
          assert SetField(r, g, src) == r;
        } else {
          assert Traced(blank, issued, src, g);
          TraceMoves(blank, issued, src, r, g);
        }
      } else {
        assert Traced(blank, issued, dst, g);
        TraceMoves(blank, issued, dst, r, g);
      }
    }
  }

  /** Only the value of the field matters. */
  lemma TraceMoves(blank: Record, issued: seq<Record>, from: Record, to: Record, field: nat)
    requires Traced(blank, issued, from, field) && SetField(to, field, from) == to && field < FIELDS
    ensures Traced(blank, issued, to, field)
  {
    if SetField(from, field, blank) == from {
      assert SetField(to, field, blank) == to;
    } else {
      var src :| src in issued && SetField(from, field, src) == from;
      assert SetField(to, field, src) == to;
    }
  }

  lemma MoreIssued(blank: Record, issued: seq<Record>, rec: Record, r: Record)
    requires AllTraced(blank, issued, r)
    ensures AllTraced(blank, issued + [rec], r)
  {
    forall field | 0 <= field < FIELDS
      ensures Traced(blank, issued + [rec], r, field)
    {
      assert Traced(blank, issued, r, field);
      if SetField(r, field, blank) != r {
        var src :| src in issued && SetField(r, field, src) == r;
        assert src in issued + [rec];
      }
    }
  }

  lemma MoreIssuedReader(blank: Record, issued: seq<Record>, rec: Record, r: Reader)
    requires ReaderTraced(blank, issued, r)
    ensures ReaderTraced(blank, issued + [rec], r)
  {
    match r {
      case Reading(_, _, _, done, partial, _) =>
        MoreIssued(blank, issued, rec, partial);
        forall k | 0 <= k < |done| ensures AllTraced(blank, issued + [rec], done[k]) {
          MoreIssued(blank, issued, rec, done[k]);
        }
      case Finished(_, result) =>
        forall k | 0 <= k < |result| ensures AllTraced(blank, issued + [rec], result[k]) {
          MoreIssued(blank, issued, rec, result[k]);
        }
      case _ =>
    }
  }

  lemma WriterKeepsTraced(cap: nat, blank: Record, atomic: bool, s: State, i: nat, rec: Record)
    requires cap > 0 && i < |s.writers| && StateTraced(blank, s)
    ensures StateTraced(blank, WriterStep(cap, atomic, s, i, rec))
  {
    var s' := WriterStep(cap, atomic, s, i, rec);
    match s.writers[i] {
      case Idle =>
        forall k | 0 <= k < |s.slots| ensures AllTraced(blank, s'.issued, s'.slots[k]) {
          MoreIssued(blank, s.issued, rec, s.slots[k]);
        }
        forall j | 0 <= j < |s.readers| ensures ReaderTraced(blank, s'.issued, s'.readers[j]) {
          MoreIssuedReader(blank, s.issued, rec, s.readers[j]);
        }
      case Storing(r, pos, field) =>
        if field < FIELDS && pos < |s.slots| {
          CopyIsTraced(blank, s.issued, s.slots[pos], field, r);
        }
      case _ =>
    }
  }

  lemma ReaderKeepsTraced(cap: nat, blank: Record, s: State, j: nat, want: nat)
    requires cap > 0 && j < |s.readers| && StateTraced(blank, s)
    ensures StateTraced(blank, ReaderStep(cap, blank, s, j, want))
  {
    assert ReaderTraced(blank, s.issued, s.readers[j]);
    BlankIsTraced(blank, s.issued);
    match s.readers[j] {
      case Reading(w, total, start, done, partial, field) =>
        var idx := (start + |done|) % cap;
        if field < FIELDS && idx < |s.slots| {
          CopyIsTraced(blank, s.issued, partial, field, s.slots[idx]);
        }
      case _ =>
    }
  }

  lemma {:induction false} PlayKeepsTraced(cap: nat, blank: Record, atomic: bool, s: State, turns: seq<Turn>)
    requires cap > 0 && StateTraced(blank, s)
    ensures StateTraced(blank, Play(cap, blank, atomic, s, turns))
    decreases |turns|
  {
    if turns != [] {
      match turns[0] {
        case Write(i, rec) => if i < |s.writers| { WriterKeepsTraced(cap, blank, atomic, s, i, rec); }
        case Read(j, want) => if j < |s.readers| { ReaderKeepsTraced(cap, blank, s, j, want); }
      }
      PlayKeepsTraced(cap, blank, atomic, Step(cap, blank, atomic, s, turns[0]), turns[1..]);
    }
  }

  /** Every field that a query shows was handed to some writer, or is still blank. */
  lemma AnswersAreTraced(cap: nat, blank: Record, atomic: bool, writers: nat, readers: nat, turns: seq<Turn>, j: nat, k: nat)
    requires cap > 0
    requires var s := Play(cap, blank, atomic, Init(cap, blank, writers, readers), turns);
             j < |s.readers| && s.readers[j].Finished? && k < |s.readers[j].result|
    ensures var s := Play(cap, blank, atomic, Init(cap, blank, writers, readers), turns);
            AllTraced(blank, s.issued, s.readers[j].result[k])
  {
    var init := Init(cap, blank, writers, readers);
    BlankIsTraced(blank, []);
    PlayKeepsTraced(cap, blank, atomic, init, turns);
    var s := Play(cap, blank, atomic, init, turns);
    assert ReaderTraced(blank, s.issued, s.readers[j]);
  }

  // ---- undisturbed calls ----------------------------------------------------------------------------

  function SetFrom(dst: Record, field: nat, src: Record): Record
    decreases FIELDS - field
  {
    if field >= FIELDS then dst else SetFrom(SetField(dst, field, src), field + 1, src)
  }

  lemma SetAll(dst: Record, src: Record)
    ensures SetFrom(dst, 0, src) == src
  {
    var a := SetField(dst, 0, src);
    var b := SetField(a, 1, src);
    var c := SetField(b, 2, src);
    var d := SetField(c, 3, src);
    assert SetFrom(c, 3, src) == SetFrom(d, 4, src) == SetFrom(src, 5, src);
    assert SetFrom(a, 1, src) == SetFrom(b, 2, src);
  }

  function FieldsStored(s: State, i: nat): State
    requires i < |s.writers| && s.writers[i].Storing? && s.writers[i].pos < |s.slots|
  {
    var w := s.writers[i];
    s.(slots := s.slots[w.pos := SetFrom(s.slots[w.pos], w.field, w.rec)],
       writers := s.writers[i := Storing(w.rec, w.pos, FIELDS)])
  }

  lemma {:induction false} StoreFields(cap: nat, blank: Record, atomic: bool, s: State, i: nat, turn: Turn)
    returns (turns: seq<Turn>)
    requires cap > 0 && i < |s.writers| && s.writers[i].Storing? && s.writers[i].field <= FIELDS
    requires s.writers[i].pos < |s.slots| && turn.Write? && turn.i == i
    ensures Play(cap, blank, atomic, s, turns) == FieldsStored(s, i)
    decreases FIELDS - s.writers[i].field
  {
    var w := s.writers[i];
    if w.field == FIELDS {
      turns := [];
      assert s.slots[w.pos := s.slots[w.pos]] == s.slots && s.writers[i := w] == s.writers;
    } else {
      var s' := Step(cap, blank, atomic, s, turn);
      var rest := StoreFields(cap, blank, atomic, s', i, turn);
      turns := [turn] + rest;
      assert turns[1..] == rest;
    }
  }

  /** From the start of a call up to the test of the count. */
  lemma StoreAlone(cap: nat, blank: Record, atomic: bool, s: State, i: nat, rec: Record) returns (turns: seq<Turn>)
    requires cap > 0 && Safe(cap, s) && i < |s.writers| && s.writers[i].Idle?
    ensures Play(cap, blank, atomic, s, turns)
         == s.(head := (s.head + 1) % cap, slots := s.slots[s.head := rec], writers := s.writers[i := Checking],
               issued := s.issued + [rec])
  {
    var turn := Write(i, rec);
    var s1 := Step(cap, blank, atomic, s, turn);
    var middle := StoreFields(cap, blank, atomic, s1, i, turn);
    SetAll(s1.slots[s1.head], rec);
    var s2 := Play(cap, blank, atomic, s1, middle);
    PlayAppend(cap, blank, atomic, s1, middle, [turn]);
    assert [turn][1..] == [];
    turns := [turn] + (middle + [turn]);
    assert turns[1..] == middle + [turn];
    assert Play(cap, blank, atomic, s2, [turn]) == Step(cap, blank, atomic, s2, turn);
  }

  /** The call as a whole. */
  function Written(cap: nat, s: State, rec: Record): State
    requires cap > 0 && s.head < |s.slots|
  {
    s.(head := (s.head + 1) % cap, slots := s.slots[s.head := rec], count := NextCount(s.count, cap),
       issued := s.issued + [rec])
  }

  lemma PlayTurns(cap: nat, blank: Record, atomic: bool, s: State, t: Turn)
    requires cap > 0
    ensures var s1 := Step(cap, blank, atomic, s, t);
            && Play(cap, blank, atomic, s, [t]) == s1
            && Play(cap, blank, atomic, s, [t] + [t]) == Play(cap, blank, atomic, s1, [t])
            && Play(cap, blank, atomic, s, [t] + [t] + [t]) == Play(cap, blank, atomic, s1, [t] + [t])
  {
    assert ([t] + [t] + [t])[1..] == [t] + [t] && ([t] + [t])[1..] == [t] && [t][1..] == [];
  }

  lemma CountAlone(cap: nat, blank: Record, atomic: bool, s: State, i: nat, turn: Turn) returns (turns: seq<Turn>)
    requires cap > 0 && i < |s.writers| && s.writers[i].Checking? && turn.Write? && turn.i == i
    ensures Play(cap, blank, atomic, s, turns) == s.(count := NextCount(s.count, cap), writers := s.writers[i := Idle])
  {
    turns := if s.count >= cap then [turn] else if atomic then [turn] + [turn] else [turn] + [turn] + [turn];
    var s1 := Step(cap, blank, atomic, s, turn);
    PlayTurns(cap, blank, atomic, s, turn);
    PlayTurns(cap, blank, atomic, s1, turn);
    assert s.writers[i := Counting][i := Idle] == s.writers[i := Idle];
    if s.count < cap && !atomic {
      PlayTurns(cap, blank, atomic, Step(cap, blank, atomic, s1, turn), turn);
      assert s.writers[i := Counting][i := Loaded(s.count)][i := Idle] == s.writers[i := Idle];
    }
  }

  /** A write that nobody interrupts acts as one step, and extends the history that the ring stands for. */
  lemma WriteAlone(cap: nat, blank: Record, atomic: bool, s: State, i: nat, rec: Record) returns (turns: seq<Turn>)
    requires cap > 0 && Safe(cap, s) && i < |s.writers| && s.writers[i].Idle?
    ensures Play(cap, blank, atomic, s, turns) == Written(cap, s, rec)
    ensures forall history :: Represents(s.head, s.count, s.slots, history) ==>
              Represents(Written(cap, s, rec).head, Written(cap, s, rec).count, Written(cap, s, rec).slots, history + [rec])
  {
    var store := StoreAlone(cap, blank, atomic, s, i, rec);
    var s1 := Play(cap, blank, atomic, s, store);
    var count := CountAlone(cap, blank, atomic, s1, i, Write(i, rec));
    turns := store + count;
    PlayAppend(cap, blank, atomic, s, store, count);
    assert s.writers[i := Checking][i := Idle] == s.writers;
    forall history | Represents(s.head, s.count, s.slots, history)
      ensures var s' := Written(cap, s, rec); Represents(s'.head, s'.count, s'.slots, history + [rec])
    {
      WriteExtends(s.head, s.count, s.slots, history, rec);
    }
  }

  /** The slot that the query loop reads next. */
  function NextSlot(s: State, r: Reader): Record
    requires r.Reading? && s.slots != []
  {
    s.slots[(r.start + |r.done|) % |s.slots|]
  }

  function FieldsCopied(s: State, j: nat): State
    requires j < |s.readers| && s.readers[j].Reading? && s.slots != []
  {
    var r := s.readers[j];
    s.(readers := s.readers[j := r.(partial := SetFrom(r.partial, r.field, NextSlot(s, r)), field := FIELDS)])
  }

  lemma {:induction false} CopyFields(cap: nat, blank: Record, atomic: bool, s: State, j: nat, turn: Turn)
    returns (turns: seq<Turn>)
    requires cap == |s.slots| > 0 && j < |s.readers| && s.readers[j].Reading? && turn.Read? && turn.j == j
    requires s.readers[j].field <= FIELDS && |s.readers[j].done| < s.readers[j].total
    ensures Play(cap, blank, atomic, s, turns) == FieldsCopied(s, j)
    decreases FIELDS - s.readers[j].field
  {
    var r := s.readers[j];
    if r.field == FIELDS {
      turns := [];
      assert s.readers[j := r] == s.readers;
    } else {
      var rest := CopyFields(cap, blank, atomic, Step(cap, blank, atomic, s, turn), j, turn);
      turns := [turn] + rest;
      assert turns[1..] == rest;
    }
  }

  lemma CopyRecord(cap: nat, blank: Record, atomic: bool, s: State, j: nat, turn: Turn) returns (turns: seq<Turn>)
    requires cap == |s.slots| > 0 && j < |s.readers| && s.readers[j].Reading? && turn.Read? && turn.j == j
    requires s.readers[j].field == 0 && |s.readers[j].done| < s.readers[j].total
    ensures Play(cap, blank, atomic, s, turns)
         == s.(readers := s.readers[j := s.readers[j].(done := s.readers[j].done + [NextSlot(s, s.readers[j])],
                                                       partial := blank)])
  {
    var r := s.readers[j];
    var copy := CopyFields(cap, blank, atomic, s, j, turn);
    SetAll(r.partial, NextSlot(s, r));
    PlayAppend(cap, blank, atomic, s, copy, [turn]);
    turns := copy + [turn];
    assert [turn][1..] == [];
    var s1 := Play(cap, blank, atomic, s, copy);
    assert Play(cap, blank, atomic, s1, [turn]) == Step(cap, blank, atomic, s1, turn);
  }

  lemma {:induction false} CopyRecords(cap: nat, blank: Record, atomic: bool, s: State, j: nat, turn: Turn, history: seq<Record>)
    returns (turns: seq<Turn>)
    requires cap == |s.slots| > 0 && j < |s.readers| && s.readers[j].Reading? && turn.Read? && turn.j == j
    requires Represents(s.head, s.count, s.slots, history)
    requires var r := s.readers[j];
             && r.field == 0 && |r.done| <= r.total <= s.count && r.start == (if s.count < cap then 0 else s.head)
             && r.partial == blank && r.done == Window(history, cap)[..|r.done|]
    ensures var r := s.readers[j];
            Play(cap, blank, atomic, s, turns) == s.(readers := s.readers[j := Finished(r.want, Window(history, cap)[..r.total])])
    decreases s.readers[j].total - |s.readers[j].done|
  {
    var r := s.readers[j];
    if |r.done| == r.total {
      turns := [turn];
      assert [turn][1..] == [];
    } else {
      ReadsWindow(s.head, s.count, s.slots, history, |r.done|);
      var copy := CopyRecord(cap, blank, atomic, s, j, turn);
      var s1 := Play(cap, blank, atomic, s, copy);
      var rest := CopyRecords(cap, blank, atomic, s1, j, turn, history);
      turns := copy + rest;
      PlayAppend(cap, blank, atomic, s, copy, rest);
    }
  }

  /** A query that nobody interrupts returns the oldest records of the window, as many as fit. */
  lemma QueryAlone(cap: nat, blank: Record, atomic: bool, s: State, j: nat, want: nat, history: seq<Record>)
    returns (turns: seq<Turn>)
    requires cap == |s.slots| > 0 && j < |s.readers| && (s.readers[j].Asleep? || s.readers[j].Finished?)
    requires Represents(s.head, s.count, s.slots, history)
    ensures var view := Window(history, cap);
            Play(cap, blank, atomic, s, turns) == s.(readers := s.readers[j := Finished(want, view[..Least(|view|, want)])])
  {
    var turn := Read(j, want);
    var s1 := Step(cap, blank, atomic, s, turn);
    var s2 := Step(cap, blank, atomic, s1, turn);
    var s3 := Step(cap, blank, atomic, s2, turn);
    var rest := CopyRecords(cap, blank, atomic, s3, j, turn, history);
    turns := [turn] + ([turn] + ([turn] + rest));
    assert turns[1..][1..][1..] == rest;
    assert turns[1..] == [turn] + ([turn] + rest) && turns[1..][1..] == [turn] + rest;
    assert Play(cap, blank, atomic, s, turns) == Play(cap, blank, atomic, s1, turns[1..]);
    assert Play(cap, blank, atomic, s1, turns[1..]) == Play(cap, blank, atomic, s2, turns[1..][1..]);
  }
}
