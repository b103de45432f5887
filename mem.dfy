/**
 * The arena (lib/mem.rs): a vector of entries, each empty or holding a
 * value, with an insertion offset and a length counter. Indices handed
 * out by `insert` are positions in the vector.
 */
module Mem {
  import opened Wrappers
  import opened Errors

  /** `ArenaEntry` (the source spells the empty variant `Emtpy`). */
  datatype ArenaEntry<T> = Empty | Occupied(value: T)

  const EMPTY_ENTRY_REASON: string := "tried to index an empty arena entry"

  /** The `TryInto` conversions of an entry: its value, or an internal error for an empty entry. */
  function EntryValue<T>(e: ArenaEntry<T>): (r: Result<T, LangError>)
    ensures r.Ok? <==> e.Occupied?
    ensures r.Ok? ==> r.value == e.value
    ensures r.Err? ==> r.error == InternalError(EMPTY_ENTRY_REASON)
  {
    match e
    case Occupied(v) => Ok(v)
    case Empty => Err(NewIieError(EMPTY_ENTRY_REASON))
  }

  /** `Vec::insert(i, x)`: `x` lands at `i` and the entries from `i` on move up by one. */
  function InsertAt<T>(s: seq<T>, i: nat, x: T): (r: seq<T>)
    requires i <= |s|
    ensures |r| == |s| + 1 && r[i] == x
    ensures forall j :: 0 <= j < i ==> r[j] == s[j]
    ensures forall j :: i < j < |r| ==> r[j] == s[j - 1]
  {
    s[..i] + [x] + s[i..]
  }

  /** `Vec::remove(i)`: the entries after `i` move down by one. */
  function RemoveAt<T>(s: seq<T>, i: nat): (r: seq<T>)
    requires i < |s|
    ensures |r| == |s| - 1
    ensures forall j :: 0 <= j < i ==> r[j] == s[j]
    ensures forall j :: i <= j < |r| ==> r[j] == s[j + 1]
  {
    s[..i] + s[i + 1..]
  }

  /** Removing what was just inserted gives the vector back. */
  lemma RemoveUndoesInsert<T>(s: seq<T>, i: nat, x: T)
    requires i <= |s|
    ensures RemoveAt(InsertAt(s, i, x), i) == s
  {
  }

  /** Re-inserting what was just removed gives the vector back. */
  lemma InsertUndoesRemove<T>(s: seq<T>, i: nat)
    requires i < |s|
    ensures InsertAt(RemoveAt(s, i), i, s[i]) == s
  {
  }

  /** Inserting at the end appends. */
  lemma InsertAtEnd<T>(s: seq<T>, x: T)
    ensures InsertAt(s, |s|, x) == s + [x]
  {
  }

  /** `Arena`. `reserved` stands for the capacity the vector was asked for. */
  class Arena<T> {
    var entries: seq<ArenaEntry<T>>
    var len: nat
    var offset: nat
    var reserved: nat

    /** The arena only ever appended to: the next insertion goes at the end. */
    predicate Packed()
      reads this
    {
      offset == |entries|
    }

    /** `Arena::new`. */
    constructor New()
      ensures entries == [] && len == 0 && offset == 0 && reserved == 0
      ensures Packed()
    {
      entries := [];
      len := 0;
      offset := 0;
      reserved := 0;
    }

    /** `Arena::with_capacity`: no entries, but `len` is set to the capacity. */
    constructor WithCapacity(capacity: nat)
      ensures entries == [] && len == capacity && offset == 0 && reserved == capacity
      ensures Packed()
    {
      entries := [];
      len := capacity;
      offset := 0;
      reserved := capacity;
    }

    /** `Arena::reserve`: room for `capacity` more entries. */
    method Reserve(capacity: nat)
      modifies this
      ensures reserved == |entries| + capacity || reserved == old(reserved)
      ensures reserved >= |entries| + capacity
      ensures entries == old(entries) && len == old(len) && offset == old(offset)
    {
      if reserved < |entries| + capacity {
        reserved := |entries| + capacity;
      }
    }

    /**
     * `Arena::insert`: stores `element` at the current offset and returns
     * that offset; the vector panics when the offset is past its end.
     */
    method Insert(element: T) returns (index: nat)
      requires offset <= |entries|
      modifies this
      ensures index == old(offset) && offset == old(offset) + 1 && len == old(len) + 1
      ensures entries == InsertAt(old(entries), index, Occupied(element))
      ensures entries[index] == Occupied(element)
      ensures reserved == old(reserved)
      ensures old(Packed()) ==> Packed() && entries == old(entries) + [Occupied(element)]
    {
      index := offset;
      offset := offset + 1;
      entries := InsertAt(entries, index, Occupied(element));
      len := len + 1;
    }

    /** `Arena::get`: takes entry `index` out of the vector. */
    method Get(index: nat) returns (e: ArenaEntry<T>)
      requires index < |entries|
      modifies this
      ensures e == old(entries)[index]
      ensures entries == RemoveAt(old(entries), index)
      ensures len == old(len) && offset == old(offset) && reserved == old(reserved)
    {
      e := entries[index];
      entries := RemoveAt(entries, index);
    }

    /** `Arena::remove`: puts an empty entry at `index`, moving the rest up rather than overwriting. */
    method Remove(index: nat)
      requires index <= |entries|
      modifies this
      ensures entries == InsertAt(old(entries), index, Empty)
      ensures |entries| == old(|entries|) + 1
      ensures len == old(len) && offset == old(offset) && reserved == old(reserved)
    {
      entries := InsertAt(entries, index, Empty);
    }

    /**
     * `Arena::update_entry`: runs `closure` on the value at `index`; the
     * closure returns the value as it left it and its own result, which is
     * propagated. An empty entry panics in the source.
     */
    method UpdateEntry(index: nat, closure: T -> (T, Result<(), LangError>)) returns (r: Result<(), LangError>)
      requires index < |entries| && entries[index].Occupied?
      modifies this
      ensures r == closure(old(entries)[index].value).1
      ensures entries == old(entries)[index := Occupied(closure(old(entries)[index].value).0)]
      ensures len == old(len) && offset == old(offset) && reserved == old(reserved)
    {
      var outcome := closure(entries[index].value);
      entries := entries[index := Occupied(outcome.0)];
      r := outcome.1;
    }
  }

  /**
   * The insertion test: three inserts into `with_capacity(0)` after
   * reserving ten return 0, 1 and 2, and each index then holds the
   * inserted value.
   */
  method InsertThree() returns (indices: seq<nat>, seen: seq<ArenaEntry<()>>)
    ensures indices == [0, 1, 2]
    ensures seen == [Occupied(()), Occupied(()), Occupied(())]
  {
    var arena := new Arena<()>.WithCapacity(0);
    arena.Reserve(10);
    indices := [];
    seen := [];
    var k := 0;
    while k < 3
      invariant 0 <= k <= 3
      invariant arena.Packed() && arena.offset == k
      invariant indices == seq(k, j => j)
      invariant seen == seq(k, j => Occupied(()))
    {
      var index := arena.Insert(());
      indices := indices + [index];
      seen := seen + [arena.entries[index]];
      k := k + 1;
    }
  }
}
