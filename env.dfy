/**
 * The scope-chain environment (lib/env.rs): a vector of entries, each
 * binding names to arena slots and optionally naming the entry that
 * encloses it. Lookups walk the enclosing chain; the values themselves
 * live in an `Arena`.
 */
module Env {
  import opened Wrappers
  import opened Errors
  import opened Types
  import opened Values
  import opened Mem
  import TypeChecker

  /** `EnvironmentEntry`: names bound to arena slots, and the enclosing entry's index. */
  datatype EnvironmentEntry = EnvironmentEntry(values: map<string, nat>, enclosing: Option<nat>)

  const FRESH_ENTRY: EnvironmentEntry := EnvironmentEntry(map[], None)

  /**
   * Every enclosing link points to an earlier entry. Entries built by
   * `new`, `new_entry` and `entry_from` (from an existing entry) have this
   * shape, and it makes every chain end.
   */
  predicate Linked(entries: seq<EnvironmentEntry>)
  {
    forall j :: 0 <= j < |entries| && entries[j].enclosing.Some? ==> entries[j].enclosing.value < j
  }

  /**
   * The enclosing walk from `id` stays inside the entries and reaches an
   * entry without an enclosing one in at most `n` steps.
   */
  predicate EndsWithin(entries: seq<EnvironmentEntry>, id: nat, n: nat)
    decreases n
  {
    id < |entries| &&
    match entries[id].enclosing
    case None => true
    case Some(e) => n > 0 && EndsWithin(entries, e, n - 1)
  }

  /**
   * The enclosing chain of `id` ends within as many steps as there are
   * entries, the bound the interpreter's lookup walks with. This is what
   * the chain walks need: it holds for every entry of a `Linked`
   * environment (`LinkedChainsEnd`), and also for the entries whose chain
   * avoids a link that `remove_entry` has turned into a loop.
   */
  predicate ChainEnds(entries: seq<EnvironmentEntry>, id: nat)
  {
    EndsWithin(entries, id, |entries|)
  }

  /** The number of steps the enclosing walk from `id` takes to end. */
  ghost function StepsWithin(entries: seq<EnvironmentEntry>, id: nat, n: nat): nat
    requires EndsWithin(entries, id, n)
    decreases n
  {
    match entries[id].enclosing
    case None => 0
    case Some(e) => 1 + StepsWithin(entries, e, n - 1)
  }

  /** A walk that ends within `n` steps ends within any larger bound, in the same number of steps. */
  lemma {:induction false} EndsWithinMore(entries: seq<EnvironmentEntry>, id: nat, n: nat, m: nat)
    requires EndsWithin(entries, id, n) && n <= m
    ensures EndsWithin(entries, id, m) && StepsWithin(entries, id, m) == StepsWithin(entries, id, n)
    decreases n
  {
    if entries[id].enclosing.Some? {
      EndsWithinMore(entries, entries[id].enclosing.value, n - 1, m - 1);
    }
  }

  /** One step along an ending chain reaches an entry whose chain ends, one step sooner. */
  lemma ChainStep(entries: seq<EnvironmentEntry>, id: nat)
    requires ChainEnds(entries, id) && entries[id].enclosing.Some?
    ensures ChainEnds(entries, entries[id].enclosing.value)
    ensures StepsWithin(entries, entries[id].enclosing.value, |entries|) < StepsWithin(entries, id, |entries|)
  {
    EndsWithinMore(entries, entries[id].enclosing.value, |entries| - 1, |entries|);
  }

  /** In a `Linked` environment every chain ends. */
  lemma LinkedChainsEnd(entries: seq<EnvironmentEntry>, id: nat)
    requires Linked(entries) && id < |entries|
    ensures ChainEnds(entries, id)
  {
    LinkedEndsWithin(entries, id);
    EndsWithinMore(entries, id, id, |entries|);
  }

  /** In a `Linked` environment the chain of `id` ends within `id` steps. */
  lemma {:induction false} LinkedEndsWithin(entries: seq<EnvironmentEntry>, id: nat)
    requires Linked(entries) && id < |entries|
    ensures EndsWithin(entries, id, id)
    decreases id
  {
    if entries[id].enclosing.Some? {
      var e := entries[id].enclosing.value;
      LinkedEndsWithin(entries, e);
      EndsWithinMore(entries, e, e, id - 1);
    }
  }

  /** The ids on the enclosing chain of `id`, innermost first. */
  function Chain(entries: seq<EnvironmentEntry>, id: nat): (c: seq<nat>)
    requires ChainEnds(entries, id)
    ensures |c| >= 1 && c[0] == id
    ensures forall k :: 0 <= k < |c| ==> c[k] < |entries|
    ensures forall k :: 0 <= k < |c| - 1 ==> entries[c[k]].enclosing == Some(c[k + 1])
    ensures entries[c[|c| - 1]].enclosing.None?
    decreases StepsWithin(entries, id, |entries|)
  {
    match entries[id].enclosing
    case None => [id]
    case Some(e) =>
      ChainStep(entries, id);
      [id] + Chain(entries, e)
  }

  /** Some entry of the chain binds `name`. */
  predicate BoundOnChain(entries: seq<EnvironmentEntry>, c: seq<nat>, name: string)
    requires forall m :: 0 <= m < |c| ==> c[m] < |entries|
  {
    exists k :: 0 <= k < |c| && name in entries[c[k]].values
  }

  /** The k-th entry of the chain is the first to bind `name`. */
  predicate FirstBinding(entries: seq<EnvironmentEntry>, c: seq<nat>, name: string, k: nat)
    requires forall m :: 0 <= m < |c| ==> c[m] < |entries|
  {
    k < |c| && name in entries[c[k]].values
    && forall m :: 0 <= m < k ==> name !in entries[c[m]].values
  }

  function UndefinedGet(name: string): LangError
  {
    RuntimeError(UndefinedVariable("(get_two) Tried to get a variable: '" + name + "'"))
  }

  /**
   * `Environment::get_at_two`: the slot bound to `name` in the entry at
   * `index` itself, without walking the chain; an index past the entries
   * and an unbound name are distinct runtime errors.
   */
  function GetAtTwo(entries: seq<EnvironmentEntry>, index: nat, name: string): (r: Result<nat, LangError>)
    ensures r.Ok? <==> index < |entries| && name in entries[index].values
    ensures r.Ok? ==> r.value == entries[index].values[name]
    ensures index >= |entries| ==> r == Err(RuntimeError(GenericError(
      "tried to index an environment with lenght " + NatToString(|entries|) + " at index " + NatToString(index))))
    ensures index < |entries| && name !in entries[index].values ==> r == Err(RuntimeError(UndefinedVariable(
      "tried to get an undefined variable: '" + name + "' at index " + NatToString(index))))
  {
    if index >= |entries| then
      Err(RuntimeError(GenericError(
        "tried to index an environment with lenght " + NatToString(|entries|) + " at index " + NatToString(index))))
    else if name in entries[index].values then Ok(entries[index].values[name])
    else Err(RuntimeError(UndefinedVariable(
      "tried to get an undefined variable: '" + name + "' at index " + NatToString(index))))
  }

  /** A name bound in the entry itself is found at the same slot by `get_at_two` and by `get_two`. */
  lemma GetAtTwoAgreesWithGetTwo(entries: seq<EnvironmentEntry>, id: nat, name: string)
    requires ChainEnds(entries, id)
    ensures GetAtTwo(entries, id, name).Ok? ==> GetTwo(entries, id, name) == GetAtTwo(entries, id, name)
  {
  }

  /** `Environment::get_two`: the slot bound to `name` in the nearest entry of the chain. */
  function GetTwo(entries: seq<EnvironmentEntry>, id: nat, name: string): (r: Result<nat, LangError>)
    requires ChainEnds(entries, id)
    ensures r.Err? ==> r.error == UndefinedGet(name)
    decreases StepsWithin(entries, id, |entries|)
  {
    if name in entries[id].values then Ok(entries[id].values[name])
    else match entries[id].enclosing
      case Some(e) =>
        ChainStep(entries, id);
        GetTwo(entries, e, name)
      case None => Err(UndefinedGet(name))
  }

  /**
   * `get_two` finds the first entry on the chain that binds the name and
   * returns its slot; it fails exactly when no entry on the chain does.
   */
  lemma {:induction false} GetTwoFindsFirstBinding(entries: seq<EnvironmentEntry>, id: nat, name: string)
    requires ChainEnds(entries, id)
    ensures var c := Chain(entries, id);
      GetTwo(entries, id, name).Ok? <==> BoundOnChain(entries, c, name)
    ensures var c := Chain(entries, id);
      GetTwo(entries, id, name).Ok? ==>
        exists k: nat :: FirstBinding(entries, c, name, k) && GetTwo(entries, id, name).value == entries[c[k]].values[name]
    decreases StepsWithin(entries, id, |entries|)
  {
    var c := Chain(entries, id);
    if name in entries[id].values {
      assert FirstBinding(entries, c, name, 0);
    } else if entries[id].enclosing.Some? {
      var e := entries[id].enclosing.value;
      ChainStep(entries, id);
      GetTwoFindsFirstBinding(entries, e, name);
      if GetTwo(entries, e, name).Ok? {
        var k: nat :| FirstBinding(entries, Chain(entries, e), name, k) &&
          GetTwo(entries, e, name).value == entries[Chain(entries, e)[k]].values[name];
        FirstBindingShifts(entries, id, name, k);
      } else {
        UnboundShifts(entries, id, name);
      }
    } else {
      assert c == [id];
    }
  }

  /** A first binding on the enclosing entry's chain is one entry further down the chain of an entry that does not bind the name. */
  lemma FirstBindingShifts(entries: seq<EnvironmentEntry>, id: nat, name: string, k: nat)
    requires ChainEnds(entries, id) && entries[id].enclosing.Some? && name !in entries[id].values
    requires ChainEnds(entries, entries[id].enclosing.value)
    requires FirstBinding(entries, Chain(entries, entries[id].enclosing.value), name, k)
    ensures FirstBinding(entries, Chain(entries, id), name, k + 1)
    ensures Chain(entries, id)[k + 1] == Chain(entries, entries[id].enclosing.value)[k]
  {
    var c, c' := Chain(entries, id), Chain(entries, entries[id].enclosing.value);
    assert c == [id] + c';
    forall m | 0 <= m < k + 1 ensures name !in entries[c[m]].values {
      if m > 0 { assert c[m] == c'[m - 1]; }
    }
  }

  /** An entry that does not bind the name leaves its chain unbound when the enclosing chain is. */
  lemma UnboundShifts(entries: seq<EnvironmentEntry>, id: nat, name: string)
    requires ChainEnds(entries, id) && entries[id].enclosing.Some? && name !in entries[id].values
    requires ChainEnds(entries, entries[id].enclosing.value)
    requires !BoundOnChain(entries, Chain(entries, entries[id].enclosing.value), name)
    ensures !BoundOnChain(entries, Chain(entries, id), name)
  {
    var c, c' := Chain(entries, id), Chain(entries, entries[id].enclosing.value);
    assert c == [id] + c';
    forall k | 0 <= k < |c| ensures name !in entries[c[k]].values {
      if k > 0 { assert c[k] == c'[k - 1]; }
    }
  }

  /** An inner binding shadows every outer one. */
  lemma InnerBindingShadows(entries: seq<EnvironmentEntry>, id: nat, name: string)
    requires ChainEnds(entries, id) && name in entries[id].values
    ensures GetTwo(entries, id, name) == Ok(entries[id].values[name])
  {
  }

  /** `Environment::is_defined_two`. */
  predicate IsDefinedTwo(entries: seq<EnvironmentEntry>, id: nat, name: string)
    requires ChainEnds(entries, id)
    decreases StepsWithin(entries, id, |entries|)
  {
    if name in entries[id].values then true
    else match entries[id].enclosing
      case Some(e) =>
        ChainStep(entries, id);
        IsDefinedTwo(entries, e, name)
      case None => false
  }

  /** A name is defined exactly when `get_two` finds it. */
  lemma {:induction false} IsDefinedIffGetSucceeds(entries: seq<EnvironmentEntry>, id: nat, name: string)
    requires ChainEnds(entries, id)
    ensures IsDefinedTwo(entries, id, name) <==> GetTwo(entries, id, name).Ok?
    decreases StepsWithin(entries, id, |entries|)
  {
    if name !in entries[id].values && entries[id].enclosing.Some? {
      ChainStep(entries, id);
      IsDefinedIffGetSucceeds(entries, entries[id].enclosing.value, name);
    }
  }

  /** Appending an entry keeps the links downward exactly when its enclosing entry already exists. */
  lemma LinkedAfterAppend(entries: seq<EnvironmentEntry>, enclosing: Option<nat>)
    requires Linked(entries)
    ensures Linked(entries + [EnvironmentEntry(map[], enclosing)])
      <==> (enclosing.None? || enclosing.value < |entries|)
  {
    var s := entries + [EnvironmentEntry(map[], enclosing)];
    assert s[|entries|].enclosing == enclosing;
    forall j | 0 <= j < |entries| ensures s[j] == entries[j] { }
  }

  /** Removing the newest entry keeps the links downward. */
  lemma LinkedAfterRemovingLast(entries: seq<EnvironmentEntry>)
    requires Linked(entries) && |entries| > 0
    ensures Linked(RemoveAt(entries, |entries| - 1))
  {
  }

  /**
   * Removing an entry from the middle shifts its successors down, so a
   * successor that pointed at its predecessor can end up pointing at
   * itself; `get_two` would then never return for a missing name.
   */
  lemma RemovingInnerEntryCanMakeALoop()
    ensures var entries := [FRESH_ENTRY, EnvironmentEntry(map[], Some(0)), EnvironmentEntry(map[], Some(1))];
      Linked(entries) && RemoveAt(entries, 1)[1].enclosing == Some(1) && !Linked(RemoveAt(entries, 1))
    ensures var after := RemoveAt([FRESH_ENTRY, EnvironmentEntry(map[], Some(0)), EnvironmentEntry(map[], Some(1))], 1);
      ChainEnds(after, 0) && !ChainEnds(after, 1)
  {
    var entries := [FRESH_ENTRY, EnvironmentEntry(map[], Some(0)), EnvironmentEntry(map[], Some(1))];
    var after := RemoveAt(entries, 1);
    assert after[1] == entries[2];
    assert after[0] == FRESH_ENTRY;
    SelfLoopNeverEnds(after, 1, |after|);
  }

  /** The walk from an entry that encloses itself never ends. */
  lemma {:induction false} SelfLoopNeverEnds(entries: seq<EnvironmentEntry>, id: nat, n: nat)
    requires id < |entries| && entries[id].enclosing == Some(id)
    ensures !EndsWithin(entries, id, n)
    decreases n
  {
    if n > 0 {
      SelfLoopNeverEnds(entries, id, n - 1);
    }
  }

  /** The entries after `define_two` bound `name` to `slot` in entry `id`. */
  function Bind(entries: seq<EnvironmentEntry>, id: nat, name: string, slot: nat): (r: seq<EnvironmentEntry>)
    requires id < |entries|
    ensures |r| == |entries|
    ensures forall j :: 0 <= j < |entries| && j != id ==> r[j] == entries[j]
    ensures r[id].enclosing == entries[id].enclosing
    ensures r[id].values == entries[id].values[name := slot]
  {
    entries[id := entries[id].(values := entries[id].values[name := slot])]
  }

  /**
   * After binding, `get_two` from that entry finds the new slot, other
   * names still resolve as before, and binding leaves the links alone.
   */
  lemma {:induction false} GetAfterBind(entries: seq<EnvironmentEntry>, id: nat, name: string, slot: nat, from: nat, other: string)
    requires ChainEnds(entries, id) && ChainEnds(entries, from) && other != name
    ensures Linked(entries) ==> Linked(Bind(entries, id, name, slot))
    ensures ChainEnds(Bind(entries, id, name, slot), id) && ChainEnds(Bind(entries, id, name, slot), from)
    ensures GetTwo(Bind(entries, id, name, slot), id, name) == Ok(slot)
    ensures GetTwo(Bind(entries, id, name, slot), from, other) == GetTwo(entries, from, other)
    decreases StepsWithin(entries, from, |entries|)
  {
    var b := Bind(entries, id, name, slot);
    assert Linked(entries) ==> Linked(b) by {
      forall j | 0 <= j < |b| && b[j].enclosing.Some? ensures b[j].enclosing == entries[j].enclosing {
      }
    }
    BindKeepsEndsWithin(entries, id, name, slot, id, |entries|);
    BindKeepsEndsWithin(entries, id, name, slot, from, |entries|);
    assert other in b[from].values <==> other in entries[from].values;
    if other !in entries[from].values && entries[from].enclosing.Some? {
      ChainStep(entries, from);
      GetAfterBind(entries, id, name, slot, entries[from].enclosing.value, other);
    }
  }

  /** Binding a name leaves every enclosing link, and so every walk, as it was. */
  lemma {:induction false} BindKeepsEndsWithin(entries: seq<EnvironmentEntry>, id: nat, name: string, slot: nat,
                                               from: nat, n: nat)
    requires id < |entries| && EndsWithin(entries, from, n)
    ensures EndsWithin(Bind(entries, id, name, slot), from, n)
    decreases n
  {
    var b := Bind(entries, id, name, slot);
    assert b[from].enclosing == entries[from].enclosing;
    if entries[from].enclosing.Some? {
      BindKeepsEndsWithin(entries, id, name, slot, entries[from].enclosing.value, n - 1);
    }
  }

  function UndefinedAssign(name: string): LangError
  {
    RuntimeError(UndefinedVariable("tried to assign an undefined variable: '" + name + "'"))
  }

  /** The arena slot `get_two` finds, when there is one, exists (the source panics otherwise). */
  predicate SlotInBounds(entries: seq<EnvironmentEntry>, arena: seq<ArenaEntry<TypedValue>>, id: nat, name: string)
    requires ChainEnds(entries, id)
  {
    GetTwo(entries, id, name).Ok? ==> GetTwo(entries, id, name).value < |arena|
  }

  /**
   * What `assign_two` does, stated over the slot `get_two` finds: the
   * result, and the arena afterwards. `canConvert` is the type checker's
   * implicit-conversion test.
   */
  function AssignSpec(entries: seq<EnvironmentEntry>, arena: seq<ArenaEntry<TypedValue>>, id: nat, name: string,
                      value: TypedValue, canConvert: (TypedValue, TypedValue) -> bool)
    : (r: (Result<(), LangError>, seq<ArenaEntry<TypedValue>>))
    requires ChainEnds(entries, id) && SlotInBounds(entries, arena, id, name)
    ensures |r.1| == |arena|
    ensures r.0.Err? ==> r.1 == arena
    ensures r.0.Ok? ==> (GetTwo(entries, id, name).Ok?
                         && r.1 == arena[GetTwo(entries, id, name).value := Occupied(value)])
  {
    match GetTwo(entries, id, name)
    case Err(_) => (Err(UndefinedAssign(name)), arena)
    case Ok(slot) =>
      match arena[slot]
      case Empty => (Err(InternalError(EMPTY_ENTRY_REASON)), arena)
      case Occupied(existing) =>
        if !canConvert(existing, value) && TypeChecker.CheckType(existing.valueType, value.valueType).Err? then
          (TypeChecker.CheckType(existing.valueType, value.valueType), arena)
        else (Ok(()), arena[slot := Occupied(value)])
  }

  /** An assignment succeeds exactly when the name is bound, its slot is filled and the types agree. */
  lemma AssignSucceedsIff(entries: seq<EnvironmentEntry>, arena: seq<ArenaEntry<TypedValue>>, id: nat, name: string,
                          value: TypedValue, canConvert: (TypedValue, TypedValue) -> bool)
    requires ChainEnds(entries, id) && SlotInBounds(entries, arena, id, name)
    ensures AssignSpec(entries, arena, id, name, value, canConvert).0.Ok? <==>
      GetTwo(entries, id, name).Ok?
      && arena[GetTwo(entries, id, name).value].Occupied?
      && (canConvert(arena[GetTwo(entries, id, name).value].value, value)
          || TypeEq(arena[GetTwo(entries, id, name).value].value.valueType, value.valueType))
    ensures !IsDefinedTwo(entries, id, name) ==>
      AssignSpec(entries, arena, id, name, value, canConvert).0 == Err(UndefinedAssign(name))
  {
    IsDefinedIffGetSucceeds(entries, id, name);
  }

  /** `Environment`: the entries and the id of the root entry. */
  class Environment {
    var rootEntryId: nat
    var entries: seq<EnvironmentEntry>

    /** `Environment::new`: one entry, without bindings or enclosing entry, which is the root. */
    constructor New()
      ensures rootEntryId == 0 && entries == [FRESH_ENTRY]
      ensures Linked(entries)
    {
      rootEntryId := 0;
      entries := [FRESH_ENTRY];
    }

    /** `new_entry`: appends an unlinked entry and returns its index. */
    method NewEntry() returns (id: nat)
      modifies this
      ensures id == old(|entries|)
      ensures entries == old(entries) + [FRESH_ENTRY]
      ensures rootEntryId == old(rootEntryId)
    {
      id := |entries|;
      entries := entries + [FRESH_ENTRY];
    }

    /** `entry_from`: appends an entry enclosed by `enclosing` and returns its index. */
    method EntryFrom(enclosing: nat) returns (id: nat)
      modifies this
      ensures id == old(|entries|)
      ensures entries == old(entries) + [EnvironmentEntry(map[], Some(enclosing))]
      ensures rootEntryId == old(rootEntryId)
    {
      id := NewEntry();
      entries := entries[id := entries[id].(enclosing := Some(enclosing))];
    }

    /** `remove_entry`: deletes the entry, moving later entries down. */
    method RemoveEntry(id: nat)
      requires id < |entries|
      modifies this
      ensures entries == RemoveAt(old(entries), id)
      ensures rootEntryId == old(rootEntryId)
    {
      entries := RemoveAt(entries, id);
    }

    /** `define_two`: stores `value` in a new arena slot and binds `name` to it in entry `id` only. */
    method DefineTwo(id: nat, arena: Arena<TypedValue>, name: string, value: TypedValue)
      requires id < |entries| && arena.offset <= |arena.entries|
      modifies this, arena
      ensures entries == Bind(old(entries), id, name, old(arena.offset))
      ensures arena.entries == InsertAt(old(arena.entries), old(arena.offset), Occupied(value))
      ensures arena.offset == old(arena.offset) + 1 && arena.len == old(arena.len) + 1
      ensures arena.reserved == old(arena.reserved) && rootEntryId == old(rootEntryId)
    {
      var index := arena.Insert(value);
      entries := Bind(entries, id, name, index);
    }

    /**
     * `assign_two`: walks the chain to the nearest entry binding `name`,
     * type-checks unless the value converts implicitly, and overwrites
     * the slot.
     */
    method AssignTwo(id: nat, name: string, value: TypedValue, arena: Arena<TypedValue>,
                     canConvert: (TypedValue, TypedValue) -> bool) returns (r: Result<(), LangError>)
      requires ChainEnds(entries, id) && SlotInBounds(entries, arena.entries, id, name)
      modifies arena
      ensures (r, arena.entries) == AssignSpec(entries, old(arena.entries), id, name, value, canConvert)
      ensures arena.len == old(arena.len) && arena.offset == old(arena.offset) && arena.reserved == old(arena.reserved)
      decreases StepsWithin(entries, id, |entries|)
    {
      if name in entries[id].values {
        var slot := entries[id].values[name];
        var existing :- EntryValue(arena.entries[slot]);
        if !canConvert(existing, value) {
          var _ :- TypeChecker.CheckType(existing.valueType, value.valueType);
        }
        arena.entries := arena.entries[slot := Occupied(value)];
        return Ok(());
      } else if entries[id].enclosing.Some? {
        ChainStep(entries, id);
        var _ :- AssignTwo(entries[id].enclosing.value, name, value, arena, canConvert);
        return Ok(());
      }
      return Err(UndefinedAssign(name));
    }

    /**
     * `assign_index_entry_two`: assigns element `index` of the array bound
     * to `name` in entry `id` itself (no chain walk). `errorS` stands for
     * `Lang::error_s`, which lib/lang.rs does not define, and `selfDebug`
     * for the `Debug` text of the environment.
     */
    method AssignIndexEntryTwo(id: nat, name: string, value: TypedValue, arena: Arena<TypedValue>, index: nat,
                               errorS: (string, string) -> LangError, selfDebug: string)
      returns (r: Result<(), LangError>)
      requires id < |entries|
      requires name in entries[id].values ==> entries[id].values[name] < |arena.entries|
      modifies arena
      ensures name !in entries[id].values ==>
        r == Err(errorS(name, "Tried to assign an undefined variable: '" + name + "', self at time of undefined var: " + selfDebug))
      ensures name in entries[id].values && old(arena.entries)[entries[id].values[name]].Empty? ==>
        r == Err(InternalError(EMPTY_ENTRY_REASON))
      ensures name in entries[id].values && old(arena.entries)[entries[id].values[name]].Occupied? ==>
        var tv := old(arena.entries)[entries[id].values[name]].value;
        (!tv.value.Array? ==> r == Err(errorS(name, "Tried to assign an undefined variable: '" + name + "'")))
        && (tv.value.Array? && index >= |tv.value.items| ==>
              r == Err(errorS(name, "Index out of bounds. Tried to index at " + NatToString(index)
                                    + " for an array of length " + NatToString(|tv.value.items|))))
        && (tv.value.Array? && index < |tv.value.items| ==>
              r == Values.CheckType(tv.value.items[index], value)
              && (r.Ok? ==> arena.entries == old(arena.entries)[entries[id].values[name] :=
                   Occupied(tv.(value := Value.Array(tv.value.items[index := value])))]))
      ensures r.Err? ==> arena.entries == old(arena.entries)
      ensures arena.len == old(arena.len) && arena.offset == old(arena.offset) && arena.reserved == old(arena.reserved)
    {
      if name in entries[id].values {
        var slot := entries[id].values[name];
        var arrValue :- EntryValue(arena.entries[slot]);
        match arrValue.value {
          case Array(arr) =>
            if index >= |arr| {
              return Err(errorS(name, "Index out of bounds. Tried to index at " + NatToString(index)
                                      + " for an array of length " + NatToString(|arr|)));
            }
            var (element, checked) := AssignChecked(arr[index], value);
            if checked.Err? {
              return checked;
            }
            arena.entries := arena.entries[slot := Occupied(arrValue.(value := Value.Array(arr[index := element])))];
            return Ok(());
          case _ =>
            return Err(errorS(name, "Tried to assign an undefined variable: '" + name + "'"));
        }
      }
      return Err(errorS(name, "Tried to assign an undefined variable: '" + name
                              + "', self at time of undefined var: " + selfDebug));
    }

    /**
     * `update_value_two`: runs `closure` on the value bound to `name` in
     * entry `id` and propagates its error; a name the entry does not bind
     * changes nothing. An empty slot panics in the source.
     */
    method UpdateValueTwo(id: nat, name: string, arena: Arena<TypedValue>,
                          closure: TypedValue -> (TypedValue, Result<(), LangError>)) returns (r: Result<(), LangError>)
      requires id < |entries|
      requires name in entries[id].values ==>
        entries[id].values[name] < |arena.entries| && arena.entries[entries[id].values[name]].Occupied?
      modifies arena
      ensures name !in entries[id].values ==> r == Ok(()) && arena.entries == old(arena.entries)
      ensures name in entries[id].values ==>
        var slot := entries[id].values[name];
        r == closure(old(arena.entries)[slot].value).1
        && arena.entries == old(arena.entries)[slot := Occupied(closure(old(arena.entries)[slot].value).0)]
      ensures arena.len == old(arena.len) && arena.offset == old(arena.offset) && arena.reserved == old(arena.reserved)
    {
      if name in entries[id].values {
        r := arena.UpdateEntry(entries[id].values[name], closure);
      } else {
        r := Ok(());
      }
    }
  }
}
