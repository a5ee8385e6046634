/**
 * The variable store of include/main.cpp as values: `Tables` pairs the
 * global mainMap (owner to DataMap) with the global indexMap (owner to
 * allocation state), and every native is a function from the tables it
 * finds to the tables it leaves and the cell it returns. The functions
 * follow the source as written, for every state; the invariant `Inv`
 * and what it buys are proved in StoreProperties.
 */
module StoreModel {
  import opened PVarTypes
  import opened Names

  datatype Tables = Tables(vars: map<int, DataMap>, alloc: map<int, Slots>)

  /**
   * What a native hands back to the script: a plain cell, a float's bit
   * pattern in a cell, or 1 after copying a string into the script's
   * buffer.
   */
  datatype Reply = Code(n: int) | FloatBits(f: Float32) | Copied(text: string)

  datatype Step = Step(tables: Tables, reply: Reply)

  /** The indices currently held by an owner's variables. */
  ghost function Live(d: DataMap): set<int>
  {
    set k | k in d :: d[k].index
  }

  /** The largest of `floor` and the elements of `s`. */
  ghost function MaxOf(s: set<int>, floor: int): (m: int)
    ensures floor <= m
    ensures forall x :: x in s ==> x <= m
    ensures m == floor || m in s
    decreases s
  {
    if !exists y :: y in s then floor
    else
      var y :| y in s;
      var rest := MaxOf(s - {y}, floor);
      assert forall x :: x in s && x != y ==> x in s - {y};
      if y > rest then y else rest
  }

  // ---------------------------------------------------------------------
  // Invariant
  // ---------------------------------------------------------------------

  /** No two variables of one owner share an index. */
  ghost predicate IndicesUnique(d: DataMap)
  {
    forall a, b :: a in d && b in d && a != b ==> d[a].index != d[b].index
  }

  ghost predicate NoRepeats(q: seq<int>)
  {
    forall i, j :: 0 <= i < j < |q| ==> q[i] != q[j]
  }

  /**
   * The owner's live indices and its queued indices are disjoint and
   * together are exactly 0..counter.
   */
  ghost predicate OwnerInv(d: DataMap, s: Slots)
  {
    && d != map[]
    && IndicesUnique(d)
    && NoRepeats(s.free)
    && (forall k :: k in d ==> d[k].index !in s.free)
    && (forall x :: x in Live(d) || x in s.free <==> 0 <= x <= s.counter)
    && (forall k :: k in d ==> IsLowered(k))
  }

  /**
   * An owner has allocation state exactly when it has variables, and
   * each owner's variables and allocation state agree.
   */
  ghost predicate Inv(t: Tables)
  {
    && t.vars.Keys == t.alloc.Keys
    && forall o :: o in t.vars ==> OwnerInv(t.vars[o], t.alloc[o])
  }

  // ---------------------------------------------------------------------
  // Reading
  // ---------------------------------------------------------------------

  /** The value stored under (owner, key), if any. */
  function Lookup(t: Tables, owner: int, key: string): (r: Option<Value>)
    ensures r.Some? <==> owner in t.vars && key in t.vars[owner]
    ensures r.Some? ==> r.value == t.vars[owner][key].value
  {
    if owner in t.vars && key in t.vars[owner] then Some(t.vars[owner][key].value) else None
  }

  /** n_PVarGetInt: the integer stored under the name, and nothing for any other kind. */
  function GetInt(t: Tables, owner: int, key: string): (r: Option<Int32>)
    ensures r.Some? <==> Lookup(t, owner, key).Some? && Lookup(t, owner, key).value.IntValue?
    ensures r.Some? ==> Lookup(t, owner, key) == Some(IntValue(r.value))
  {
    match Lookup(t, owner, key)
    case Some(IntValue(i)) => Some(i)
    case _ => None
  }

  /** n_PVarGetString: the text stored under the name, and nothing for any other kind. */
  function GetString(t: Tables, owner: int, key: string): (r: Option<string>)
    ensures r.Some? <==> Lookup(t, owner, key).Some? && Lookup(t, owner, key).value.StringValue?
    ensures r.Some? ==> Lookup(t, owner, key) == Some(StringValue(r.value))
  {
    match Lookup(t, owner, key)
    case Some(StringValue(s)) => Some(s)
    case _ => None
  }

  /** n_PVarGetFloat: the float stored under the name, and nothing for any other kind. */
  function GetFloat(t: Tables, owner: int, key: string): (r: Option<Float32>)
    ensures r.Some? <==> Lookup(t, owner, key).Some? && Lookup(t, owner, key).value.FloatValue?
    ensures r.Some? ==> Lookup(t, owner, key) == Some(FloatValue(r.value))
  {
    match Lookup(t, owner, key)
    case Some(FloatValue(f)) => Some(f)
    case _ => None
  }

  /** n_PVarGetType */
  function GetType(t: Tables, owner: int, key: string): (c: int)
    ensures c == TypeNone <==> !(owner in t.vars && key in t.vars[owner])
    ensures c == TypeInt <==> GetInt(t, owner, key).Some?
    ensures c == TypeString <==> GetString(t, owner, key).Some?
    ensures c == TypeFloat <==> GetFloat(t, owner, key).Some?
  {
    TypeCode(Lookup(t, owner, key))
  }

  /**
   * n_PVarsGetUpperIndex as written: counter + 1 when the owner has
   * allocation state and an empty queue; otherwise one more than the
   * largest of 0 and the live indices when the owner has variables;
   * otherwise 0.
   */
  ghost function UpperIndex(t: Tables, owner: int): (r: int)
    ensures owner !in t.alloc && owner !in t.vars ==> r == 0
    ensures owner in t.vars && !(owner in t.alloc && t.alloc[owner].free == []) ==>
      r >= 1 && forall k :: k in t.vars[owner] ==> t.vars[owner][k].index < r
  {
    if owner in t.alloc && t.alloc[owner].free == [] then t.alloc[owner].counter + 1
    else if owner in t.vars then
      assert forall k :: k in t.vars[owner] ==> t.vars[owner][k].index in Live(t.vars[owner]);
      MaxOf(Live(t.vars[owner]), 0) + 1
    else 0
  }

  /**
   * n_PVarGetNameAtIndex: the name of a variable of the owner holding
   * the index, if there is one. The source takes the first match in
   * hash order; under Inv there is at most one.
   */
  ghost function NameAtIndex(t: Tables, owner: int, index: int): (r: Option<string>)
    ensures r.Some? ==> owner in t.vars && r.value in t.vars[owner]
                        && t.vars[owner][r.value].index == index
    ensures r.None? ==> owner !in t.vars
                        || forall k :: k in t.vars[owner] ==> t.vars[owner][k].index != index
  {
    if owner in t.vars && exists k :: k in t.vars[owner] && t.vars[owner][k].index == index then
      var k :| k in t.vars[owner] && t.vars[owner][k].index == index;
      Some(k)
    else
      None
  }

  // ---------------------------------------------------------------------
  // Changing
  // ---------------------------------------------------------------------

  datatype Allocation = Allocation(index: int, slots: Slots)

  /**
   * The index a new variable of the owner receives, and the owner's
   * allocation state afterwards: 0 for an owner without state (whose
   * counter starts at 0), else the front of the queue, else ++counter.
   */
  function Allocate(alloc: map<int, Slots>, owner: int): (a: Allocation)
    ensures owner !in alloc ==> a.index == 0 && a.slots == Slots(0, [])
    ensures owner in alloc && alloc[owner].free != [] ==>
      a.index in alloc[owner].free && [a.index] + a.slots.free == alloc[owner].free
      && a.slots.counter == alloc[owner].counter
    ensures owner in alloc && alloc[owner].free == [] ==>
      a.index == alloc[owner].counter + 1 && a.slots == alloc[owner].(counter := a.index)
  {
    if owner in alloc then
      var s := alloc[owner];
      if s.free != [] then Allocation(s.free[0], s.(free := s.free[1..]))
      else Allocation(s.counter + 1, s.(counter := s.counter + 1))
    else
      Allocation(0, Slots(0, []))
  }

  /**
   * n_PVarSetInt, n_PVarSetString and n_PVarSetFloat: replace the value
   * of an existing name in place, or allocate an index and insert the
   * name. Always returns 1.
   */
  function Set(t: Tables, owner: int, key: string, v: Value): (r: Step)
    ensures r.reply == Code(1)
    ensures owner in r.tables.vars && key in r.tables.vars[owner]
    ensures r.tables.vars[owner][key].value == v
    ensures r.tables.vars - {owner} == t.vars - {owner}
    ensures r.tables.alloc - {owner} == t.alloc - {owner}
    ensures owner in t.vars ==> r.tables.vars[owner].Keys == t.vars[owner].Keys + {key}
    ensures owner in t.vars ==> forall k :: k in t.vars[owner] && k != key ==>
      r.tables.vars[owner][k] == t.vars[owner][k]
    ensures owner in t.vars && key in t.vars[owner] ==>
      r.tables.vars[owner][key].index == t.vars[owner][key].index && r.tables.alloc == t.alloc
    ensures owner !in t.vars || key !in t.vars[owner] ==>
      owner in r.tables.alloc && r.tables.vars[owner][key].index == Allocate(t.alloc, owner).index
      && r.tables.alloc[owner] == Allocate(t.alloc, owner).slots
    ensures owner !in t.vars ==> r.tables.vars[owner].Keys == {key}
  {
    if owner in t.vars && key in t.vars[owner] then
      var d := t.vars[owner];
      Step(t.(vars := t.vars[owner := d[key := Entry(d[key].index, v)]]), Code(1))
    else
      var a := Allocate(t.alloc, owner);
      var d := if owner in t.vars then t.vars[owner] else map[];
      Step(Tables(t.vars[owner := d[key := Entry(a.index, v)]], t.alloc[owner := a.slots]), Code(1))
  }

  /**
   * n_PVarDelete: remove an existing variable, queue its index at the
   * back of the owner's queue, and forget the owner in both maps once it
   * has no variables left. Returns 1, or 0 (changing nothing) when the
   * owner or the name is unknown.
   */
  function Delete(t: Tables, owner: int, key: string): (r: Step)
    ensures r.reply == Code(1) || r.reply == Code(0)
    ensures r.reply == Code(1) <==> owner in t.vars && key in t.vars[owner]
    ensures r.reply == Code(0) ==> r.tables == t
    ensures r.reply == Code(1) ==> owner !in r.tables.vars || key !in r.tables.vars[owner]
    ensures r.tables.vars - {owner} == t.vars - {owner}
    ensures r.tables.alloc - {owner} == t.alloc - {owner}
    ensures r.reply == Code(1) && owner in r.tables.vars ==>
      r.tables.vars[owner] == t.vars[owner] - {key}
    ensures r.reply == Code(1) && owner in r.tables.vars && owner in t.alloc ==>
      owner in r.tables.alloc &&
      r.tables.alloc[owner] == t.alloc[owner].(free := t.alloc[owner].free + [t.vars[owner][key].index])
    ensures r.reply == Code(1) ==>
      (owner !in r.tables.vars <==> t.vars[owner].Keys == {key})
    ensures r.reply == Code(1) && owner !in r.tables.vars ==> owner !in r.tables.alloc
    ensures r.reply == Code(1) && owner !in t.alloc ==> owner !in r.tables.alloc
  {
    if owner in t.vars && key in t.vars[owner] then
      var d := t.vars[owner];
      var alloc :=
        if owner in t.alloc then
          t.alloc[owner := t.alloc[owner].(free := t.alloc[owner].free + [d[key].index])]
        else t.alloc;
      var d' := d - {key};
      if d' == map[] then
        assert d.Keys == {key} by { assert forall k :: k in d && k != key ==> k in d'; }
        Step(Tables(t.vars - {owner}, alloc - {owner}), Code(1))
      else
        Step(Tables(t.vars[owner := d'], alloc), Code(1))
    else
      Step(t, Code(0))
  }

  /**
   * OnPlayerDisconnect: forget the owner in both maps when it is found in
   * both; always returns 1.
   */
  function Disconnect(t: Tables, owner: int): (r: Step)
    ensures r.reply == Code(1)
    ensures owner in t.vars && owner in t.alloc ==>
      r.tables == Tables(t.vars - {owner}, t.alloc - {owner})
    ensures !(owner in t.vars && owner in t.alloc) ==> r.tables == t
  {
    if owner in t.vars && owner in t.alloc then
      Step(Tables(t.vars - {owner}, t.alloc - {owner}), Code(1))
    else
      Step(t, Code(1))
  }

  // ---------------------------------------------------------------------
  // The native call surface
  // ---------------------------------------------------------------------

  /**
   * A native call with its arguments as the store sees them. Names and
   * string values are host strings that may be null. The destination
   * address and the buffer size of PVarGetString and PVarGetNameAtIndex
   * are marshalling and are not carried.
   */
  datatype Native =
    | PVarSetInt(owner: int, name: Option<string>, number: Int32)
    | PVarGetInt(owner: int, name: Option<string>)
    | PVarSetString(owner: int, name: Option<string>, text: Option<string>)
    | PVarGetString(owner: int, name: Option<string>)
    | PVarSetFloat(owner: int, name: Option<string>, real32: Float32)
    | PVarGetFloat(owner: int, name: Option<string>)
    | PVarDelete(owner: int, name: Option<string>)
    | PVarsGetUpperIndex(owner: int)
    | PVarGetNameAtIndex(owner: int, index: int)
    | PVarGetType(owner: int, name: Option<string>)

  /** The parameter count each native's CHECK_PARAMS expects. */
  function Arity(n: Native): nat
  {
    match n
    case PVarSetInt(_, _, _) => 3
    case PVarGetInt(_, _) => 2
    case PVarSetString(_, _, _) => 3
    case PVarGetString(_, _) => 4
    case PVarSetFloat(_, _, _) => 3
    case PVarGetFloat(_, _) => 2
    case PVarDelete(_, _) => 2
    case PVarsGetUpperIndex(_) => 1
    case PVarGetNameAtIndex(_, _) => 4
    case PVarGetType(_, _) => 2
  }

  /** A native whose call does not change the tables. */
  predicate IsQuery(n: Native)
  {
    !(n.PVarSetInt? || n.PVarSetString? || n.PVarSetFloat? || n.PVarDelete?)
  }

  /**
   * A call from the script: rejected with 0 before touching the tables
   * when its parameter count is wrong, otherwise the native's effect and
   * reply, with every name lower-cased first.
   */
  ghost function Dispatch(t: Tables, paramBytes: int, n: Native): (r: Step)
    ensures !ParamsMatch(paramBytes, Arity(n)) ==> r == Step(t, Code(0))
    ensures IsQuery(n) ==> r.tables == t
  {
    if !ParamsMatch(paramBytes, Arity(n)) then Step(t, Code(0))
    else
      match n
      case PVarSetInt(o, name, i) => Set(t, o, Key(name), IntValue(i))
      case PVarSetString(o, name, s) => Set(t, o, Key(name), StringValue(StringParam(s, false)))
      case PVarSetFloat(o, name, f) => Set(t, o, Key(name), FloatValue(f))
      case PVarGetInt(o, name) =>
        Step(t, match GetInt(t, o, Key(name)) case Some(i) => Code(i as int) case None => Code(0))
      case PVarGetString(o, name) =>
        Step(t, match GetString(t, o, Key(name)) case Some(s) => Copied(s) case None => Code(0))
      case PVarGetFloat(o, name) =>
        Step(t, match GetFloat(t, o, Key(name)) case Some(f) => FloatBits(f) case None => Code(0))
      case PVarDelete(o, name) => Delete(t, o, Key(name))
      case PVarsGetUpperIndex(o) => Step(t, Code(UpperIndex(t, o)))
      case PVarGetNameAtIndex(o, i) =>
        Step(t, match NameAtIndex(t, o, i) case Some(k) => Copied(k) case None => Code(0))
      case PVarGetType(o, name) => Step(t, Code(GetType(t, o, Key(name))))
  }
}
