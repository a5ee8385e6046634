/**
 * The plugin's store as it runs: one object holding the two global maps
 * of include/main.cpp, mainMap as `vars` and indexMap as `alloc`, whose
 * methods update them in place the way the natives do. Each method is
 * proved to leave exactly the tables the corresponding StoreModel
 * function describes, and to keep the invariant.
 */
module PVarStore {
  import opened PVarTypes
  import opened Names
  import opened StoreModel
  import opened StoreProperties

  class Store {
    /** mainMap: owner to its variables, keyed by lower-cased name. */
    var vars: map<int, DataMap>
    /** indexMap: owner to its counter and queue of released indices. */
    var alloc: map<int, Slots>

    /** Both maps as one value. */
    function State(): Tables
      reads this
    {
      Tables(vars, alloc)
    }

    ghost predicate Valid()
      reads this
    {
      Inv(State())
    }

    /** The plugin starts with both maps empty. */
    constructor ()
      ensures Valid()
      ensures vars == map[] && alloc == map[]
    {
      vars := map[];
      alloc := map[];
    }

    /** n_PVarSetInt, n_PVarSetString, n_PVarSetFloat after their arguments are read. */
    method Set(owner: int, name: Option<string>, v: Value) returns (ret: int)
      requires Valid()
      modifies this
      ensures Valid()
      ensures Step(State(), Code(ret)) == StoreModel.Set(old(State()), owner, Key(name), v)
    {
      ghost var before := State();
      var key := Key(name);
      if owner in vars && key in vars[owner] {
        var entry := vars[owner][key];
        vars := vars[owner := vars[owner][key := Entry(entry.index, v)]];
        assert State() == StoreModel.Set(before, owner, key, v).tables;
        SetPreservesInv(before, owner, key, v);
        return 1;
      }
      var index := 0;
      if owner in alloc {
        var slots := alloc[owner];
        if slots.free != [] {
          index := slots.free[0];
          alloc := alloc[owner := slots.(free := slots.free[1..])];
        } else {
          index := slots.counter + 1;
          alloc := alloc[owner := slots.(counter := index)];
        }
      } else {
        alloc := alloc[owner := Slots(0, [])];
      }
      ghost var a := Allocate(before.alloc, owner);
      assert index == a.index && alloc == before.alloc[owner := a.slots];
      var d := if owner in vars then vars[owner] else map[];
      vars := vars[owner := d[key := Entry(index, v)]];
      assert State() == StoreModel.Set(before, owner, key, v).tables;
      SetPreservesInv(before, owner, key, v);
      return 1;
    }

    /** n_PVarDelete after its arguments are read. */
    method Delete(owner: int, name: Option<string>) returns (ret: int)
      requires Valid()
      modifies this
      ensures Valid()
      ensures Step(State(), Code(ret)) == StoreModel.Delete(old(State()), owner, Key(name))
    {
      ghost var before := State();
      var key := Key(name);
      if owner in vars && key in vars[owner] {
        var d := vars[owner];
        if owner in alloc {
          alloc := alloc[owner := alloc[owner].(free := alloc[owner].free + [d[key].index])];
        }
        d := d - {key};
        if d == map[] {
          alloc := alloc - {owner};
          vars := vars - {owner};
        } else {
          vars := vars[owner := d];
        }
        DeletePreservesInv(before, owner, key);
        return 1;
      }
      return 0;
    }

    /** OnPlayerDisconnect */
    method Disconnect(owner: int) returns (ret: bool)
      requires Valid()
      modifies this
      ensures Valid()
      ensures ret
      ensures State() == StoreModel.Disconnect(old(State()), owner).tables
    {
      if owner in vars {
        if owner in alloc {
          alloc := alloc - {owner};
          vars := vars - {owner};
        }
      }
      return true;
    }

    /** n_PVarsGetUpperIndex: the fast path, then a scan for the largest index. */
    method UpperIndex(owner: int) returns (r: int)
      ensures r == StoreModel.UpperIndex(State(), owner)
    {
      var index := 0;
      if owner in alloc && alloc[owner].free == [] {
        index := alloc[owner].counter;
        return index + 1;
      }
      if owner in vars {
        var d := vars[owner];
        var todo := d.Keys;
        while todo != {}
          invariant todo <= d.Keys
          invariant 0 <= index
          invariant forall k :: k in d && k !in todo ==> d[k].index <= index
          invariant index == 0 || index in Live(d)
          decreases todo
        {
          var k :| k in todo;
          if d[k].index > index {
            index := d[k].index;
          }
          todo := todo - {k};
        }
        MaxOfUnique(Live(d), 0, index);
        return index + 1;
      }
      return 0;
    }

    /** n_PVarGetNameAtIndex: a scan for the variable holding the index. */
    method NameAtIndex(owner: int, index: int) returns (name: Option<string>)
      requires Valid()
      ensures name == StoreModel.NameAtIndex(State(), owner, index)
    {
      if owner in vars {
        var d := vars[owner];
        var todo := d.Keys;
        while todo != {}
          invariant todo <= d.Keys
          invariant forall k :: k in d && k !in todo ==> d[k].index != index
          decreases todo
        {
          var k :| k in todo;
          if d[k].index == index {
            NameAtIndexFindsOwnVariable(State(), owner, k);
            return Some(k);
          }
          todo := todo - {k};
        }
      }
      return None;
    }

    /**
     * A native call from the script: the parameter-count guard first,
     * then the native on lower-cased names.
     */
    method Call(paramBytes: int, n: Native) returns (reply: Reply)
      requires Valid()
      modifies this
      ensures Valid()
      ensures Step(State(), reply) == Dispatch(old(State()), paramBytes, n)
    {
      if !ParamsMatch(paramBytes, Arity(n)) {
        return Code(0);
      }
      match n
      case PVarSetInt(o, name, i) =>
        var ret := Set(o, name, IntValue(i));
        reply := Code(ret);
      case PVarSetString(o, name, text) =>
        var ret := Set(o, name, StringValue(StringParam(text, false)));
        reply := Code(ret);
      case PVarSetFloat(o, name, f) =>
        var ret := Set(o, name, FloatValue(f));
        reply := Code(ret);
      case PVarGetInt(o, name) =>
        reply := match GetInt(State(), o, Key(name)) case Some(i) => Code(i as int) case None => Code(0);
      case PVarGetString(o, name) =>
        reply := match GetString(State(), o, Key(name)) case Some(s) => Copied(s) case None => Code(0);
      case PVarGetFloat(o, name) =>
        reply := match GetFloat(State(), o, Key(name)) case Some(f) => FloatBits(f) case None => Code(0);
      case PVarDelete(o, name) =>
        var ret := Delete(o, name);
        reply := Code(ret);
      case PVarsGetUpperIndex(o) =>
        var bound := UpperIndex(o);
        reply := Code(bound);
      case PVarGetNameAtIndex(o, i) =>
        var found := NameAtIndex(o, i);
        reply := match found case Some(k) => Copied(k) case None => Code(0);
      case PVarGetType(o, name) =>
        reply := Code(GetType(State(), o, Key(name)));
    }
  }
}
