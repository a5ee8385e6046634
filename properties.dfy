/**
 * What the store promises across calls: every native keeps the coupled
 * invariant of mainMap and indexMap, indices are reused oldest-released
 * first, an owner leaves no residue, the upper-index query is one more
 * than the largest live index, and enumeration by index finds every
 * variable exactly once.
 */
module StoreProperties {
  import opened PVarTypes
  import opened Names
  import opened StoreModel

  // ---------------------------------------------------------------------
  // Live indices under the three map updates the natives perform
  // ---------------------------------------------------------------------

  lemma LiveInsert(d: DataMap, k: string, e: Entry)
    requires k !in d
    ensures Live(d[k := e]) == Live(d) + {e.index}
  {
    var d' := d[k := e];
    forall x | x in Live(d') ensures x in Live(d) + {e.index} {
      var j :| j in d' && d'[j].index == x;
      if j != k { assert d[j].index == x; }
    }
    forall x | x in Live(d) + {e.index} ensures x in Live(d') {
      if x == e.index { assert d'[k].index == x; }
      else { var j :| j in d && d[j].index == x; assert d'[j].index == x; }
    }
  }

  lemma LiveUpdate(d: DataMap, k: string, v: Value)
    requires k in d
    ensures Live(d[k := Entry(d[k].index, v)]) == Live(d)
  {
    var d' := d[k := Entry(d[k].index, v)];
    forall x | x in Live(d') ensures x in Live(d) {
      var j :| j in d' && d'[j].index == x;
      assert d[j].index == x;
    }
    forall x | x in Live(d) ensures x in Live(d') {
      var j :| j in d && d[j].index == x;
      assert d'[j].index == x;
    }
  }

  lemma LiveRemove(d: DataMap, k: string)
    requires k in d && IndicesUnique(d)
    ensures Live(d - {k}) == Live(d) - {d[k].index}
  {
    var d' := d - {k};
    forall x | x in Live(d') ensures x in Live(d) - {d[k].index} {
      var j :| j in d' && d'[j].index == x;
      assert d[j].index == x;
    }
    forall x | x in Live(d) - {d[k].index} ensures x in Live(d') {
      var j :| j in d && d[j].index == x;
      assert d'[j].index == x;
    }
  }

  lemma LiveMember(d: DataMap, k: string)
    requires k in d
    ensures d[k].index in Live(d)
  {
  }

  // ---------------------------------------------------------------------
  // The invariant is kept by every native
  // ---------------------------------------------------------------------

  lemma OwnerInvUpdate(d: DataMap, s: Slots, key: string, v: Value)
    requires OwnerInv(d, s) && key in d
    ensures OwnerInv(d[key := Entry(d[key].index, v)], s)
  {
    LiveUpdate(d, key, v);
  }

  lemma OwnerInvFirst(key: string, v: Value)
    requires IsLowered(key)
    ensures OwnerInv(map[key := Entry(0, v)], Slots(0, []))
  {
    LiveInsert(map[], key, Entry(0, v));
    assert Live(map[]) == {};
  }

  /** Taking the front of the queue moves one index from queued to live. */
  lemma {:induction false} OwnerInvPop(d: DataMap, s: Slots, key: string, v: Value)
    requires OwnerInv(d, s) && key !in d && IsLowered(key) && s.free != []
    ensures OwnerInv(d[key := Entry(s.free[0], v)], s.(free := s.free[1..]))
  {
    var i := s.free[0];
    var s' := s.(free := s.free[1..]);
    var d' := d[key := Entry(i, v)];
    LiveInsert(d, key, Entry(i, v));
    assert s.free == [i] + s'.free;
    assert forall x :: x in s.free <==> x == i || x in s'.free;
    assert i !in s'.free by {
      forall j | 0 <= j < |s'.free| ensures s'.free[j] != i {
        assert s.free[j + 1] == s'.free[j];
      }
    }
    assert NoRepeats(s'.free) by {
      forall j, l | 0 <= j < l < |s'.free| ensures s'.free[j] != s'.free[l] {
        assert s.free[j + 1] != s.free[l + 1];
      }
    }
    assert IndicesUnique(d') by {
      forall k | k in d ensures d[k].index != i { }
    }
  }

  /** With an empty queue, the pre-incremented counter is a fresh index. */
  lemma {:induction false} OwnerInvBump(d: DataMap, s: Slots, key: string, v: Value)
    requires OwnerInv(d, s) && key !in d && IsLowered(key) && s.free == []
    ensures OwnerInv(d[key := Entry(s.counter + 1, v)], s.(counter := s.counter + 1))
  {
    var i := s.counter + 1;
    var s' := s.(counter := i);
    var d' := d[key := Entry(i, v)];
    LiveInsert(d, key, Entry(i, v));
    forall k | k in d ensures d[k].index <= s.counter {
      LiveMember(d, k);
    }
    forall x | 0 <= x <= s'.counter ensures x in Live(d') {
      if x <= s.counter { assert x in Live(d); }
    }
  }

  /** Deleting a variable that is not the owner's last moves its index to the back of the queue. */
  lemma {:induction false} OwnerInvRelease(d: DataMap, s: Slots, key: string)
    requires OwnerInv(d, s) && key in d && d - {key} != map[]
    ensures OwnerInv(d - {key}, s.(free := s.free + [d[key].index]))
  {
    var i := d[key].index;
    var d' := d - {key};
    var s' := s.(free := s.free + [i]);
    LiveRemove(d, key);
    LiveMember(d, key);
    assert i !in s.free;
    assert forall x :: x in s'.free <==> x in s.free || x == i;
    assert NoRepeats(s'.free) by {
      forall j, l | 0 <= j < l < |s'.free| ensures s'.free[j] != s'.free[l] {
        if l < |s.free| { assert s'.free[j] == s.free[j] && s'.free[l] == s.free[l]; }
        else { assert s'.free[j] == s.free[j] && s'.free[l] == i; }
      }
    }
    forall k | k in d' ensures d'[k].index !in s'.free {
      assert d[k].index != i;
    }
  }

  /** Each branch of Set keeps the owner's indices partitioned. */
  lemma {:induction false} SetPreservesInv(t: Tables, owner: int, key: string, v: Value)
    requires Inv(t) && IsLowered(key)
    ensures Inv(Set(t, owner, key, v).tables)
  {
    var t' := Set(t, owner, key, v).tables;
    assert t'.vars.Keys == t'.alloc.Keys;
    forall o | o in t'.vars ensures OwnerInv(t'.vars[o], t'.alloc[o]) {
      if o != owner {
        assert t'.vars[o] == t.vars[o] && t'.alloc[o] == t.alloc[o];
      } else if owner in t.vars && key in t.vars[owner] {
        OwnerInvUpdate(t.vars[owner], t.alloc[owner], key, v);
      } else if owner !in t.alloc {
        OwnerInvFirst(key, v);
      } else if t.alloc[owner].free != [] {
        OwnerInvPop(t.vars[owner], t.alloc[owner], key, v);
      } else {
        OwnerInvBump(t.vars[owner], t.alloc[owner], key, v);
      }
    }
  }

  /** Deleting queues the index it frees, and drops an owner that becomes empty. */
  lemma {:induction false} DeletePreservesInv(t: Tables, owner: int, key: string)
    requires Inv(t)
    ensures Inv(Delete(t, owner, key).tables)
  {
    var t' := Delete(t, owner, key).tables;
    if owner in t.vars && key in t.vars[owner] {
      forall o | o in t'.vars ensures OwnerInv(t'.vars[o], t'.alloc[o]) {
        if o == owner {
          OwnerInvRelease(t.vars[owner], t.alloc[owner], key);
        } else {
          assert t'.vars[o] == t.vars[o] && t'.alloc[o] == t.alloc[o];
        }
      }
    }
  }

  lemma DisconnectPreservesInv(t: Tables, owner: int)
    requires Inv(t)
    ensures Inv(Disconnect(t, owner).tables)
  {
  }

  /** Every call the script can make keeps the invariant. */
  lemma DispatchPreservesInv(t: Tables, paramBytes: int, n: Native)
    requires Inv(t)
    ensures Inv(Dispatch(t, paramBytes, n).tables)
  {
    if ParamsMatch(paramBytes, Arity(n)) {
      match n
      case PVarSetInt(o, name, i) => SetPreservesInv(t, o, Key(name), IntValue(i));
      case PVarSetString(o, name, text) => SetPreservesInv(t, o, Key(name), StringValue(StringParam(text, false)));
      case PVarSetFloat(o, name, f) => SetPreservesInv(t, o, Key(name), FloatValue(f));
      case PVarDelete(o, name) => DeletePreservesInv(t, o, Key(name));
      case _ =>
    }
  }

  // ---------------------------------------------------------------------
  // Index allocation
  // ---------------------------------------------------------------------

  /** Under the invariant a freshly allocated index is held by no variable. */
  lemma AllocateIsFresh(t: Tables, owner: int)
    requires Inv(t)
    ensures Allocate(t.alloc, owner).index >= 0
    ensures owner in t.vars ==> Allocate(t.alloc, owner).index !in Live(t.vars[owner])
  {
    if owner in t.alloc {
      var s := t.alloc[owner];
      var d := t.vars[owner];
      var a := Allocate(t.alloc, owner);
      if s.free == [] {
        forall x | x in Live(d) ensures x <= s.counter { }
      } else {
        assert a.index in s.free;
      }
    }
  }

  /**
   * Released indices are reused oldest first: with an empty queue,
   * deleting a then b and creating two new names gives the first the
   * index a had and the second the index b had, even when the new names
   * are a and b again in either order.
   */
  lemma {:induction false} FifoReuse(t: Tables, owner: int, a: string, b: string, c: string,
                                     k1: string, k2: string, v1: Value, v2: Value)
    requires Inv(t) && owner in t.vars
    requires a in t.vars[owner] && b in t.vars[owner] && c in t.vars[owner]
    requires a != b && b != c && a != c
    requires t.alloc[owner].free == []
    requires k1 !in t.vars[owner] - {a, b} && k2 !in t.vars[owner] - {a, b} && k1 != k2
    ensures var t1 := Delete(t, owner, a).tables;
            var t2 := Delete(t1, owner, b).tables;
            var t3 := Set(t2, owner, k1, v1).tables;
            var t4 := Set(t3, owner, k2, v2).tables;
            && t4.vars[owner][k1].index == t.vars[owner][a].index
            && t4.vars[owner][k2].index == t.vars[owner][b].index
            && t4.alloc[owner] == t.alloc[owner]
  {
    var ia, ib := t.vars[owner][a].index, t.vars[owner][b].index;
    var s := t.alloc[owner];
    var r1 := Delete(t, owner, a);
    assert r1.reply == Code(1);
    assert owner in r1.tables.vars by {
      assert c in t.vars[owner].Keys && c != a;
    }
    assert a !in r1.tables.vars[owner] && b in r1.tables.vars[owner] && c in r1.tables.vars[owner];
    assert r1.tables.alloc[owner] == s.(free := [ia]);
    var r2 := Delete(r1.tables, owner, b);
    assert r2.reply == Code(1);
    assert owner in r2.tables.vars by {
      assert c in r1.tables.vars[owner].Keys && c != b;
    }
    assert r2.tables.alloc[owner] == s.(free := [ia, ib]);
    assert r2.tables.vars[owner] == t.vars[owner] - {a, b};
    assert k1 !in r2.tables.vars[owner] && k2 !in r2.tables.vars[owner];
    var r3 := Set(r2.tables, owner, k1, v1);
    assert r3.tables.vars[owner][k1].index == ia;
    assert r3.tables.alloc[owner] == s.(free := [ib]);
    assert k2 !in r3.tables.vars[owner];
    var r4 := Set(r3.tables, owner, k2, v2);
    assert r4.tables.vars[owner][k2].index == ib;
    assert r4.tables.vars[owner][k1].index == ia;
    assert r4.tables.alloc[owner] == s;
  }

  /**
   * Deleting an owner's last variable discards its counter and queue, so
   * the next variable it creates gets index 0 again.
   */
  lemma NumberingRestartsAfterLastDelete(t: Tables, owner: int, key: string, k: string, v: Value)
    requires Inv(t) && owner in t.vars && t.vars[owner].Keys == {key}
    ensures var t' := Set(Delete(t, owner, key).tables, owner, k, v).tables;
            t'.vars[owner] == map[k := Entry(0, v)] && t'.alloc[owner] == Slots(0, [])
  {
    assert t.vars[owner] - {key} == map[];
  }

  // ---------------------------------------------------------------------
  // Owner lifetime
  // ---------------------------------------------------------------------

  /** After the last variable is deleted, nothing of the owner remains. */
  lemma {:induction false} NoResidueAfterLastDelete(t: Tables, owner: int, key: string)
    requires Inv(t) && owner in t.vars && t.vars[owner].Keys == {key}
    ensures var t' := Delete(t, owner, key).tables;
            && owner !in t'.vars && owner !in t'.alloc
            && UpperIndex(t', owner) == 0
            && (forall k :: GetType(t', owner, k) == TypeNone)
            && (forall i :: NameAtIndex(t', owner, i).None?)
  {
    assert t.vars[owner] - {key} == map[];
  }

  /**
   * OnPlayerDisconnect, under the invariant, forgets the owner in both
   * maps and nothing else; calling it twice is calling it once.
   */
  lemma {:induction false} DisconnectForgetsOwner(t: Tables, owner: int)
    requires Inv(t)
    ensures var t' := Disconnect(t, owner).tables;
            && owner !in t'.vars && owner !in t'.alloc
            && t'.vars == t.vars - {owner} && t'.alloc == t.alloc - {owner}
            && UpperIndex(t', owner) == 0
            && (forall k :: GetType(t', owner, k) == TypeNone)
            && Disconnect(t', owner) == Disconnect(t, owner)
  {
    if owner in t.vars {
      assert owner in t.alloc;
    } else {
      assert owner !in t.alloc;
      assert t.vars - {owner} == t.vars;
      assert t.alloc - {owner} == t.alloc;
    }
  }

  // ---------------------------------------------------------------------
  // Typed access
  // ---------------------------------------------------------------------

  /**
   * A value set under a name is read back, through any spelling of the
   * name in another letter case, only by the getter of its own kind;
   * the other getters find nothing and the type query names its kind.
   * A null name reads as "" here as everywhere.
   */
  lemma {:induction false} SetThenGet(t: Tables, owner: int, name: Option<string>,
                                      other: Option<string>, v: Value)
    requires EqualIgnoringCase(StringParam(name, false), StringParam(other, false))
    ensures var t' := Set(t, owner, Key(name), v).tables;
            && Lookup(t', owner, Key(other)) == Some(v)
            && (GetInt(t', owner, Key(other)).Some? <==> v.IntValue?)
            && (GetString(t', owner, Key(other)).Some? <==> v.StringValue?)
            && (GetFloat(t', owner, Key(other)).Some? <==> v.FloatValue?)
            && (v.IntValue? ==> GetInt(t', owner, Key(other)) == Some(v.i))
            && (v.StringValue? ==> GetString(t', owner, Key(other)) == Some(v.s))
            && (v.FloatValue? ==> GetFloat(t', owner, Key(other)) == Some(v.f))
            && GetType(t', owner, Key(other)) == TypeCode(Some(v))
  {
    KeyCaseInsensitive(name, other);
  }

  /** Setting one variable changes what no other (owner, name) reads. */
  lemma SetLeavesOthers(t: Tables, owner: int, key: string, v: Value, o: int, k: string)
    requires o != owner || k != key
    ensures Lookup(Set(t, owner, key, v).tables, o, k) == Lookup(t, o, k)
  {
  }

  // ---------------------------------------------------------------------
  // Enumeration
  // ---------------------------------------------------------------------

  /** The characterising properties of MaxOf determine it. */
  lemma MaxOfUnique(s: set<int>, floor: int, m: int)
    requires floor <= m && (forall x :: x in s ==> x <= m) && (m == floor || m in s)
    ensures m == MaxOf(s, floor)
  {
  }

  /**
   * Under the invariant both non-zero branches of the upper-index query
   * give one more than the largest live index, so the query is an exact
   * exclusive bound on the owner's indices.
   */
  lemma {:induction false} UpperIndexIsMaxLivePlusOne(t: Tables, owner: int)
    requires Inv(t)
    ensures owner !in t.vars ==> UpperIndex(t, owner) == 0
    ensures owner in t.vars ==> UpperIndex(t, owner) == MaxOf(Live(t.vars[owner]), 0) + 1
    ensures owner in t.vars ==> UpperIndex(t, owner) - 1 in Live(t.vars[owner])
    ensures owner in t.vars ==> forall k :: k in t.vars[owner] ==>
      0 <= t.vars[owner][k].index < UpperIndex(t, owner)
  {
    if owner in t.vars {
      var d := t.vars[owner];
      var s := t.alloc[owner];
      var k0 :| k0 in d;
      LiveMember(d, k0);
      forall k | k in d ensures 0 <= d[k].index <= MaxOf(Live(d), 0) {
        LiveMember(d, k);
      }
      if s.free == [] {
        assert s.counter in Live(d);
        MaxOfUnique(Live(d), 0, s.counter);
      } else {
        assert d[k0].index >= 0;
      }
    }
  }

  /**
   * Looking a variable's index up again finds the variable itself:
   * indices identify variables uniquely, so the scan's first match is
   * the only one, and the name it reports is lower-case.
   */
  lemma {:induction false} NameAtIndexFindsOwnVariable(t: Tables, owner: int, key: string)
    requires Inv(t) && owner in t.vars && key in t.vars[owner]
    ensures NameAtIndex(t, owner, t.vars[owner][key].index) == Some(key)
    ensures IsLowered(key)
  {
    var r := NameAtIndex(t, owner, t.vars[owner][key].index);
    assert r.Some?;
    assert IndicesUnique(t.vars[owner]);
  }

  /**
   * Walking 0 .. upper-index - 1 with the name-at-index query visits
   * every variable of the owner, and nothing outside that range names a
   * variable.
   */
  lemma {:induction false} EnumerationIsComplete(t: Tables, owner: int)
    requires Inv(t)
    ensures forall k :: owner in t.vars && k in t.vars[owner] ==>
      var i := t.vars[owner][k].index;
      0 <= i < UpperIndex(t, owner) && NameAtIndex(t, owner, i) == Some(k)
    ensures forall i :: (i < 0 || i >= UpperIndex(t, owner)) ==> NameAtIndex(t, owner, i).None?
  {
    UpperIndexIsMaxLivePlusOne(t, owner);
    forall k | owner in t.vars && k in t.vars[owner]
      ensures NameAtIndex(t, owner, t.vars[owner][k].index) == Some(k)
    {
      NameAtIndexFindsOwnVariable(t, owner, k);
    }
  }
}

/**
 * Worked call sequences for one owner, starting from empty tables.
 */
module StoreScenarios {
  import opened PVarTypes
  import opened Names
  import opened StoreModel
  import opened StoreProperties

  /**
   * Updating keeps the index, a deleted index is the next one reused,
   * and enumeration by index sees the reuse.
   */
  lemma {:induction false} ReuseScenario(ratio: Float32)
    ensures
      var t1 := Set(Tables(map[], map[]), 5, "score", IntValue(10)).tables;
      var t2 := Set(t1, 5, "score", IntValue(20)).tables;
      var t3 := Set(t2, 5, "name", StringValue("Bob")).tables;
      var t4 := Delete(t3, 5, "score").tables;
      var t5 := Set(t4, 5, "ratio", FloatValue(ratio)).tables;
      && t1.vars[5]["score"].index == 0
      && t2.vars[5]["score"].index == 0 && GetInt(t2, 5, "score") == Some(20)
      && t3.vars[5]["name"].index == 1
      && t4.alloc == map[5 := Slots(1, [0])]
      && t5.vars[5]["ratio"].index == 0
      && NameAtIndex(t5, 5, 0) == Some("ratio")
      && NameAtIndex(t5, 5, 1) == Some("name")
  {
    var t1 := Set(Tables(map[], map[]), 5, "score", IntValue(10)).tables;
    var t2 := Set(t1, 5, "score", IntValue(20)).tables;
    var t3 := Set(t2, 5, "name", StringValue("Bob")).tables;
    ReuseFirstSets();
    ReuseDeleteThenSet(t3, ratio);
  }

  /** The first three sets of ReuseScenario, as concrete tables. */
  lemma ReuseFirstSets()
    ensures
      var t1 := Set(Tables(map[], map[]), 5, "score", IntValue(10)).tables;
      var t2 := Set(t1, 5, "score", IntValue(20)).tables;
      var t3 := Set(t2, 5, "name", StringValue("Bob")).tables;
      && t1.vars[5]["score"].index == 0
      && t2.vars[5]["score"].index == 0 && GetInt(t2, 5, "score") == Some(20)
      && t3 == Tables(map[5 := map["score" := Entry(0, IntValue(20)), "name" := Entry(1, StringValue("Bob"))]],
                      map[5 := Slots(1, [])])
  {
    var t1 := Set(Tables(map[], map[]), 5, "score", IntValue(10)).tables;
    var t2 := Set(t1, 5, "score", IntValue(20)).tables;
    var t3 := Set(t2, 5, "name", StringValue("Bob")).tables;
    assert t1.vars[5] == map["score" := Entry(0, IntValue(10))] && t1.alloc[5] == Slots(0, []);
    assert t2.vars[5] == map["score" := Entry(0, IntValue(20))] && t2.alloc[5] == Slots(0, []);
    assert t2.vars.Keys == {5} && t2.alloc.Keys == {5};
    assert t3.vars[5] == map["score" := Entry(0, IntValue(20)), "name" := Entry(1, StringValue("Bob"))];
    assert t3.alloc[5] == Slots(1, []);
    assert t3.vars.Keys == {5} && t3.alloc.Keys == {5};
  }

  /** The delete and the reusing set of ReuseScenario, from its concrete third tables. */
  lemma ReuseDeleteThenSet(t3: Tables, ratio: Float32)
    requires t3 == Tables(map[5 := map["score" := Entry(0, IntValue(20)), "name" := Entry(1, StringValue("Bob"))]],
                          map[5 := Slots(1, [])])
    ensures
      var t4 := Delete(t3, 5, "score").tables;
      var t5 := Set(t4, 5, "ratio", FloatValue(ratio)).tables;
      && t4.alloc == map[5 := Slots(1, [0])]
      && t5.vars[5]["ratio"].index == 0
      && NameAtIndex(t5, 5, 0) == Some("ratio")
      && NameAtIndex(t5, 5, 1) == Some("name")
  {
    var t4 := Delete(t3, 5, "score").tables;
    var t5 := Set(t4, 5, "ratio", FloatValue(ratio)).tables;
    var d3 := t3.vars[5];
    assert "name" != "score" by { assert "name"[0] != "score"[0]; }
    assert d3 == map["score" := Entry(0, IntValue(20)), "name" := Entry(1, StringValue("Bob"))];
    assert "name" in d3 && d3["score"].index == 0;
    assert "name" in d3 - {"score"} && "name" in d3.Keys;
    assert (d3 - {"score"}).Keys == {"name"};
    assert d3 - {"score"} == map["name" := Entry(1, StringValue("Bob"))];
    assert d3.Keys != {"score"} && t3.alloc[5].free + [0] == [0];
    assert t4.vars[5] == map["name" := Entry(1, StringValue("Bob"))];
    assert t4.alloc[5] == Slots(1, [0]) && t4.alloc.Keys == {5};
    assert t4.alloc == map[5 := Slots(1, [0])];
    var d5 := t5.vars[5];
    assert d5 == map["name" := Entry(1, StringValue("Bob")), "ratio" := Entry(0, FloatValue(ratio))];
    assert forall k :: k in d5 ==> k == "name" || k == "ratio";
  }

  /**
   * Three variables take indices 0, 1, 2 and the bound is 3; after the
   * middle one is deleted the queue is not empty, the bound comes from
   * the scan, and it is still 3.
   */
  lemma {:induction false} UpperIndexScenario(v: Value)
    ensures
      var t1 := Set(Tables(map[], map[]), 7, "a", v).tables;
      var t2 := Set(t1, 7, "b", v).tables;
      var t3 := Set(t2, 7, "c", v).tables;
      var t4 := Delete(t3, 7, "b").tables;
      && UpperIndex(t3, 7) == 3
      && t4.alloc == map[7 := Slots(2, [1])]
      && UpperIndex(t4, 7) == 3
  {
    var t1 := Set(Tables(map[], map[]), 7, "a", v).tables;
    var t2 := Set(t1, 7, "b", v).tables;
    var t3 := Set(t2, 7, "c", v).tables;
    UpperIndexFirstSets(v);
    UpperIndexAfterDelete(t3, v);
  }

  /** The three sets of UpperIndexScenario, as concrete tables. */
  lemma UpperIndexFirstSets(v: Value)
    ensures
      var t1 := Set(Tables(map[], map[]), 7, "a", v).tables;
      var t2 := Set(t1, 7, "b", v).tables;
      var t3 := Set(t2, 7, "c", v).tables;
      t3 == Tables(map[7 := map["a" := Entry(0, v), "b" := Entry(1, v), "c" := Entry(2, v)]],
                   map[7 := Slots(2, [])])
  {
    var t1 := Set(Tables(map[], map[]), 7, "a", v).tables;
    var t2 := Set(t1, 7, "b", v).tables;
    var t3 := Set(t2, 7, "c", v).tables;
    assert t1.vars[7] == map["a" := Entry(0, v)] && t1.alloc[7] == Slots(0, []);
    assert t2.vars[7] == map["a" := Entry(0, v), "b" := Entry(1, v)] && t2.alloc[7] == Slots(1, []);
    assert t3.vars[7] == map["a" := Entry(0, v), "b" := Entry(1, v), "c" := Entry(2, v)];
    assert t3.alloc[7] == Slots(2, []);
    assert t3.vars.Keys == {7} && t3.alloc.Keys == {7};
  }

  /** The bound before and after deleting "b", from the concrete tables of the three sets. */
  lemma UpperIndexAfterDelete(t3: Tables, v: Value)
    requires t3 == Tables(map[7 := map["a" := Entry(0, v), "b" := Entry(1, v), "c" := Entry(2, v)]],
                          map[7 := Slots(2, [])])
    ensures UpperIndex(t3, 7) == 3
    ensures Delete(t3, 7, "b").tables.alloc == map[7 := Slots(2, [1])]
    ensures UpperIndex(Delete(t3, 7, "b").tables, 7) == 3
  {
    var t4 := Delete(t3, 7, "b").tables;
    var d3 := t3.vars[7];
    assert "a" != "b" by { assert "a"[0] != "b"[0]; }
    assert "c" != "b" by { assert "c"[0] != "b"[0]; }
    assert d3 == map["a" := Entry(0, v), "b" := Entry(1, v), "c" := Entry(2, v)];
    assert "a" in d3 && d3["b"].index == 1;
    assert "a" in d3 - {"b"} && "a" in d3.Keys;
    assert t3.alloc[7].free + [1] == [1];
    var d4 := t4.vars[7];
    assert d4 == d3 - {"b"};
    assert t4.alloc[7] == Slots(2, [1]) && t4.alloc.Keys == {7};
    assert forall k :: k in d4 ==> k == "a" || k == "c";
    assert forall x :: x in Live(d4) ==> x <= 2;
    assert d4["c"].index == 2;
    MaxOfUnique(Live(d4), 0, 2);
  }

  /** Names differing only in letter case address the same variable. */
  lemma {:induction false} CaseScenario()
    ensures
      var t := Set(Tables(map[], map[]), 1, Key(Some("Health")), IntValue(100)).tables;
      GetInt(t, 1, Key(Some("health"))) == Some(100)
  {
    assert EqualIgnoringCase("Health", "health") by {
      assert SameLetterIgnoringCase('H', 'h');
    }
    SetThenGet(Tables(map[], map[]), 1, Some("Health"), Some("health"), IntValue(100));
  }
}
