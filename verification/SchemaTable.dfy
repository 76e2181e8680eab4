/**
 What every change of the schema does to the properties that each class has, its own and inherited.
 */
module SchemaTables {
  import opened Common
  import opened SchemaForest

  // Changing the properties of one class.

  /** Among `d` and the class it extends, `c` is above both or neither, unless it is `d`. */
  lemma AboveSuper(cs: Classes, c: nat, d: nat, s: nat)
    requires d in cs && cs[d].super == Some(s) && s < d && c != d
    ensures Above(cs, c, d) <==> Above(cs, c, s)
  {
  }

  lemma NotAboveOlder(cs: Classes, c: nat, s: nat)
    requires s < c
    ensures !Above(cs, c, s)
  {
    if Above(cs, c, s) {
      AboveIsKnown(cs, c, s);
    }
  }

  /** Keys that are not in `own` may be taken out, and others put in, before `own` is added. */
  lemma Exchange<K, V>(table: map<K, V>, own: map<K, V>, gone: set<K>, more: map<K, V>)
    requires gone !! own.Keys && more.Keys !! own.Keys
    ensures (table - gone + more) + own == (table + own) - gone + more
  {
  }

  /** The keys of a class are not among those it inherits. */
  lemma OwnIsNotInherited(cs: Classes, c: nat, s: nat, n: string)
    requires Clear(cs) && c in cs && cs[c].super == Some(s) && s < c && n in cs[c].properties
    ensures n !in Table(cs, s)
  {
    TableIsDefined(cs, s, n);
    OnChainMeans(cs, s, n);
    DefinerIsAbove(cs, s, n);
    forall a | Above(cs, a, s) && a in cs ensures n !in cs[a].properties {
      AboveIsKnown(cs, a, s);
      assert Above(cs, a, c);
      assert NoClash(cs, a, c, n);
    }
  }

  /** Exactly the class and those that extend it lose its old properties and gain its new ones. */
  lemma {:induction false} ChangedTable(cs: Classes, c: nat, properties: map<string, PropertyInfo>, d: nat)
    requires Forest(cs) && Clear(cs) && c in cs && Clear(Changed(cs, c, properties))
    ensures Table(Changed(cs, c, properties), d) ==
              if Above(cs, c, d) then Table(cs, d) - cs[c].properties.Keys + properties else Table(cs, d)
    decreases d
  {
    var after, old_ := Changed(cs, c, properties), cs[c].properties;
    assert LinkUp(cs, d);
    if d in cs && cs[d].super.Some? {
      var s := cs[d].super.value;
      ChangedTable(cs, c, properties, s);
      if d == c {
        NotAboveOlder(cs, c, s);
        forall n | n in old_ ensures n !in Table(cs, s) {
          OwnIsNotInherited(cs, c, s, n);
        }
        assert Table(cs, s) + old_ - old_.Keys == Table(cs, s);
      } else {
        AboveSuper(cs, c, d, s);
        if Above(cs, c, d) {
          BelowDefinesNone(cs, c, properties, d);
          Exchange(Table(cs, s), cs[d].properties, old_.Keys, properties);
        }
      }
    } else if d == c {
      assert old_ - old_.Keys + properties == properties;
    }
  }

  /** A class further down defines neither the old nor the new properties of `c`. */
  lemma BelowDefinesNone(cs: Classes, c: nat, properties: map<string, PropertyInfo>, d: nat)
    requires Clear(cs) && c in cs && Clear(Changed(cs, c, properties)) && Above(cs, c, d) && c != d
    ensures cs[c].properties.Keys !! cs[d].properties.Keys && properties.Keys !! cs[d].properties.Keys
  {
    var after := Changed(cs, c, properties);
    assert after.Keys == cs.Keys;
    SameAbove(cs, after, c, d);
    forall n | n in cs[d].properties ensures n !in cs[c].properties && n !in properties {
      assert NoClash(cs, c, d, n) && NoClash(after, c, d, n);
    }
  }

  /** Changing a part of a table. */
  lemma PartOfTable<V>(table: map<string, V>, own: map<string, V>, was: string, n: string, info: V)
    requires forall m :: m in own ==> m in table && table[m] == own[m]
    ensures table - own.Keys + own[n := info] == table[n := info]
    ensures was in own ==> table - own.Keys + (own - {was})[n := info] == (table - {was})[n := info]
    ensures was in own ==> table - own.Keys + (own - {was}) == table - {was}
  {
  }

  /** A new property is had by exactly the class it is added to and the classes that extend it. */
  lemma AddedPropertyTable(cs: Classes, maxClass: nat, maxProperty: nat, c: nat, n: string, info: PropertyInfo, d: nat)
    requires Valid(cs, maxClass, maxProperty) && c in cs && !OnChain(cs, c, n) && !InSubtree(cs, maxClass, c, n)
    ensures Table(Changed(cs, c, cs[c].properties[n := info]), d) ==
              if Above(cs, c, d) then Table(cs, d)[n := info] else Table(cs, d)
  {
    var properties := cs[c].properties[n := info];
    ChangedClear(cs, maxClass, c, properties, n);
    ChangedTable(cs, c, properties, d);
    if Above(cs, c, d) {
      forall m | m in cs[c].properties ensures m in Table(cs, d) && Table(cs, d)[m] == cs[c].properties[m] {
        Inherits(cs, c, d, m);
      }
      PartOfTable(Table(cs, d), cs[c].properties, n, n, info);
    }
  }

  /** A class has the properties of every class it extends. */
  lemma Inherits(cs: Classes, c: nat, d: nat, m: string)
    requires Clear(cs) && c in cs && Above(cs, c, d) && m in cs[c].properties
    ensures m in Table(cs, d) && Table(cs, d)[m] == cs[c].properties[m]
  {
    DefinerIsUnique(cs, d, m, c);
    TableIsDefined(cs, d, m);
  }

  /** A renamed property keeps its id and its index, in exactly the class that defines it and those that extend it. */
  lemma RenamedPropertyTable(cs: Classes, maxClass: nat, maxProperty: nat, c: nat, was: string, n: string, d: nat)
    requires Valid(cs, maxClass, maxProperty) && c in cs && was in cs[c].properties
    requires !OnChain(cs, c, n) && !InSubtree(cs, maxClass, c, n)
    ensures Above(cs, c, d) ==> was in Table(cs, d)
    ensures Table(Changed(cs, c, (cs[c].properties - {was})[n := cs[c].properties[was]]), d) ==
              if Above(cs, c, d) then (Table(cs, d) - {was})[n := Table(cs, d)[was]] else Table(cs, d)
  {
    var properties := (cs[c].properties - {was})[n := cs[c].properties[was]];
    ChangedClear(cs, maxClass, c, properties, n);
    ChangedTable(cs, c, properties, d);
    if Above(cs, c, d) {
      forall m | m in cs[c].properties ensures m in Table(cs, d) && Table(cs, d)[m] == cs[c].properties[m] {
        Inherits(cs, c, d, m);
      }
      PartOfTable(Table(cs, d), cs[c].properties, was, n, cs[c].properties[was]);
    }
  }

  /** A removed property is gone from exactly the class that defined it and those that extend it. */
  lemma RemovedPropertyTable(cs: Classes, maxClass: nat, maxProperty: nat, c: nat, n: string, d: nat)
    requires Valid(cs, maxClass, maxProperty) && c in cs && n in cs[c].properties
    ensures Above(cs, c, d) ==> n in Table(cs, d)
    ensures Table(Changed(cs, c, cs[c].properties - {n}), d) ==
              if Above(cs, c, d) then Table(cs, d) - {n} else Table(cs, d)
  {
    WithoutPropertyValid(cs, maxClass, maxProperty, c, n);
    ChangedTable(cs, c, cs[c].properties - {n}, d);
    if Above(cs, c, d) {
      forall m | m in cs[c].properties ensures m in Table(cs, d) && Table(cs, d)[m] == cs[c].properties[m] {
        Inherits(cs, c, d, m);
      }
      PartOfTable(Table(cs, d), cs[c].properties, n, n, cs[c].properties[n]);
    }
  }

  // New classes.

  /** A class whose chain does not change keeps its properties. */
  lemma {:induction false} SameTable(cs: Classes, after: Classes, d: nat)
    requires Forest(cs) && forall k :: Above(cs, k, d) ==>
               k in cs && k in after && after[k].super == cs[k].super && after[k].properties == cs[k].properties
    requires d in cs
    ensures Table(after, d) == Table(cs, d)
    decreases d
  {
    assert Above(cs, d, d) && LinkUp(cs, d);
    if cs[d].super.Some? {
      var s := cs[d].super.value;
      forall k | Above(cs, k, s)
        ensures k in cs && k in after && after[k].super == cs[k].super && after[k].properties == cs[k].properties {
        AboveIsKnown(cs, k, s);
        assert Above(cs, k, d);
      }
      SameTable(cs, after, s);
    }
  }

  lemma AddedKeeps(cs: Classes, after: Classes, id: nat, d: nat)
    requires Forest(cs) && id !in cs && d in cs && forall k :: k in cs ==> k in after
    requires forall k :: k in cs ==> after[k].super == cs[k].super && after[k].properties == cs[k].properties
    ensures Table(after, d) == Table(cs, d)
  {
    forall k | Above(cs, k, d)
      ensures k in cs && k in after && after[k].super == cs[k].super && after[k].properties == cs[k].properties {
      AboveIsKnown(cs, k, d);
    }
    SameTable(cs, after, d);
  }

  /** A new class has no properties, or exactly those of the class it extends; no other class gains or loses any. */
  lemma NewClassTable(cs: Classes, maxClass: nat, maxProperty: nat, id: nat, name: string, kind: Kind, s: nat, d: nat)
    requires Valid(cs, maxClass, maxProperty) && id == maxClass + 1 && s in cs
    ensures Table(Added(cs, id, name, kind), id) == map[] && Table(Extended(cs, id, name, s), id) == Table(cs, s)
    ensures d in cs ==> Table(Added(cs, id, name, kind), d) == Table(cs, d) == Table(Extended(cs, id, name, s), d)
  {
    assert InRange(cs, maxClass, id) && InRange(cs, maxClass, s);
    AddedKeeps(cs, Extended(cs, id, name, s), id, s);
    assert Table(cs, s) + map[] == Table(cs, s);
    if d in cs {
      AddedKeeps(cs, Extended(cs, id, name, s), id, d);
      AddedKeeps(cs, Added(cs, id, name, kind), id, d);
    }
  }

  // Dropping a class.

  lemma LosesAbove(table: map<string, PropertyInfo>, own: map<string, PropertyInfo>, gone: set<string>)
    requires gone !! own.Keys
    ensures (table - gone) + own == (table + own) - gone
  {
  }

  lemma BelowIsDisjoint(cs: Classes, id: nat, d: nat)
    requires Clear(cs) && id in cs && Above(cs, id, d) && d != id
    ensures cs[id].properties.Keys !! cs[d].properties.Keys
  {
    forall n | n in cs[id].properties ensures n !in cs[d].properties {
      assert NoClash(cs, id, d, n);
    }
  }

  /** A class directly below the one dropped inherits from the class above it from now on. */
  lemma DroppedChild(cs: Classes, id: nat, d: nat)
    requires Forest(cs) && Clear(cs) && id in cs && d in cs && cs[d].super == Some(id)
    requires cs[id].super.Some? ==> Table(Dropped(cs, id), cs[id].super.value) == Table(cs, cs[id].super.value)
    ensures Table(Dropped(cs, id), d) == Table(cs, d) - cs[id].properties.Keys && Above(cs, id, d)
  {
    assert LinkUp(cs, d) && LinkUp(cs, id) && d in cs[id].subs;
    DroppedTop(cs, id);
    BelowIsDisjoint(cs, id, d);
    LosesAbove(Table(cs, id), cs[d].properties, cs[id].properties.Keys);
    assert Dropped(cs, id)[d] == cs[d].(super := cs[id].super);
    assert map[] + cs[d].properties == cs[d].properties;
  }

  /** Exactly the classes that extended the one dropped lose its properties, and only those. */
  lemma {:induction false} DroppedTable(cs: Classes, id: nat, d: nat)
    requires Forest(cs) && Clear(cs) && id in cs && d != id
    ensures Table(Dropped(cs, id), d) ==
              if Above(cs, id, d) then Table(cs, d) - cs[id].properties.Keys else Table(cs, d)
    decreases d
  {
    assert LinkUp(cs, d) && LinkUp(cs, id) && LinkDown(cs, id, d);
    if d in cs && cs[d].super == Some(id) {
      if cs[id].super.Some? {
        NotAboveOlder(cs, id, cs[id].super.value);
        DroppedTable(cs, id, cs[id].super.value);
      }
      DroppedChild(cs, id, d);
    } else if d in cs && cs[d].super.Some? {
      var s := cs[d].super.value;
      AboveSuper(cs, id, d, s);
      DroppedTable(cs, id, s);
      if Above(cs, id, d) {
        BelowIsDisjoint(cs, id, d);
        LosesAbove(Table(cs, s), cs[d].properties, cs[id].properties.Keys);
      }
    }
  }

  /** What the class dropped had, less its own, is what it inherited. */
  lemma DroppedTop(cs: Classes, id: nat)
    requires Forest(cs) && Clear(cs) && id in cs
    ensures Table(cs, id) - cs[id].properties.Keys ==
              if cs[id].super.Some? then Table(cs, cs[id].super.value) else map[]
  {
    assert LinkUp(cs, id);
    if cs[id].super.Some? {
      forall n | n in cs[id].properties ensures n !in Table(cs, cs[id].super.value) {
        OwnIsNotInherited(cs, id, cs[id].super.value, n);
      }
    }
  }
}
