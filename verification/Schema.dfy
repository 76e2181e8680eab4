/**
 The schema as one writer sees and changes it, in place: classes, descriptors of dropped classes that are still held,
 counters, and the table from which the classes are rebuilt.
 */
module Schemas {
  import opened Common
  import opened SchemaForest
  import opened SchemaNames
  import opened SchemaDrops

  datatype SchemaError =
    | InvalidName | LimitReached | DuplicateClass | NoClass | PropertyInUse
    | DuplicateProperty | OverrideProperty | NoProperty

  datatype Result<T> = Ok(value: T) | Err(error: SchemaError)

  const CLASS_LIMIT: nat := 0xFFFE
  const PROPERTY_LIMIT: nat := 0xFFFF

  /** Class ids up to this one are not given to classes. */
  const FIRST_CLASS: nat := 4

  /** A row of the table of classes; a superclass of 0 is none. */
  datatype ClassRow = ClassRow(name: string, kind: Kind, super: nat)

  function RowOf(c: Class): ClassRow {
    ClassRow(c.name, c.kind, if c.super.Some? then c.super.value else 0)
  }

  function RowsOf(cs: Classes): map<nat, ClassRow> {
    map c | c in cs :: RowOf(cs[c])
  }

  lemma AddedRows(cs: Classes, id: nat, name: string, kind: Kind)
    ensures RowsOf(Added(cs, id, name, kind)) == RowsOf(cs)[id := ClassRow(name, kind, 0)]
  {
  }

  lemma ExtendedRows(cs: Classes, id: nat, name: string, s: nat)
    requires s in cs && id !in cs
    ensures RowsOf(Extended(cs, id, name, s)) == RowsOf(cs)[id := ClassRow(name, cs[s].kind, s)]
  {
  }

  /** What holds between transactions and during them. */
  ghost predicate Sane(view: View, stored: set<nat>, table: map<nat, ClassRow>, maxClass: nat, maxProperty: nat) {
    && SchemaForest.Valid(view.live, maxClass, maxProperty)
    && table == RowsOf(view.live) && Tidy(view, stored, maxClass)
  }

  lemma AddedSane(view: View, stored: set<nat>, table: map<nat, ClassRow>, maxClass: nat, maxProperty: nat, id: nat,
                  name: string, kind: Kind)
    requires Sane(view, stored, table, maxClass, maxProperty) && id == maxClass + 1 && name != ""
    ensures var live := Added(view.live, id, name, kind);
            && Sane(View(live, view.held, view.recent + {id}, view.touched + {id}), stored,
                    table[id := ClassRow(name, kind, 0)], id, maxProperty)
            && (OneName(live) <==> OneName(view.live) && !Taken(view.live, name))
  {
    var live := Added(view.live, id, name, kind);
    assert InRange(view.live, maxClass, id);
    AddedValid(view.live, maxClass, maxProperty, id, name, kind);
    AddedNames(view.live, live, id, name);
    AddedRows(view.live, id, name, kind);
    TidyChange(view, View(live, view.held, view.recent + {id}, view.touched + {id}), stored, maxClass, id, id, true);
  }

  lemma ExtendedSane(view: View, stored: set<nat>, table: map<nat, ClassRow>, maxClass: nat, maxProperty: nat, id: nat,
                     name: string, s: nat)
    requires Sane(view, stored, table, maxClass, maxProperty) && id == maxClass + 1 && name != "" && s in view.live
    ensures var live := Extended(view.live, id, name, s);
            && Sane(View(live, view.held, view.recent + {id}, view.touched + {s, id}), stored,
                    table[id := ClassRow(name, view.live[s].kind, s)], id, maxProperty)
            && (OneName(live) <==> OneName(view.live) && !Taken(view.live, name))
  {
    var live := Extended(view.live, id, name, s);
    assert InRange(view.live, maxClass, s) && InRange(view.live, maxClass, id);
    ExtendedValid(view.live, maxClass, maxProperty, id, name, s);
    AddedNames(view.live, live, id, name);
    ExtendedRows(view.live, id, name, s);
    TidyChange(view, View(live, view.held, view.recent + {id}, view.touched + {s, id}), stored, maxClass, id, id, true);
  }

  lemma RenamedSane(view: View, stored: set<nat>, table: map<nat, ClassRow>, maxClass: nat, maxProperty: nat, c: nat,
                    name: string)
    requires Sane(view, stored, table, maxClass, maxProperty) && c in view.live && name != ""
    ensures var live := view.live[c := view.live[c].(name := name)];
            && Sane(View(live, view.held, view.recent + {c}, view.touched + {c}), stored, table[c := RowOf(live[c])],
                    maxClass, maxProperty)
            && (OneName(view.live) ==> (OneName(live) <==> forall d :: Named(view.live, name, d) ==> d == c))
  {
    var live := view.live[c := view.live[c].(name := name)];
    RenamedValid(view.live, maxClass, maxProperty, c, name);
    if OneName(view.live) {
      RenamedNames(view.live, c, name);
    }
    RenamedRows(view.live, c, name);
    TidyChange(view, View(live, view.held, view.recent + {c}, view.touched + {c}), stored, maxClass, maxClass, c, true);
  }

  /** Changing the properties of a class touches it. */
  lemma ChangedSane(view: View, stored: set<nat>, table: map<nat, ClassRow>, maxClass: nat, maxProperty: nat, c: nat,
                    properties: map<string, PropertyInfo>, most: nat)
    requires Sane(view, stored, table, maxClass, maxProperty) && c in view.live
    requires SchemaForest.Valid(Changed(view.live, c, properties), maxClass, most)
    ensures Sane(View(Changed(view.live, c, properties), view.held, view.recent, view.touched + {c}), stored, table,
                 maxClass, most)
  {
    ChangedRows(view.live, c, properties);
    TidyChange(view, View(Changed(view.live, c, properties), view.held, view.recent, view.touched + {c}), stored,
               maxClass, maxClass, c, false);
  }

  lemma ErasedSane(view: View, after: View, stored: set<nat>, table: map<nat, ClassRow>, maxClass: nat,
                   maxProperty: nat, id: nat)
    requires Sane(view, stored, table, maxClass, maxProperty) && id in view.live && after.live == Dropped(view.live, id)
    requires after.held == if id in stored then view.held[id := view.live[id].name] else view.held
    requires after.recent == if id in stored then view.recent else view.recent - {id}
    requires after.touched ==
               (if id in stored then view.touched + {id} else view.touched - {id}) + Around(view.live, id)
    ensures Sane(after, stored - {id}, RowsOf(after.live), maxClass, maxProperty)
  {
    DroppedValid(view.live, maxClass, maxProperty, id);
    AroundIsKnown(view.live, id);
    assert InRange(view.live, maxClass, id);
    TidyErase(view, after, stored, maxClass, id, Around(view.live, id));
  }

  lemma RenamedRows(cs: Classes, c: nat, name: string)
    requires c in cs
    ensures var after := cs[c := cs[c].(name := name)]; RowsOf(after) == RowsOf(cs)[c := RowOf(after[c])]
  {
  }

  lemma ChangedRows(cs: Classes, c: nat, properties: map<string, PropertyInfo>)
    requires c in cs
    ensures RowsOf(Changed(cs, c, properties)) == RowsOf(cs)
  {
  }

  predicate IsLetter(ch: char) {
    'A' <= ch <= 'Z' || 'a' <= ch <= 'z' || ch == '_'
  }

  predicate NameOk(name: string) {
    && name != [] && (IsLetter(name[0]) || name[0] == '@')
    && forall i :: 1 <= i < |name| ==> IsLetter(name[i]) || '0' <= name[i] <= '9'
  }

  /** The names of the built-in properties are names that a property may be given. */
  lemma BuiltInNamesAreOk(n: string)
    requires n in BuiltIns()
    ensures NameOk(n)
  {
  }

  class Schema {
    var classes: Classes

    /** Dropped classes whose descriptors are still in the shared table, with their names. */
    var held: map<nat, string>

    /** The classes that are in the shared table; any other was created by this transaction. */
    var stored: set<nat>

    /** The classes, held ones included, that got their names from this transaction. */
    var recent: set<nat>

    /** The classes, held ones included, that this transaction has created or changed. */
    var touched: set<nat>

    var table: map<nat, ClassRow>
    var maxClassId: nat
    var maxPropertyId: nat

    ghost predicate Valid()
      reads this
    {
      Sane(View(), stored, table, maxClassId, maxPropertyId)
    }

    function View(): View
      reads this
    {
      SchemaNames.View(classes, held, recent, touched)
    }

    constructor ()
      ensures Valid() && View() == SchemaNames.View(map[], map[], {}, {}) && stored == {}
      ensures maxClassId == FIRST_CLASS && maxPropertyId == BUILT_IN_IDS
    {
      classes, held, stored, recent, touched, table := map[], map[], {}, {}, {}, map[];
      maxClassId, maxPropertyId := FIRST_CLASS, BUILT_IN_IDS;
    }

    // Lookup by name.

    /**
     The pass over the descriptors that the transaction has touched, in order of their ids. It compares with the name
     that the transaction has given, which is empty where it has given none.
     */
    method FindOwn(name: string) returns (r: Option<nat>)
      requires Valid()
      ensures r.None? <==> forall c :: c in touched ==> !IsOwn(c, name)
      ensures r.Some? ==> r.value in touched && IsOwn(r.value, name)
      ensures r.Some? ==> forall c :: c in touched && IsOwn(c, name) ==> r.value <= c
    {
      InKeys();
      for c := 0 to maxClassId + 1
        invariant forall d :: d in touched && d < c ==> !IsOwn(d, name)
      {
        if c in touched {
          var own := if c !in recent then "" else if c in classes then classes[c].name else held[c];
          if own == name {
            return Some(c);
          }
        }
      }
      return None;
    }

    predicate IsOwn(c: nat, name: string)
      reads this
    {
      if c in recent then View().Calls(c, name) else name == ""
    }

    /** The pass over the shared table. */
    method FindStored(name: string) returns (r: Option<nat>)
      requires Valid()
      ensures r.None? <==> forall c :: c in stored + held.Keys ==> !View().Calls(c, name)
      ensures r.Some? ==> r.value in stored + held.Keys && View().Calls(r.value, name)
      ensures r.Some? ==> forall c :: c in stored + held.Keys && View().Calls(c, name) ==> r.value <= c
    {
      InKeys();
      for c := 0 to maxClassId + 1
        invariant forall d :: d in stored + held.Keys && d < c ==> !View().Calls(d, name)
      {
        if c in stored + held.Keys && (if c in classes then classes[c].name == name else held[c] == name) {
          return Some(c);
        }
      }
      return None;
    }

    /** `Schema::find`: the transaction's own names first, then the shared table; a dropped class ends the search. */
    method Find(name: string) returns (r: Option<nat>)
      requires Valid()
      ensures r.None? <==> !View().Shown(name)
      ensures r.Some? ==> View().Shows(name, r.value)
    {
      var own := FindOwn(name);
      var all := FindStored(name);
      NoneBears(name, own, all);
      var first := if own.Some? then own else all;
      if first.None? {
        return None;
      }
      var c := first.value;
      ComesFirst(c, name, own);
      if c in held {
        assert View().Hides(name, c);
        HiddenName(View(), name, c);
        return None;
      }
      assert View().Shows(name, c);
      return Some(c);
    }

    lemma InKeys()
      requires Valid()
      ensures forall c :: c in touched || c in stored || c in held ==> c <= maxClassId && (c in classes || c in held)
      ensures forall c :: c in classes ==> c in stored || c in recent
    {
      forall c: nat ensures c in classes ==> c <= maxClassId {
        assert InRange(classes, maxClassId, c);
      }
    }

    lemma NoneBears(name: string, own: Option<nat>, all: Option<nat>)
      requires Valid() && (own.None? ==> forall c :: c in touched ==> !IsOwn(c, name))
      requires all.None? ==> forall c :: c in stored + held.Keys ==> !View().Calls(c, name)
      ensures own.None? && all.None? ==> forall c :: !View().Bears(c, name)
      ensures own.None? ==> forall c :: c in recent ==> !View().Bears(c, name)
      ensures own.None? && name == "" ==> forall c :: !View().Bears(c, name)
    {
      InKeys();
    }

    /** What a pass finds first comes before everything else that bears the name. */
    lemma ComesFirst(c: nat, name: string, own: Option<nat>)
      requires Valid()
      requires own.Some? ==>
                 c == own.value && c in touched && IsOwn(c, name)
                 && forall d :: d in touched && IsOwn(d, name) ==> c <= d
      requires own.None? ==>
                 && c in stored + held.Keys && View().Calls(c, name) && name != ""
                 && (forall d :: d in recent ==> !View().Bears(d, name))
                 && forall d :: d in stored + held.Keys && View().Calls(d, name) ==> c <= d
      ensures (c in classes || c in held) && View().Bears(c, name)
      ensures forall d :: View().Bears(d, name) && d != c ==> View().Before(c, d)
    {
      InKeys();
    }

    // Creating and renaming.

    /** The id is taken before the name is checked, and is not given back. */
    method Create(name: string, kind: Kind) returns (r: Result<nat>)
      requires Valid()
      modifies this
      ensures Valid() && maxPropertyId == old(maxPropertyId) && held == old(held) && stored == old(stored)
      ensures r == Err(InvalidName) <==> !NameOk(name)
      ensures r == Err(LimitReached) <==> NameOk(name) && old(maxClassId) >= CLASS_LIMIT
      ensures r == Err(DuplicateClass) <==> NameOk(name) && old(maxClassId) < CLASS_LIMIT && old(View()).Shown(name)
      ensures r.Ok? ==> r.value == old(maxClassId) + 1 && classes == Added(old(classes), r.value, name, kind)
      ensures r.Ok? ==> recent == old(recent) + {r.value} && touched == old(touched) + {r.value}
      ensures r.Err? ==> View() == old(View())
      ensures r.Err? ==> r.error.InvalidName? || r.error.LimitReached? || r.error.DuplicateClass?
      ensures maxClassId ==
                if NameOk(name) && old(maxClassId) < CLASS_LIMIT then old(maxClassId) + 1 else old(maxClassId)
      ensures r.Ok? ==> (OneName(classes) <==> OneName(old(classes)) && !Taken(old(classes), name))
    {
      if !NameOk(name) {
        return Err(InvalidName);
      }
      if maxClassId >= CLASS_LIMIT {
        return Err(LimitReached);
      }
      var id := maxClassId + 1;
      var found := Find(name);
      if found.Some? {
        MoreRoom(classes, maxClassId, id, maxPropertyId);
        maxClassId := id;
        return Err(DuplicateClass);
      }
      Add(id, name, kind);
      return Ok(id);
    }

    method Add(id: nat, name: string, kind: Kind)
      requires Valid() && id == maxClassId + 1 && name != ""
      modifies this`classes, this`recent, this`touched, this`table, this`maxClassId
      ensures Valid() && maxClassId == id && recent == old(recent) + {id} && touched == old(touched) + {id}
      ensures classes == Added(old(classes), id, name, kind)
      ensures OneName(classes) <==> OneName(old(classes)) && !Taken(old(classes), name)
    {
      AddedSane(View(), stored, table, maxClassId, maxPropertyId, id, name, kind);
      table := table[id := ClassRow(name, kind, 0)];
      classes := Added(classes, id, name, kind);
      recent, touched := recent + {id}, touched + {id};
      maxClassId := id;
    }

    method CreateExtend(name: string, superName: string) returns (r: Result<nat>)
      requires Valid()
      modifies this
      ensures Valid() && maxPropertyId == old(maxPropertyId) && held == old(held) && stored == old(stored)
      ensures r == Err(InvalidName) <==> !NameOk(name) || !NameOk(superName)
      ensures r == Err(LimitReached) <==> NameOk(name) && NameOk(superName) && old(maxClassId) >= CLASS_LIMIT
      ensures r == Err(DuplicateClass) <==>
                NameOk(name) && NameOk(superName) && old(maxClassId) < CLASS_LIMIT && old(View()).Shown(name)
      ensures r == Err(NoClass) <==>
                NameOk(name) && NameOk(superName) && old(maxClassId) < CLASS_LIMIT && !old(View()).Shown(name)
                && !old(View()).Shown(superName)
      ensures r.Ok? ==>
                && r.value == old(maxClassId) + 1 && recent == old(recent) + {r.value}
                && exists s :: old(View()).Shows(superName, s) && classes == Extended(old(classes), r.value, name, s)
                               && touched == old(touched) + {s, r.value}
      ensures r.Err? ==> View() == old(View())
      ensures r.Err? ==>
                r.error.InvalidName? || r.error.LimitReached? || r.error.DuplicateClass? || r.error.NoClass?
      ensures maxClassId ==
                if NameOk(name) && NameOk(superName) && old(maxClassId) < CLASS_LIMIT
                then old(maxClassId) + 1 else old(maxClassId)
      ensures r.Ok? ==> (OneName(classes) <==> OneName(old(classes)) && !Taken(old(classes), name))
    {
      if !NameOk(name) || !NameOk(superName) {
        return Err(InvalidName);
      }
      if maxClassId >= CLASS_LIMIT {
        return Err(LimitReached);
      }
      var id := maxClassId + 1;
      var found := Find(name);
      var super := Find(superName);
      if found.Some? || super.None? {
        MoreRoom(classes, maxClassId, id, maxPropertyId);
        maxClassId := id;
        return Err(if found.Some? then DuplicateClass else NoClass);
      }
      ghost var before := View();
      Extend(id, name, super.value);
      assert before.Shows(superName, super.value);
      return Ok(id);
    }

    method Extend(id: nat, name: string, s: nat)
      requires Valid() && id == maxClassId + 1 && s in classes && name != ""
      modifies this`classes, this`recent, this`touched, this`table, this`maxClassId
      ensures Valid() && maxClassId == id && recent == old(recent) + {id} && touched == old(touched) + {s, id}
      ensures classes == Extended(old(classes), id, name, s)
      ensures OneName(classes) <==> OneName(old(classes)) && !Taken(old(classes), name)
    {
      ExtendedSane(View(), stored, table, maxClassId, maxPropertyId, id, name, s);
      table := table[id := ClassRow(name, classes[s].kind, s)];
      classes := Extended(classes, id, name, s);
      recent, touched := recent + {id}, touched + {s, id};
      maxClassId := id;
    }

    /** Renames a class. */
    method Alter(was: string, name: string) returns (r: Result<()>)
      requires Valid()
      modifies this
      ensures Valid() && maxClassId == old(maxClassId) && maxPropertyId == old(maxPropertyId)
      ensures held == old(held) && stored == old(stored)
      ensures r == Err(InvalidName) <==> !NameOk(name)
      ensures r == Err(NoClass) <==> NameOk(name) && !old(View()).Shown(was)
      ensures r == Err(DuplicateClass) <==> NameOk(name) && old(View()).Shown(was) && old(View()).Shown(name)
      ensures r.Ok? ==>
                exists c :: old(View()).Shows(was, c) && recent == old(recent) + {c} && touched == old(touched) + {c}
                            && classes == old(classes)[c := old(classes)[c].(name := name)]
      ensures r.Err? ==> View() == old(View())
      ensures r.Err? ==> r.error.InvalidName? || r.error.NoClass? || r.error.DuplicateClass?
      ensures r.Ok? && OneName(old(classes)) ==>
                (OneName(classes) <==> forall d :: Named(old(classes), name, d) ==> old(View()).Shows(was, d))
    {
      if !NameOk(name) {
        return Err(InvalidName);
      }
      var found := Find(was);
      if found.None? {
        return Err(NoClass);
      }
      var other := Find(name);
      if other.Some? {
        return Err(DuplicateClass);
      }
      ghost var before := View();
      OnlyOne(before, was, found.value);
      Rename(found.value, name);
      return Ok(());
    }

    method Rename(c: nat, name: string)
      requires Valid() && c in classes && name != ""
      modifies this`classes, this`recent, this`touched, this`table
      ensures Valid() && recent == old(recent) + {c} && touched == old(touched) + {c}
      ensures classes == old(classes)[c := old(classes)[c].(name := name)]
      ensures OneName(old(classes)) ==> (OneName(classes) <==> forall d :: Named(old(classes), name, d) ==> d == c)
    {
      RenamedSane(View(), stored, table, maxClassId, maxPropertyId, c, name);
      classes := classes[c := classes[c].(name := name)];
      recent, touched := recent + {c}, touched + {c};
      table := table[c := RowOf(classes[c])];
    }

    // Between transactions.

    /** The transaction's classes and names become those of the shared table. */
    method Commit()
      requires Valid()
      modifies this`stored, this`recent, this`touched
      ensures Valid() && stored == classes.Keys && recent == {} && touched == {}
    {
      stored, recent, touched := classes.Keys, {}, {};
    }

    /** Descriptors that no reader needs any more are let go; their dropping is committed, so no writer has them. */
    method Reclaim(ids: set<nat>)
      requires Valid() && ids !! touched
      modifies this`held
      ensures Valid() && held == old(held) - ids
    {
      held := held - ids;
    }

    // Dropping a class.

    /** Whether any property of the class is still used by an index. */
    method AnyIndexed(c: nat) returns (b: bool)
      requires c in classes
      ensures b <==> exists n :: n in classes[c].properties && classes[c].properties[n].indexed
    {
      var todo := classes[c].properties.Keys;
      while todo != {}
        invariant todo <= classes[c].properties.Keys
        invariant forall n :: n in classes[c].properties && n !in todo ==> !classes[c].properties[n].indexed
        decreases |todo|
      {
        var n :| n in todo;
        if classes[c].properties[n].indexed {
          return true;
        }
        todo := todo - {n};
      }
      return false;
    }

    /** Moves the subclasses, one after the other, to a new superclass, in memory and in the table. */
    method Reparent(subs: seq<nat>, super: Option<nat>)
      requires forall k :: k in subs ==> k in classes && k in table
      modifies this`classes, this`table
      ensures classes == Reparented(old(classes), subs, super)
      ensures table == Retabled(old(table), subs, super)
    {
      for i := 0 to |subs|
        invariant classes.Keys == old(classes).Keys && table.Keys == old(table).Keys
        invariant classes == Reparented(old(classes), subs[..i], super)
        invariant table == Retabled(old(table), subs[..i], super)
      {
        var k := subs[i];
        OneMore(old(classes), old(table), subs, i, super);
        table := table[k := table[k].(super := SuperId(super))];
        classes := classes[k := classes[k].(super := super)];
      }
      assert subs[..|subs|] == subs;
    }

    /**
     Drops a class. The superclass forgets the subclass with this name, which leaves what it should exactly if the
     outcome is `Certain`.
     */
    method Drop(name: string) returns (r: Result<nat>)
      requires Valid()
      modifies this
      ensures maxClassId == old(maxClassId) && maxPropertyId == old(maxPropertyId)
      ensures r == Err(NoClass) <==> !old(View()).Shown(name)
      ensures r == Err(PropertyInUse) <==>
                exists c, n :: old(View()).Shows(name, c) && n in old(classes)[c].properties
                               && old(classes)[c].properties[n].indexed
      ensures r.Err? ==> Valid() && View() == old(View()) && stored == old(stored)
                         && (r.error.NoClass? || r.error.PropertyInUse?)
      ensures r.Ok? ==> old(View()).Shows(name, r.value) && ErasedFrom(old(View()), old(stored), r.value)
      ensures r.Ok? ==>
                exists rest :: PossibleFor(old(classes), r.value, name, rest)
                               && classes == DropLeaves(old(classes), r.value, name, rest)
      ensures r.Ok? && Certain(old(classes), r.value, name) ==> Valid() && classes == Dropped(old(classes), r.value)
      ensures r.Ok? && OneName(old(classes)) && name != "" ==> Certain(old(classes), r.value, name) && OneName(classes)
    {
      var found := Find(name);
      if found.None? {
        return Err(NoClass);
      }
      var id := found.value;
      ghost var before := View();
      forall c | before.Shows(name, c) ensures c == id {
        ShowsOnce(before, name, c, id);
      }
      var inUse := AnyIndexed(id);
      if inUse {
        assert before.Shows(name, id);
        return Err(PropertyInUse);
      }
      if OneName(classes) && name != "" {
        OneNameAlone(classes, id);
        DroppedNames(classes, id);
      }
      ghost var rest := Erase(id, name);
      return Ok(id);
    }

    /** The class and its neighbours have been touched; a class that only the transaction knew is forgotten. */
    predicate ErasedFrom(was: View, kept: set<nat>, id: nat)
      reads this
    {
      && id in was.live && stored == kept - {id}
      && held == (if id in kept then was.held[id := was.live[id].name] else was.held)
      && recent == (if id in kept then was.recent else was.recent - {id})
      && touched == (if id in kept then was.touched + {id} else was.touched - {id}) + Around(was.live, id)
    }

    method Erase(id: nat, name: string) returns (ghost rest: seq<nat>)
      requires Valid() && id in classes
      modifies this`classes, this`table, this`held, this`stored, this`recent, this`touched
      ensures ErasedFrom(old(View()), old(stored), id)
      ensures PossibleFor(old(classes), id, name, rest) && classes == DropLeaves(old(classes), id, name, rest)
      ensures Certain(old(classes), id, name) ==> Valid() && classes == Dropped(old(classes), id)
    {
      var own, around := classes[id].name, Around(classes, id);
      ghost var before, known, rows := View(), stored, table;
      rest := DropAt(id, name);
      if id in stored {
        held, touched := held[id := own], touched + {id} + around;
      } else {
        recent, touched := recent - {id}, touched - {id} + around;
      }
      stored := stored - {id};
      if Certain(before.live, id, name) {
        CertainLeaves(before.live, id, name, rest);
        ErasedSane(before, View(), known, rows, maxClassId, maxPropertyId, id);
      }
    }

    method DropAt(id: nat, name: string) returns (ghost rest: seq<nat>)
      requires Forest(classes) && id in classes && table == RowsOf(classes)
      modifies this`classes, this`table
      ensures PossibleFor(old(classes), id, name, rest) && classes == DropLeaves(old(classes), id, name, rest)
      ensures table == RowsOf(Dropped(old(classes), id))
    {
      ghost var before := classes;
      var c := classes[id];
      DropParts(classes, id);
      var list := [];
      if c.super.Some? {
        var any := Unspecified(classes, classes[c.super.value].subs, name);
        list := Unlinked(classes, classes[c.super.value].subs, name, any);
        rest := any;
      } else {
        rest := [];
      }
      Reparent(c.subs, c.super);
      var linked := if c.super.Some?
        then classes[c.super.value := classes[c.super.value].(subs := list + c.subs)] else classes;
      var left, rows := linked - {id}, table - {id};
      AllLeft(before, id, name, rest, classes, left);
      TableLeft(before, id, Dropped(before, id), rows);
      classes, table := left, rows;
    }

    // Properties.

    /** Goes down every branch below a class. */
    method Overridden(c: nat, n: string) returns (b: bool)
      requires Valid() && c in classes
      ensures b <==> InSubtree(classes, maxClassId, c, n)
      decreases maxClassId - c
    {
      if n in classes[c].properties {
        return true;
      }
      var subs := classes[c].subs;
      for i := 0 to |subs|
        invariant forall k :: k in subs[..i] ==> !InSubtree(classes, maxClassId, k, n)
      {
        var k := subs[i];
        assert LinkDown(classes, c, k) && LinkUp(classes, k) && InRange(classes, maxClassId, k);
        assert subs[..i + 1] == subs[..i] + [k];
        var below := Overridden(k, n);
        if below {
          return true;
        }
      }
      assert subs[..|subs|] == subs;
      return false;
    }

    /** What both validations together decide. */
    method CheckNew(c: nat, n: string) returns (r: Result<()>)
      requires Valid() && c in classes
      ensures r == Err(DuplicateProperty) <==> OnChain(classes, c, n)
      ensures r == Err(OverrideProperty) <==> !OnChain(classes, c, n) && InSubtree(classes, maxClassId, c, n)
      ensures r.Ok? <==> !OnChain(classes, c, n) && !InSubtree(classes, maxClassId, c, n)
    {
      if OnChain(classes, c, n) {
        return Err(DuplicateProperty);
      }
      var below := Overridden(c, n);
      if below {
        return Err(OverrideProperty);
      }
      return Ok(());
    }

    /** Gives a class other properties. */
    method Change(c: nat, properties: map<string, PropertyInfo>, most: nat)
      requires Valid() && c in classes && SchemaForest.Valid(Changed(classes, c, properties), maxClassId, most)
      modifies this`classes, this`touched, this`maxPropertyId
      ensures Valid() && classes == Changed(old(classes), c, properties) && touched == old(touched) + {c}
      ensures maxPropertyId == most
    {
      ChangedSane(View(), stored, table, maxClassId, maxPropertyId, c, properties, most);
      classes := Changed(classes, c, properties);
      touched, maxPropertyId := touched + {c}, most;
    }

    /** The id is taken before the class and the name are checked, and is not given back. */
    method AddProperty(className: string, n: string) returns (r: Result<nat>)
      requires Valid()
      modifies this
      ensures Valid() && maxClassId == old(maxClassId)
      ensures r == Err(InvalidName) <==> !NameOk(n)
      ensures r == Err(LimitReached) <==> NameOk(n) && old(maxPropertyId) >= PROPERTY_LIMIT
      ensures r == Err(NoClass) <==>
                NameOk(n) && old(maxPropertyId) < PROPERTY_LIMIT && !old(View()).Shown(className)
      ensures r == Err(DuplicateProperty) <==>
                NameOk(n) && old(maxPropertyId) < PROPERTY_LIMIT
                && exists c :: old(View()).Shows(className, c) && OnChain(old(classes), c, n)
      ensures r == Err(OverrideProperty) <==>
                NameOk(n) && old(maxPropertyId) < PROPERTY_LIMIT
                && exists c :: old(View()).Shows(className, c) && !OnChain(old(classes), c, n)
                               && InSubtree(old(classes), maxClassId, c, n)
      ensures r.Ok? ==>
                && r.value == old(maxPropertyId) + 1
                && exists c :: old(View()).Shows(className, c) && touched == old(touched) + {c} && classes ==
                     Changed(old(classes), c, old(classes)[c].properties[n := PropertyInfo(r.value, false)])
      ensures r.Err? ==> classes == old(classes)
      ensures held == old(held) && stored == old(stored) && recent == old(recent)
      ensures r.Err? ==> touched == old(touched)
      ensures r.Err? ==>
                r.error.InvalidName? || r.error.LimitReached? || r.error.NoClass? || r.error.DuplicateProperty?
                || r.error.OverrideProperty?
    {
      if !NameOk(n) {
        return Err(InvalidName);
      }
      if maxPropertyId >= PROPERTY_LIMIT {
        return Err(LimitReached);
      }
      var id := maxPropertyId + 1;
      var found := Find(className);
      if found.None? {
        MoreIds(classes, maxClassId, maxPropertyId, id);
        maxPropertyId := id;
        return Err(NoClass);
      }
      var c := found.value;
      ghost var view := View();
      OnlyOne(view, className, c);
      var check := CheckNew(c, n);
      if check.Err? {
        MoreIds(classes, maxClassId, maxPropertyId, id);
        maxPropertyId := id;
        return Err(check.error);
      }
      WithPropertyValid(classes, maxClassId, maxPropertyId, c, n, id);
      Change(c, classes[c].properties[n := PropertyInfo(id, false)], id);
      assert view.Shows(className, c);
      return Ok(id);
    }

    method AlterProperty(className: string, was: string, n: string) returns (r: Result<()>)
      requires Valid()
      modifies this
      ensures Valid() && maxClassId == old(maxClassId) && maxPropertyId == old(maxPropertyId)
      ensures r == Err(InvalidName) <==> !NameOk(n)
      ensures r == Err(NoClass) <==> NameOk(n) && !old(View()).Shown(className)
      ensures r == Err(NoProperty) <==>
                NameOk(n) && exists c :: old(View()).Shows(className, c) && was !in old(classes)[c].properties
      ensures r == Err(DuplicateProperty) <==>
                NameOk(n) && exists c :: old(View()).Shows(className, c) && was in old(classes)[c].properties
                                         && OnChain(old(classes), c, n)
      ensures r == Err(OverrideProperty) <==>
                NameOk(n) && exists c :: old(View()).Shows(className, c) && was in old(classes)[c].properties
                                         && !OnChain(old(classes), c, n) && InSubtree(old(classes), maxClassId, c, n)
      ensures r.Ok? ==>
                exists c :: old(View()).Shows(className, c) && was in old(classes)[c].properties
                            && touched == old(touched) + {c} && classes ==
                  Changed(old(classes), c,
                          (old(classes)[c].properties - {was})[n := old(classes)[c].properties[was]])
      ensures r.Err? ==> classes == old(classes)
      ensures held == old(held) && stored == old(stored) && recent == old(recent)
      ensures r.Err? ==> touched == old(touched)
      ensures r.Err? ==>
                r.error.InvalidName? || r.error.NoClass? || r.error.NoProperty? || r.error.DuplicateProperty?
                || r.error.OverrideProperty?
    {
      if !NameOk(n) {
        return Err(InvalidName);
      }
      var found := Find(className);
      if found.None? {
        return Err(NoClass);
      }
      var c := found.value;
      ghost var view := View();
      OnlyOne(view, className, c);
      if was !in classes[c].properties {
        return Err(NoProperty);
      }
      var check := CheckNew(c, n);
      if check.Err? {
        return Err(check.error);
      }
      RenamedPropertyValid(classes, maxClassId, maxPropertyId, c, was, n);
      Change(c, (classes[c].properties - {was})[n := classes[c].properties[was]], maxPropertyId);
      assert view.Shows(className, c);
      return Ok(());
    }

    method RemoveProperty(className: string, n: string) returns (r: Result<()>)
      requires Valid()
      modifies this
      ensures Valid() && maxClassId == old(maxClassId) && maxPropertyId == old(maxPropertyId)
      ensures r == Err(NoClass) <==> !old(View()).Shown(className)
      ensures r == Err(NoProperty) <==>
                exists c :: old(View()).Shows(className, c) && n !in old(classes)[c].properties
      ensures r == Err(PropertyInUse) <==>
                exists c :: old(View()).Shows(className, c) && n in old(classes)[c].properties
                            && old(classes)[c].properties[n].indexed
      ensures r.Ok? ==>
                exists c :: old(View()).Shows(className, c) && n in old(classes)[c].properties
                            && !old(classes)[c].properties[n].indexed && touched == old(touched) + {c}
                            && classes == Changed(old(classes), c, old(classes)[c].properties - {n})
      ensures r.Err? ==> classes == old(classes)
      ensures held == old(held) && stored == old(stored) && recent == old(recent)
      ensures r.Err? ==> touched == old(touched)
      ensures r.Err? ==>
                r.error.NoClass? || r.error.NoProperty? || r.error.PropertyInUse?
    {
      var found := Find(className);
      if found.None? {
        return Err(NoClass);
      }
      var c := found.value;
      ghost var view := View();
      OnlyOne(view, className, c);
      if n !in classes[c].properties {
        return Err(NoProperty);
      }
      if classes[c].properties[n].indexed {
        return Err(PropertyInUse);
      }
      WithoutPropertyValid(classes, maxClassId, maxPropertyId, c, n);
      Change(c, classes[c].properties - {n}, maxPropertyId);
      assert view.Shows(className, c);
      return Ok(());
    }

    // Subclasses.

    /** `getClassExtend` for one class: the class and everything that extends it. */
    method ClassExtend(c: nat) returns (found: set<nat>)
      requires Valid() && c in classes
      ensures forall k :: k in found <==> Above(classes, c, k)
      decreases maxClassId - c
    {
      found := {c};
      var subs := classes[c].subs;
      for i := 0 to |subs|
        invariant forall k :: k in found <==> k == c || UnderAny(classes, subs[..i], k)
      {
        var k := subs[i];
        assert LinkDown(classes, c, k) && LinkUp(classes, k) && InRange(classes, maxClassId, k);
        assert subs[..i + 1] == subs[..i] + [k];
        var below := ClassExtend(k);
        found := found + below;
        forall q
          ensures UnderAny(classes, subs[..i + 1], q) <==> UnderAny(classes, subs[..i], q) || Above(classes, k, q)
        {
          UnderOneMore(classes, subs[..i], k, q);
        }
      }
      assert subs[..|subs|] == subs;
      forall k ensures Above(classes, c, k) <==> k == c || UnderAny(classes, subs, k) {
        ViaSub(classes, c, k);
      }
    }
  }

  /** The class extends one of `ks`, or is one of them. */
  ghost predicate UnderAny(cs: Classes, ks: seq<nat>, k: nat) {
    exists q :: q in ks && Above(cs, q, k)
  }

  lemma UnderOneMore(cs: Classes, ks: seq<nat>, q: nat, k: nat)
    ensures UnderAny(cs, ks + [q], k) <==> UnderAny(cs, ks, k) || Above(cs, q, k)
  {
    if UnderAny(cs, ks, k) {
      var p :| p in ks && Above(cs, p, k);
      assert p in ks + [q];
    }
    if Above(cs, q, k) {
      assert q in ks + [q];
    }
  }

  function SuperId(super: Option<nat>): nat {
    if super.Some? then super.value else 0
  }

  function Reparented(cs: Classes, subs: seq<nat>, super: Option<nat>): Classes {
    map k | k in cs :: if k in subs then cs[k].(super := super) else cs[k]
  }

  function Retabled(table: map<nat, ClassRow>, subs: seq<nat>, super: Option<nat>): map<nat, ClassRow> {
    map k | k in table :: if k in subs then table[k].(super := SuperId(super)) else table[k]
  }

  lemma OneMore(cs: Classes, table: map<nat, ClassRow>, subs: seq<nat>, i: nat, super: Option<nat>)
    requires i < |subs| && subs[i] in cs && subs[i] in table
    ensures var k := subs[i];
            && k in Reparented(cs, subs[..i], super) && k in Retabled(table, subs[..i], super)
            && Reparented(cs, subs[..i + 1], super) ==
                 Reparented(cs, subs[..i], super)[k := Reparented(cs, subs[..i], super)[k].(super := super)]
            && Retabled(table, subs[..i + 1], super) ==
                 Retabled(table, subs[..i], super)[k := Retabled(table, subs[..i], super)[k].(super := SuperId(super))]
  {
    assert subs[..i + 1] == subs[..i] + [subs[i]];
  }

  /** The classes whose links change when a class is dropped. */
  function Around(cs: Classes, id: nat): set<nat>
    requires id in cs
  {
    (set k | k in cs[id].subs) + if cs[id].super.Some? then {cs[id].super.value} else {}
  }

  lemma AroundIsKnown(cs: Classes, id: nat)
    requires Forest(cs) && id in cs
    ensures Around(cs, id) <= cs.Keys - {id}
  {
    DropParts(cs, id);
  }

  /** Entries of which nothing but their number is known, and not even that if nothing matches. */
  method Unspecified(cs: Classes, subs: seq<nat>, name: string) returns (rest: seq<nat>)
    ensures Possible(cs, subs, name, rest)
  {
    rest := *;
    if Matches(cs, subs, name) > 0 {
      var any: nat -> nat := *;
      rest := seq<nat>(Matches(cs, subs, name) - 1, (i: int) requires 0 <= i => any(i));
    }
  }

  /** What the steps of a drop leave. */
  lemma AllLeft(cs: Classes, id: nat, name: string, rest: seq<nat>, moved: Classes, left: Classes)
    requires Forest(cs) && id in cs && moved == Reparented(cs, cs[id].subs, cs[id].super)
    requires cs[id].super.Some? ==> cs[id].super.value in cs
    requires var s := cs[id].super;
             left == (if s.Some?
                      then var list := Unlinked(cs, cs[s.value].subs, name, rest);
                           moved[s.value := moved[s.value].(subs := list + cs[id].subs)]
                      else moved) - {id}
    ensures left == DropLeaves(cs, id, name, rest)
  {
    DropParts(cs, id);
    assert left.Keys == DropLeaves(cs, id, name, rest).Keys;
  }

  lemma TableLeft(cs: Classes, id: nat, classes: Classes, table: map<nat, ClassRow>)
    requires id in cs && classes == Dropped(cs, id)
    requires table == Retabled(RowsOf(cs), cs[id].subs, cs[id].super) - {id}
    ensures table == RowsOf(classes)
  {
    assert table.Keys == classes.Keys;
    forall k | k in classes ensures table[k] == RowOf(classes[k]) {
    }
  }

  /** A class extends another through one of the other's direct subclasses. */
  lemma {:induction false} ViaSub(cs: Classes, c: nat, k: nat)
    requires Forest(cs) && c in cs
    ensures Above(cs, c, k) <==> k == c || UnderAny(cs, cs[c].subs, k)
    decreases k
  {
    if Above(cs, c, k) && k != c {
      var s := cs[k].super.value;
      assert LinkUp(cs, k);
      ViaSub(cs, c, s);
      if s != c {
        var q :| q in cs[c].subs && Above(cs, q, s);
        assert Above(cs, q, k);
      } else {
        assert Above(cs, k, k);
      }
    }
    if q :| q in cs[c].subs && Above(cs, q, k) {
      assert LinkDown(cs, c, q) && LinkUp(cs, q);
      assert Above(cs, c, q);
      AboveThen(cs, c, q, k);
    }
  }

  /** The superclass of a dropped class is not one of its subclasses. */
  lemma DropParts(cs: Classes, id: nat)
    requires Forest(cs) && id in cs
    ensures id !in cs[id].subs && forall k :: k in cs[id].subs ==> k in cs
    ensures cs[id].super.Some? ==>
              cs[id].super.value in cs && cs[id].super.value != id && cs[id].super.value !in cs[id].subs
  {
    forall k | k in cs[id].subs ensures k in cs {
      assert LinkDown(cs, id, k);
    }
    assert LinkUp(cs, id) && LinkDown(cs, id, id);
    if cs[id].super.Some? {
      assert LinkDown(cs, id, cs[id].super.value) && LinkUp(cs, cs[id].super.value);
    }
  }

  lemma MoreIds(cs: Classes, maxClass: nat, maxProperty: nat, more: nat)
    requires SchemaForest.Valid(cs, maxClass, maxProperty) && more >= maxProperty
    ensures SchemaForest.Valid(cs, maxClass, more)
  {
    forall c, n ensures IdInRange(cs, more, c, n) {
      assert IdInRange(cs, maxProperty, c, n);
    }
  }

  lemma OnlyOne(view: View, name: string, c: nat)
    requires view.Shows(name, c)
    ensures forall d :: view.Shows(name, d) <==> d == c
  {
    forall d | view.Shows(name, d) ensures d == c {
      ShowsOnce(view, name, c, d);
    }
  }

  /** A name that a held class hides stands for no class. */
  lemma HiddenName(view: View, name: string, d: nat)
    requires view.Hides(name, d) && d !in view.live
    ensures !view.Shown(name)
  {
    forall c ensures !view.Shows(name, c) {
      assert view.Bears(d, name) && (Named(view.live, name, c) ==> view.Before(d, c));
    }
  }

  /** Moving the dropped class's subclasses does not change its siblings. */
  lemma AloneStays(cs: Classes, moved: Classes, id: nat)
    requires Forest(cs) && id in cs && moved == Reparented(cs, cs[id].subs, cs[id].super)
    ensures Alone(cs, id) ==> id in moved && moved[id] == cs[id] && Alone(moved, id)
  {
    DropParts(cs, id);
  }

  lemma MoreRoom(cs: Classes, maxClass: nat, more: nat, maxProperty: nat)
    requires SchemaForest.Valid(cs, maxClass, maxProperty) && more >= maxClass
    ensures SchemaForest.Valid(cs, more, maxProperty)
  {
    forall c ensures InRange(cs, more, c) {
      assert InRange(cs, maxClass, c);
    }
  }

  // Rebuilding the links when a database is opened.

  /** A class and its superclass, or 0. */
  datatype Pair = Pair(sub: nat, super: nat)

  ghost predicate Bare(cs: Classes) {
    forall k :: k in cs ==> cs[k].super == None && cs[k].subs == []
  }

  /** Each class once, and every superclass known. */
  ghost predicate Linkable(cs: Classes, info: seq<Pair>) {
    && (forall i, j :: 0 <= i < j < |info| ==> info[i].sub != info[j].sub)
    && (forall i :: 0 <= i < |info| ==>
          info[i].sub in cs && (info[i].super > 0 ==> info[i].super in cs) && info[i].super != info[i].sub)
  }

  /** The link from `k` to `s` is one of the pairs. */
  ghost predicate Pairs(info: seq<Pair>, k: nat, s: nat) {
    s > 0 && Pair(k, s) in info
  }

  /** The links at one class are those of the pairs; everything else about it is as it was. */
  ghost predicate LinkedAt(bare: Classes, cs: Classes, info: seq<Pair>, k: nat) {
    k in bare ==>
      && k in cs && cs[k] == bare[k].(super := cs[k].super, subs := cs[k].subs)
      && (forall s: nat :: cs[k].super == Some(s) <==> Pairs(info, k, s))
      && (forall q: nat :: q in cs[k].subs <==> Pairs(info, q, k))
  }

  /** `Schema::apply`. */
  method Apply(bare: Classes, info: seq<Pair>) returns (cs: Classes)
    requires Bare(bare) && Linkable(bare, info)
    ensures cs.Keys == bare.Keys && forall k :: LinkedAt(bare, cs, info, k)
  {
    cs := bare;
    for i := 0 to |info|
      invariant cs.Keys == bare.Keys && forall k :: LinkedAt(bare, cs, info[..i], k)
    {
      var sub, super := info[i].sub, info[i].super;
      ghost var before := cs;
      if super > 0 {
        cs := cs[sub := cs[sub].(super := Some(super))];
        cs := cs[super := cs[super].(subs := cs[super].subs + [sub])];
      }
      ghost var done := info[..i + 1];
      forall k ensures LinkedAt(bare, cs, done, k) {
        assert LinkedAt(bare, before, info[..i], k);
        LinkOneMore(bare, before, info, i, k);
      }
    }
    assert info[..|info|] == info;
  }

  function Linked(cs: Classes, p: Pair): Classes
    requires p.sub in cs && p.super in cs && p.sub != p.super
  {
    cs[p.sub := cs[p.sub].(super := Some(p.super))][p.super := cs[p.super].(subs := cs[p.super].subs + [p.sub])]
  }

  lemma PairsGrow(info: seq<Pair>, i: nat, k: nat, s: nat)
    requires i < |info|
    ensures Pairs(info[..i + 1], k, s) <==> Pairs(info[..i], k, s) || (s > 0 && info[i] == Pair(k, s))
  {
    assert info[..i + 1] == info[..i] + [info[i]];
  }

  lemma NotYet(info: seq<Pair>, i: nat, s: nat)
    requires i < |info| && forall j, k :: 0 <= j < k < |info| ==> info[j].sub != info[k].sub
    ensures !Pairs(info[..i], info[i].sub, s)
  {
  }

  lemma LinkOneMore(bare: Classes, cs: Classes, info: seq<Pair>, i: nat, k: nat)
    requires i < |info| && Linkable(bare, info) && cs.Keys == bare.Keys && LinkedAt(bare, cs, info[..i], k)
    ensures LinkedAt(bare, if info[i].super > 0 then Linked(cs, info[i]) else cs, info[..i + 1], k)
  {
    forall s ensures Pairs(info[..i + 1], k, s) <==> Pairs(info[..i], k, s) || (s > 0 && info[i] == Pair(k, s)) {
      PairsGrow(info, i, k, s);
    }
    forall q ensures Pairs(info[..i + 1], q, k) <==> Pairs(info[..i], q, k) || (k > 0 && info[i] == Pair(q, k)) {
      PairsGrow(info, i, q, k);
    }
    if k == info[i].sub {
      forall s ensures !Pairs(info[..i], k, s) {
        NotYet(info, i, s);
      }
    }
  }

  /** The pairs that the table of classes holds. */
  ghost predicate TableOf(cs: Classes, info: seq<Pair>) {
    && (forall i, j :: 0 <= i < j < |info| ==> info[i].sub != info[j].sub)
    && (forall p :: p in info <==> p.sub in cs && p.super == SuperId(cs[p.sub].super))
  }

  /** What reopening gives: every class with the superclass and the subclasses it had. */
  lemma RebuildIsSame(cs: Classes, maxClass: nat, maxProperty: nat, bare: Classes, info: seq<Pair>, after: Classes,
                      k: nat)
    requires SchemaForest.Valid(cs, maxClass, maxProperty) && TableOf(cs, info)
    requires bare == (map c | c in cs :: cs[c].(super := None, subs := []))
    requires LinkedAt(bare, after, info, k) && k in cs
    ensures Linkable(bare, info)
    ensures k in after && after[k].super == cs[k].super && after[k] == cs[k].(subs := after[k].subs)
    ensures forall q :: q in after[k].subs <==> q in cs[k].subs
  {
    forall i | 0 <= i < |info|
      ensures info[i].sub in bare && (info[i].super > 0 ==> info[i].super in bare) && info[i].super != info[i].sub
    {
      assert info[i] in info && LinkUp(cs, info[i].sub) && InRange(cs, maxClass, info[i].sub);
    }
    assert LinkUp(cs, k) && InRange(cs, maxClass, k);
    forall s: nat ensures Pairs(info, k, s) <==> cs[k].super == Some(s) {
      assert InRange(cs, maxClass, s);
    }
    forall q: nat ensures Pairs(info, q, k) <==> q in cs[k].subs {
      assert LinkUp(cs, q) && LinkDown(cs, k, q);
    }
    assert cs[k].super.Some? ==> Pairs(info, k, cs[k].super.value);
    assert after[k].super.Some? ==> Pairs(info, k, after[k].super.value);
  }
}
