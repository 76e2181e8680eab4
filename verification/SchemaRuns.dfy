/**
 Runs in which names of classes do not stand for what they should.
 */
module SchemaRuns {
  import opened Common
  import opened SchemaForest
  import opened SchemaNames
  import opened SchemaDrops
  import opened Schemas

  // Names that are hidden.

  /** A name that nothing bears can be given to a class; the lookup then finds that class. */
  lemma NewNameShows(view: View, after: View, c: nat, name: string)
    requires (forall d :: !view.Bears(d, name)) && Named(after.live, name, c) && after.held == view.held && name != ""
    requires forall d :: d in after.live && d != c ==> d in view.live && view.live[d].name == after.live[d].name
    ensures after.Shows(name, c)
  {
    forall d | after.Bears(d, name) && d != c ensures after.Before(c, d) {
      assert !view.Bears(d, name);
    }
  }

  /** Of the classes only `c` bears the name. */
  ghost predicate OnlyBearer(cs: Classes, name: string, c: nat) {
    forall d :: Named(cs, name, d) ==> d == c
  }

  lemma OnlyBearerAlone(cs: Classes, c: nat, name: string)
    requires Forest(cs) && Named(cs, name, c) && OnlyBearer(cs, name, c)
    ensures Alone(cs, c)
  {
    if cs[c].super.Some? && cs[c].super.value in cs {
      forall k | k in cs[cs[c].super.value].subs && k != c ensures k in cs && cs[k].name != name {
        assert LinkDown(cs, cs[c].super.value, k) && (Named(cs, name, k) ==> k == c);
      }
    }
  }

  /** A class gets a name that nothing bears. */
  method RenameFreely(s: Schema, was: string, a: nat, name: string)
    requires s.Valid() && s.View().Shows(was, a) && NameOk(name) && forall c :: !s.View().Bears(c, name)
    modifies s
    ensures s.Valid() && s.maxClassId == old(s.maxClassId) && s.maxPropertyId == old(s.maxPropertyId)
    ensures s.held == old(s.held) && s.stored == old(s.stored) && a in s.recent
    ensures s.classes == old(s.classes)[a := old(s.classes)[a].(name := name)]
    ensures s.View().Shows(name, a) && OnlyBearer(s.classes, name, a)
  {
    ghost var start := s.View();
    OnlyOne(start, was, a);
    forall c ensures !start.Shows(name, c) {
      assert !start.Bears(c, name);
    }
    var renamed := s.Alter(was, name);
    assert renamed.Ok?;
    NewNameShows(start, s.View(), a, name);
    forall d | Named(s.classes, name, d) ensures d == a {
      assert !start.Bears(d, name);
    }
  }

  /** A class of the shared table gets a name that nothing bears and is dropped: its descriptor keeps the name. */
  method RenameAndDrop(s: Schema, was: string, a: nat, name: string)
    requires s.Valid() && s.View().Shows(was, a) && a in s.stored && NameOk(name)
    requires forall c :: !s.View().Bears(c, name)
    requires forall n :: n in s.classes[a].properties ==> !s.classes[a].properties[n].indexed
    modifies s
    ensures s.Valid() && s.maxClassId == old(s.maxClassId) && s.maxPropertyId == old(s.maxPropertyId)
    ensures a in s.held && s.held[a] == name && a in s.recent && !Taken(s.classes, name)
  {
    RenameFreely(s, was, a, name);
    ghost var middle := s.classes;
    OnlyBearerAlone(middle, a, name);
    OnlyOne(s.View(), name, a);
    var dropped := s.Drop(name);
    forall d ensures !Named(s.classes, name, d) {
      assert Named(middle, name, d) ==> d == a;
    }
  }

  /** A name that stands for no class can be used, although classes may have it. */
  method CreateUnseen(s: Schema, name: string, kind: Kind) returns (id: nat)
    requires s.Valid() && NameOk(name) && s.maxClassId < CLASS_LIMIT && !s.View().Shown(name)
    modifies s
    ensures s.Valid() && s.held == old(s.held) && s.recent == old(s.recent) + {id}
    ensures id == s.maxClassId == old(s.maxClassId) + 1 && s.maxPropertyId == old(s.maxPropertyId)
    ensures forall c :: Named(s.classes, name, c) <==> c == id || Named(old(s.classes), name, c)
  {
    assert InRange(s.classes, s.maxClassId, s.maxClassId + 1);
    var r := s.Create(name, kind);
    id := r.value;
  }

  /**
   Under a name that a dropped class of this transaction bears, two classes are created one after the other. The dropped
   class hides the first of them from the check for duplicates, and both of them from every other lookup.
   */
  method CreateTwice(s: Schema, d: nat, name: string, kind: Kind, property: string)
    returns (first: nat, second: nat, third: Result<nat>)
    requires s.Valid() && NameOk(name) && NameOk(property)
    requires d in s.held && s.held[d] == name && d in s.recent && !Taken(s.classes, name)
    requires s.maxClassId + 2 <= CLASS_LIMIT && s.maxPropertyId < PROPERTY_LIMIT
    modifies s
    ensures first != second && Named(s.classes, name, first) && Named(s.classes, name, second)
    ensures third == Err(NoClass)
  {
    ghost var limit := s.maxClassId;
    NothingTaken(s.View(), name);
    first := CreateUnseen(s, name, kind);
    OlderHides(s.View(), name, d, limit);
    second := CreateUnseen(s, name, kind);
    OlderHides(s.View(), name, d, limit);
    assert Named(s.classes, name, first) && Named(s.classes, name, second);
    third := s.AddProperty(name, property);
  }

  /**
   Across transactions: a reader keeps the descriptor of a dropped class, its name is used again, and once that is
   committed the older descriptor hides the new class.
   */
  method CreateCommitCreate(s: Schema, d: nat, name: string, kind: Kind) returns (first: nat, second: nat)
    requires s.Valid() && NameOk(name) && s.maxClassId + 2 <= CLASS_LIMIT
    requires d in s.held && s.held[d] == name && !Taken(s.classes, name)
    modifies s
    ensures first != second && Named(s.classes, name, first) && Named(s.classes, name, second)
  {
    ghost var limit := s.maxClassId;
    NothingTaken(s.View(), name);
    first := CreateUnseen(s, name, kind);
    s.Commit();
    OlderHides(s.View(), name, d, limit);
    second := CreateUnseen(s, name, kind);
    assert Named(s.classes, name, first) && Named(s.classes, name, second);
  }

  /** A name that no class has, other than the empty one, stands for none. */
  lemma NothingTaken(view: View, name: string)
    requires !Taken(view.live, name) && name != "" && view.Proper()
    ensures !view.Shown(name)
  {
    forall c ensures !view.Shows(name, c) {
      assert !Named(view.live, name, c);
    }
  }

  /** A held class hides the name from later classes, if it got its name from the transaction or they did not. */
  lemma OlderHides(view: View, name: string, d: nat, limit: nat)
    requires view.Proper() && d in view.held && view.held[d] == name != "" && d <= limit
    requires forall c: nat :: Named(view.live, name, c) ==> c > limit && (c in view.recent ==> d in view.recent)
    ensures !view.Shown(name)
  {
    forall c: nat | c in view.live && view.Bears(c, name) ensures view.Before(d, c) {
      assert Named(view.live, name, c);
    }
    assert view.Hides(name, d);
    HiddenName(view, name, d);
  }

  // Subclasses with the same name.

  /** At the start of a transaction, a class is created below another under a name that only a held class bears. */
  method ExtendUnseen(s: Schema, name: string, superName: string, super: nat) returns (id: nat)
    requires s.Valid() && s.touched == {} && NameOk(name) && NameOk(superName) && name != superName
    requires s.maxClassId < CLASS_LIMIT && !s.View().Shown(name) && s.View().Shows(superName, super)
    modifies s
    ensures s.Valid() && s.touched == {} && s.held == old(s.held) && id == s.maxClassId == old(s.maxClassId) + 1
    ensures id !in old(s.classes) && s.View().Shows(superName, super)
    ensures super in old(s.classes) && s.classes == Extended(old(s.classes), id, name, super)
  {
    ghost var start := s.View();
    OnlyOne(start, superName, super);
    assert InRange(s.classes, s.maxClassId, s.maxClassId + 1);
    var r := s.CreateExtend(name, superName);
    id := r.value;
    s.Commit();
    forall d | s.View().Bears(d, superName) && d != super ensures s.View().Before(super, d) {
      assert start.Bears(d, superName);
    }
  }

  /**
   While a reader keeps the descriptor of a dropped class, its name is given to two subclasses of one class, in two
   transactions. Then the reader ends. Dropping the name drops the first of the two, and what it leaves of the
   superclass's subclasses is not specified.
   */
  method TwoSiblings(s: Schema, d: nat, name: string, superName: string, super: nat) returns (first: nat, second: nat)
    requires s.Valid() && s.touched == {} && NameOk(name) && NameOk(superName) && name != superName
    requires s.maxClassId + 2 <= CLASS_LIMIT && s.View().Shows(superName, super)
    requires d in s.held && s.held[d] == name && !Taken(s.classes, name)
    requires forall c :: c in s.held && s.held[c] == name ==> c == d
    modifies s
    ensures s.Valid() && first != second && s.View().Shows(name, first) && !Certain(s.classes, first, name)
  {
    ghost var start, limit := s.classes, s.maxClassId;
    NothingTaken(s.View(), name);
    first := ExtendUnseen(s, name, superName, super);
    ExtendedBear(start, first, name, super);
    OlderHides(s.View(), name, d, limit);
    ghost var middle := s.classes;
    second := ExtendUnseen(s, name, superName, super);
    ExtendedBear(middle, second, name, super);
    s.Reclaim({d});
    SiblingsNotAlone(start, middle, s.classes, first, second, name, super);
    ShowsFirst(s.View(), name, first, second);
  }

  lemma ExtendedBear(cs: Classes, id: nat, name: string, super: nat)
    requires super in cs && id !in cs
    ensures forall c :: Named(Extended(cs, id, name, super), name, c) <==> c == id || Named(cs, name, c)
  {
  }

  lemma SiblingsNotAlone(start: Classes, middle: Classes, cs: Classes, first: nat, second: nat, name: string,
                         super: nat)
    requires super in start && first !in start && middle == Extended(start, first, name, super)
    requires second !in middle && cs == Extended(middle, second, name, super)
    ensures first in cs && !Certain(cs, first, name)
  {
    assert second in cs[super].subs && cs[second].name == name;
  }

  lemma ShowsFirst(view: View, name: string, first: nat, second: nat)
    requires name != "" && view.touched == {} && view.recent == {} && first < second
    requires forall c :: Named(view.live, name, c) <==> c == first || c == second
    requires forall c :: c in view.held ==> view.held[c] != name
    ensures view.Shows(name, first)
  {
    assert Named(view.live, name, first);
    forall d | view.Bears(d, name) && d != first ensures view.Before(first, d) {
      assert Named(view.live, name, d);
    }
  }

  // From an empty schema.

  /** A schema with one class that is committed. */
  method OneClass(name: string, kind: Kind) returns (s: Schema, a: nat)
    requires NameOk(name)
    ensures fresh(s) && s.Valid() && s.touched == {} && s.held == map[] && a in s.stored
    ensures s.classes == map[a := Class(name, kind, None, [], map[])] && s.View().Shows(name, a)
    ensures s.maxClassId == FIRST_CLASS + 1 && s.maxPropertyId == BUILT_IN_IDS
  {
    s := new Schema();
    forall c ensures !s.View().Shows(name, c) {
    }
    var r := s.Create(name, kind);
    a := r.value;
    s.Commit();
    forall d ensures s.View().Bears(d, name) ==> d == a {
    }
  }

  /** Renamed, dropped, created twice under the new name: two classes that the name does not stand for. */
  method HiddenFromStart() returns (s: Schema, first: nat, second: nat, third: Result<nat>)
    ensures first != second && Named(s.classes, "B", first) && Named(s.classes, "B", second) && third == Err(NoClass)
  {
    var a;
    s, a := OneClass("A", VertexClass);
    forall c ensures !s.View().Bears(c, "B") {
    }
    RenameAndDrop(s, "A", a, "B");
    first, second, third := CreateTwice(s, a, "B", VertexClass, "p");
  }

  /** A class that has got a property in this transaction is found, and dropped, under the empty name. */
  method DropEmptyName() returns (r: Result<nat>, a: nat)
    ensures r == Ok(a)
  {
    var s;
    s, a := OneClass("A", VertexClass);
    TouchProperty(s, a);
    r := s.Drop("");
  }

  /** It is also renamed under it. */
  method AlterEmptyName() returns (s: Schema, a: nat)
    ensures Named(s.classes, "Z", a)
  {
    s, a := OneClass("A", VertexClass);
    TouchProperty(s, a);
    forall c ensures !s.View().Bears(c, "Z") {
    }
    RenameFreely(s, "", a, "Z");
  }

  method TouchProperty(s: Schema, a: nat)
    requires s.Valid() && s.touched == {} && s.held == map[] && s.maxPropertyId < PROPERTY_LIMIT
    requires s.classes == map[a := Class("A", VertexClass, None, [], map[])] && s.View().Shows("A", a)
    modifies s
    ensures s.Valid() && s.held == map[] && s.classes.Keys == {a} && s.classes[a].name == "A" && s.View().Shows("", a)
    ensures forall n :: n in s.classes[a].properties ==> !s.classes[a].properties[n].indexed
  {
    OnlyOne(s.View(), "A", a);
    var added := s.AddProperty("A", "p");
    WrongNameIff(s.View(), "", a);
  }
}
