/**
 Which class a name stands for. A lookup by name takes the first descriptor that bears the name, those that the
 transaction has named first, and finds nothing if that one is of a dropped class, whatever comes after it.
 */
module SchemaNames {
  import opened SchemaForest

  /** A class has the name. */
  ghost predicate Named(cs: Classes, name: string, c: nat) {
    c in cs && cs[c].name == name
  }

  ghost predicate Taken(cs: Classes, name: string) {
    exists c :: Named(cs, name, c)
  }

  ghost predicate NamedOnce(cs: Classes, i: nat, j: nat) {
    i in cs && j in cs && cs[i].name == cs[j].name ==> i == j
  }

  /** No two classes have the same name. */
  ghost predicate OneName(cs: Classes) {
    forall i, j :: NamedOnce(cs, i, j)
  }

  /**
   What a lookup goes through: the classes, the dropped classes whose descriptors are still held, with their names,
   which of both the transaction has touched, and which of those it has given their names.
   */
  datatype View = View(live: Classes, held: map<nat, string>, recent: set<nat>, touched: set<nat>) {

    /** The descriptor has the name. */
    predicate Calls(c: nat, name: string) {
      (c in live && live[c].name == name) || (c in held && held[c] == name)
    }

    /** The descriptor has been touched and not given a name, so that its uncommitted name reads as empty. */
    predicate Unnamed(c: nat) {
      (c in live || c in held) && c in touched && c !in recent
    }

    /** The lookup takes the descriptor for one of that name. */
    predicate Bears(c: nat, name: string) {
      Calls(c, name) || (name == "" && Unnamed(c))
    }

    /** The lookup comes to `c` before it comes to `d`. */
    predicate Before(c: nat, d: nat) {
      if (c in recent) == (d in recent) then c < d else c in recent
    }

    /** The name stands for the class `c`. */
    ghost predicate Shows(name: string, c: nat) {
      c in live && Bears(c, name) && forall d :: Bears(d, name) && d != c ==> Before(c, d)
    }

    ghost predicate Shown(name: string) {
      exists c :: Shows(name, c)
    }

    /** A dropped class bears the name, and the lookup comes to it before any class. */
    ghost predicate Hides(name: string, d: nat) {
      d in held && Bears(d, name) && forall c :: c in live && Bears(c, name) ==> Before(d, c)
    }

    /** A dropped class is no class, and no descriptor has the empty name. */
    ghost predicate Proper() {
      live.Keys !! held.Keys && forall c :: !Calls(c, "")
    }
  }

  lemma ShowsOnce(view: View, name: string, c: nat, d: nat)
    requires view.Shows(name, c) && view.Shows(name, d)
    ensures c == d
  {
    assert view.Bears(c, name) && view.Bears(d, name);
  }

  lemma {:induction false} Least(s: set<nat>) returns (m: nat)
    requires s != {}
    ensures m in s && forall k :: k in s ==> m <= k
    decreases |s|
  {
    var k :| k in s;
    if s == {k} {
      m := k;
    } else {
      var rest := Least(s - {k});
      m := if k < rest then k else rest;
      assert forall q :: q in s ==> q == k || q in s - {k};
    }
  }

  /** Some descriptor that bears the name comes before all others. */
  lemma FirstBearer(view: View, name: string, c: nat) returns (m: nat)
    requires view.Bears(c, name)
    ensures view.Bears(m, name) && forall d :: view.Bears(d, name) && d != m ==> view.Before(m, d)
  {
    var all := set d | d in view.live.Keys + view.held.Keys && view.Bears(d, name);
    assert c in all;
    var first := all * view.recent;
    if first != {} {
      m := Least(first);
    } else {
      m := Least(all);
    }
    forall d | view.Bears(d, name) && d != m ensures view.Before(m, d) {
      assert d in all;
      if first != {} && d in view.recent {
        assert d in first;
      }
      if first == {} {
        assert d !in first && m !in first;
      }
    }
  }

  /** A name that some class bears stands for one exactly if no dropped class that is still held hides it. */
  lemma ShownIff(view: View, name: string, c: nat)
    requires view.Proper() && c in view.live && view.Bears(c, name)
    ensures view.Shown(name) <==> !exists d :: view.Hides(name, d)
  {
    var m := FirstBearer(view, name, c);
    if m in view.live {
      assert view.Shows(name, m);
      forall d ensures !view.Hides(name, d) {
        assert view.Bears(d, name) && d != m ==> view.Before(m, d);
      }
    } else {
      assert view.Hides(name, m);
      forall d ensures !view.Shows(name, d) {
        assert d in view.live && view.Bears(d, name) ==> view.Before(m, d);
      }
    }
  }

  /** The first of the touched descriptors without a new name is that of the class `c`. */
  ghost predicate FirstUnnamed(view: View, c: nat) {
    c in view.live && view.Unnamed(c) && forall d :: view.Unnamed(d) ==> c <= d
  }

  /** The name stands for a class that does not have it exactly if it is empty and such a descriptor comes first. */
  lemma WrongNameIff(view: View, name: string, c: nat)
    requires view.Proper()
    ensures view.Shows(name, c) && !Named(view.live, name, c) <==> name == "" && FirstUnnamed(view, c)
  {
    if name == "" && FirstUnnamed(view, c) {
      assert !view.Calls(c, "");
      forall d | view.Bears(d, "") && d != c ensures view.Before(c, d) {
        assert !view.Calls(d, "");
      }
    }
    if view.Shows("", c) {
      assert !view.Calls(c, "");
      forall d | view.Unnamed(d) ensures c <= d {
        assert view.Bears(d, "");
      }
    }
  }

  // Unique names.

  /** A class added under a name keeps names unique exactly if the name is not taken. */
  lemma AddedNames(cs: Classes, after: Classes, id: nat, name: string)
    requires id !in cs && (forall k :: k in after <==> k in cs || k == id) && after[id].name == name
    requires forall k :: k in cs ==> after[k].name == cs[k].name
    ensures OneName(after) <==> OneName(cs) && !Taken(cs, name)
  {
    if OneName(after) {
      forall i, j ensures NamedOnce(cs, i, j) {
        assert NamedOnce(after, i, j);
      }
      forall c ensures !Named(cs, name, c) {
        assert NamedOnce(after, id, c);
      }
    }
    if OneName(cs) && !Taken(cs, name) {
      forall i, j ensures NamedOnce(after, i, j) {
        assert NamedOnce(cs, i, j) && !Named(cs, name, i) && !Named(cs, name, j);
      }
    }
  }

  /** Likewise for a class renamed, unless it has the name itself. */
  lemma RenamedNames(cs: Classes, c: nat, name: string)
    requires OneName(cs) && c in cs
    ensures OneName(cs[c := cs[c].(name := name)]) <==> forall d :: Named(cs, name, d) ==> d == c
  {
    var after := cs[c := cs[c].(name := name)];
    if d :| Named(cs, name, d) && d != c {
      assert !NamedOnce(after, c, d);
    } else {
      forall i, j ensures NamedOnce(after, i, j) {
        assert NamedOnce(cs, i, j) && (Named(cs, name, i) ==> i == c) && (Named(cs, name, j) ==> j == c);
      }
    }
  }

  /** No other subclass of the class's superclass has its name. */
  predicate Alone(cs: Classes, id: nat)
    requires id in cs
  {
    cs[id].super.Some? && cs[id].super.value in cs ==>
      forall k :: k in cs[cs[id].super.value].subs && k != id ==> k in cs && cs[k].name != cs[id].name
  }

  lemma OneNameAlone(cs: Classes, id: nat)
    requires OneName(cs) && Forest(cs) && id in cs
    ensures Alone(cs, id)
  {
    if cs[id].super.Some? && cs[id].super.value in cs {
      var s := cs[id].super.value;
      forall k | k in cs[s].subs && k != id ensures k in cs && cs[k].name != cs[id].name {
        assert LinkDown(cs, s, k) && NamedOnce(cs, k, id);
      }
    }
  }

  lemma DroppedNames(cs: Classes, id: nat)
    requires OneName(cs) && id in cs
    ensures OneName(Dropped(cs, id))
  {
    forall i, j ensures NamedOnce(Dropped(cs, id), i, j) {
      assert NamedOnce(cs, i, j);
    }
  }

  // The bookkeeping behind a view.

  /** What a transaction knows of descriptors fits together; `stored` are the classes in the shared table. */
  ghost predicate Tidy(view: View, stored: set<nat>, maxClass: nat) {
    && view.held.Keys !! view.live.Keys && (forall c :: c in view.held ==> c <= maxClass)
    && stored <= view.live.Keys && view.live.Keys - stored <= view.recent <= view.touched
    && view.touched <= view.live.Keys + view.held.Keys
    && (forall c :: c in view.live ==> view.live[c].name != "") && (forall c :: c in view.held ==> view.held[c] != "")
  }

  /** A class is new, or renamed, or only touched; the other classes keep their names. */
  lemma TidyChange(view: View, after: View, stored: set<nat>, maxClass: nat, most: nat, c: nat, named: bool)
    requires Tidy(view, stored, maxClass) && most >= maxClass && c !in view.held && after.held == view.held
    requires after.live.Keys == view.live.Keys + {c} && after.live[c].name != ""
    requires c in stored || c in view.recent || named
    requires forall k :: k in view.live && k != c ==> after.live[k].name == view.live[k].name
    requires after.recent == if named then view.recent + {c} else view.recent
    requires view.touched + {c} <= after.touched <= view.touched + after.live.Keys
    ensures Tidy(after, stored, most)
  {
  }

  /** A class is dropped: its descriptor is held if the shared table has it. */
  lemma TidyErase(view: View, after: View, stored: set<nat>, maxClass: nat, id: nat, around: set<nat>)
    requires Tidy(view, stored, maxClass) && id in view.live && id <= maxClass && around <= view.live.Keys - {id}
    requires after.live.Keys == view.live.Keys - {id}
    requires forall k :: k in after.live ==> after.live[k].name == view.live[k].name
    requires after.held == if id in stored then view.held[id := view.live[id].name] else view.held
    requires after.recent == if id in stored then view.recent else view.recent - {id}
    requires after.touched == (if id in stored then view.touched + {id} else view.touched - {id}) + around
    ensures Tidy(after, stored - {id}, maxClass)
  {
  }
}
