/**
 Classes that inherit from one another, as a value: a forest linked both ways, in which every class is younger than the
 class it extends.
 */
module SchemaForest {
  import opened Common

  datatype Kind = VertexClass | EdgeClass

  /** A property belongs to one class; `indexed` says whether an index still uses it. */
  datatype PropertyInfo = PropertyInfo(id: nat, indexed: bool)

  datatype Class =
    Class(name: string, kind: Kind, super: Option<nat>, subs: seq<nat>, properties: map<string, PropertyInfo>)

  type Classes = map<nat, Class>

  // The links.

  ghost predicate LinkUp(cs: Classes, c: nat) {
    c in cs && cs[c].super.Some? ==>
      var s := cs[c].super.value;
      s < c && s in cs && cs[s].kind == cs[c].kind && c in cs[s].subs
  }

  ghost predicate LinkDown(cs: Classes, p: nat, k: nat) {
    p in cs && k in cs[p].subs ==> k in cs && cs[k].super == Some(p)
  }

  ghost predicate NoRepeats(ks: seq<nat>) {
    forall i, j :: 0 <= i < j < |ks| ==> ks[i] != ks[j]
  }

  ghost predicate SubsOnce(cs: Classes, p: nat) {
    p in cs ==> NoRepeats(cs[p].subs)
  }

  ghost predicate Forest(cs: Classes) {
    (forall c :: LinkUp(cs, c)) && (forall p, k :: LinkDown(cs, p, k)) && (forall p :: SubsOnce(cs, p))
  }

  /** `a` is `c` or a class that `c` extends, directly or not. The walk goes to ever smaller ids. */
  predicate Above(cs: Classes, a: nat, c: nat)
    decreases c
  {
    c in cs && (a == c || (cs[c].super.Some? && cs[c].super.value < c && Above(cs, a, cs[c].super.value)))
  }

  lemma {:induction false} AboveIsKnown(cs: Classes, a: nat, c: nat)
    requires Above(cs, a, c)
    ensures a in cs && a <= c
    decreases c
  {
    if a != c {
      AboveIsKnown(cs, a, cs[c].super.value);
    }
  }

  lemma {:induction false} AboveThen(cs: Classes, a: nat, b: nat, c: nat)
    requires Above(cs, a, b) && Above(cs, b, c)
    ensures Above(cs, a, c)
    decreases c
  {
    if b != c {
      AboveThen(cs, a, b, cs[c].super.value);
    }
  }

  /** Classes above the same class are above one another. */
  lemma {:induction false} ChainIsOrdered(cs: Classes, a: nat, b: nat, c: nat)
    requires Above(cs, a, c) && Above(cs, b, c)
    ensures Above(cs, a, b) || Above(cs, b, a)
    decreases c
  {
    if a != c && b != c {
      ChainIsOrdered(cs, a, b, cs[c].super.value);
    }
  }

  // The invariant.

  /** No name is defined twice on the way from a root to a leaf. */
  ghost predicate NoClash(cs: Classes, a: nat, c: nat, n: string) {
    a != c && Above(cs, a, c) && a in cs && n in cs[a].properties ==> n !in cs[c].properties
  }

  /** Ids up to this one are those of the built-in properties. */
  const BUILT_IN_IDS: nat := 5

  /** Property ids are given out once. */
  ghost predicate IdOnce(cs: Classes, c: nat, n: string, d: nat, m: string) {
    c in cs && n in cs[c].properties && d in cs && m in cs[d].properties ==>
      cs[c].properties[n].id == cs[d].properties[m].id ==> c == d && n == m
  }

  ghost predicate InRange(cs: Classes, maxClass: nat, c: nat) {
    c in cs ==> 0 < c <= maxClass
  }

  ghost predicate IdInRange(cs: Classes, maxProperty: nat, c: nat, n: string) {
    c in cs && n in cs[c].properties ==> BUILT_IN_IDS < cs[c].properties[n].id <= maxProperty
  }

  ghost predicate Distinct(cs: Classes, maxClass: nat, maxProperty: nat) {
    && BUILT_IN_IDS <= maxProperty
    && (forall c :: InRange(cs, maxClass, c))
    && (forall c, n :: IdInRange(cs, maxProperty, c, n))
    && (forall c, n, d, m :: IdOnce(cs, c, n, d, m))
  }

  ghost predicate Clear(cs: Classes) {
    forall a, c, n :: NoClash(cs, a, c, n)
  }

  ghost predicate Valid(cs: Classes, maxClass: nat, maxProperty: nat) {
    Forest(cs) && Clear(cs) && Distinct(cs, maxClass, maxProperty)
  }

  // Looking up and down.

  /** The recursion of `isNotDuplicatedProperty`: up the chain. */
  predicate OnChain(cs: Classes, c: nat, n: string)
    decreases c
  {
    c in cs && (n in cs[c].properties
                || (cs[c].super.Some? && cs[c].super.value < c && OnChain(cs, cs[c].super.value, n)))
  }

  lemma {:induction false} OnChainMeans(cs: Classes, c: nat, n: string)
    ensures OnChain(cs, c, n) <==> exists a :: Above(cs, a, c) && a in cs && n in cs[a].properties
    decreases c
  {
    if c in cs && cs[c].super.Some? && cs[c].super.value < c {
      var s := cs[c].super.value;
      OnChainMeans(cs, s, n);
      if OnChain(cs, s, n) {
        var a :| Above(cs, a, s) && a in cs && n in cs[a].properties;
        assert Above(cs, a, c);
      }
    }
    if c in cs && n in cs[c].properties {
      assert Above(cs, c, c);
    }
  }

  /** `k` is reached from `p` by following subclass links, within ids up to `limit`. */
  ghost predicate Reaches(cs: Classes, limit: nat, p: nat, k: nat)
    decreases limit - p
  {
    p in cs && (p == k || exists q :: q in cs[p].subs && p < q <= limit && Reaches(cs, limit, q, k))
  }

  /** Down the subclass links is up the superclass links. */
  lemma {:induction false} DownIsUp(cs: Classes, limit: nat, p: nat, k: nat)
    requires Forest(cs) && Reaches(cs, limit, p, k)
    ensures Above(cs, p, k)
    decreases limit - p
  {
    if p != k {
      var q :| q in cs[p].subs && p < q <= limit && Reaches(cs, limit, q, k);
      DownIsUp(cs, limit, q, k);
      assert LinkDown(cs, p, q);
      assert Above(cs, p, q);
      AboveThen(cs, p, q, k);
    }
  }

  lemma {:induction false} UpIsDown(cs: Classes, limit: nat, p: nat, k: nat, q: nat)
    requires Forest(cs) && Above(cs, p, k) && Reaches(cs, limit, k, q) && k <= limit
    ensures Reaches(cs, limit, p, q)
    decreases k
  {
    if p != k {
      var s := cs[k].super.value;
      assert LinkUp(cs, k);
      AboveIsKnown(cs, p, s);
      UpIsDown(cs, limit, p, s, q);
    }
  }

  /** The recursion of `isNotOverridenProperty`: down every branch. */
  ghost predicate InSubtree(cs: Classes, limit: nat, c: nat, n: string)
    decreases limit - c
  {
    c in cs && (n in cs[c].properties
                || exists k :: k in cs[c].subs && c < k <= limit && InSubtree(cs, limit, k, n))
  }

  lemma {:induction false} InSubtreeMeans(cs: Classes, limit: nat, c: nat, n: string)
    ensures InSubtree(cs, limit, c, n) <==> exists k :: Reaches(cs, limit, c, k) && k in cs && n in cs[k].properties
    decreases limit - c
  {
    if InSubtree(cs, limit, c, n) {
      if n in cs[c].properties {
        assert Reaches(cs, limit, c, c);
      } else {
        var q :| q in cs[c].subs && c < q <= limit && InSubtree(cs, limit, q, n);
        InSubtreeMeans(cs, limit, q, n);
        var k :| Reaches(cs, limit, q, k) && k in cs && n in cs[k].properties;
        assert Reaches(cs, limit, c, k);
      }
    }
    if k :| Reaches(cs, limit, c, k) && k in cs && n in cs[k].properties {
      if k != c {
        var q :| q in cs[c].subs && c < q <= limit && Reaches(cs, limit, q, k);
        InSubtreeMeans(cs, limit, q, n);
      }
    }
  }

  // New classes.

  function Added(cs: Classes, id: nat, name: string, kind: Kind): Classes {
    cs[id := Class(name, kind, None, [], map[])]
  }

  function Extended(cs: Classes, id: nat, name: string, s: nat): Classes
    requires s in cs
  {
    cs[s := cs[s].(subs := cs[s].subs + [id])][id := Class(name, cs[s].kind, Some(s), [], map[])]
  }

  /** The classes that were there keep their ancestors. */
  lemma {:induction false} AddedAbove(cs: Classes, after: Classes, id: nat, a: nat, c: nat)
    requires id !in cs && (forall k :: k in after <==> k in cs || k == id)
    requires forall k :: k in cs ==> after[k].super == cs[k].super
    requires forall k :: LinkUp(cs, k)
    ensures c != id ==> (Above(after, a, c) <==> Above(cs, a, c))
    decreases c
  {
    if c in cs && cs[c].super.Some? {
      assert LinkUp(cs, c);
      AddedAbove(cs, after, id, a, cs[c].super.value);
    }
  }

  lemma AddedDistinct(cs: Classes, after: Classes, maxClass: nat, maxProperty: nat, id: nat)
    requires Distinct(cs, maxClass, maxProperty) && id == maxClass + 1
    requires forall k :: k in after <==> k in cs || k == id
    requires forall k :: k in cs ==> after[k].properties == cs[k].properties
    requires after[id].properties == map[]
    ensures Distinct(after, id, maxProperty)
  {
    assert InRange(cs, maxClass, id);
    forall c ensures InRange(after, id, c) {
      assert InRange(cs, maxClass, c);
    }
    forall c, n ensures IdInRange(after, maxProperty, c, n) {
      assert IdInRange(cs, maxProperty, c, n);
    }
    forall c, n, d, m ensures IdOnce(after, c, n, d, m) {
      assert IdOnce(cs, c, n, d, m);
    }
  }

  lemma AddedClear(cs: Classes, after: Classes, id: nat)
    requires Clear(cs) && Forest(cs) && id !in cs && forall k :: k in after <==> k in cs || k == id
    requires forall k :: k in cs ==> after[k].super == cs[k].super && after[k].properties == cs[k].properties
    requires after[id].properties == map[]
    ensures Clear(after)
  {
    forall a, c, n ensures NoClash(after, a, c, n) {
      if c != id {
        AddedAbove(cs, after, id, a, c);
        assert NoClash(cs, a, c, n);
      }
    }
  }

  lemma AddedValid(cs: Classes, maxClass: nat, maxProperty: nat, id: nat, name: string, kind: Kind)
    requires Valid(cs, maxClass, maxProperty) && id == maxClass + 1
    ensures Valid(Added(cs, id, name, kind), id, maxProperty)
  {
    var after := Added(cs, id, name, kind);
    assert InRange(cs, maxClass, id);
    forall c ensures LinkUp(after, c) && SubsOnce(after, c) {
      assert LinkUp(cs, c) && SubsOnce(cs, c);
    }
    forall p, k ensures LinkDown(after, p, k) {
      assert LinkDown(cs, p, k);
    }
    AddedClear(cs, after, id);
    AddedDistinct(cs, after, maxClass, maxProperty, id);
  }

  lemma ExtendedValid(cs: Classes, maxClass: nat, maxProperty: nat, id: nat, name: string, s: nat)
    requires Valid(cs, maxClass, maxProperty) && id == maxClass + 1 && s in cs
    ensures Valid(Extended(cs, id, name, s), id, maxProperty)
  {
    var after := Extended(cs, id, name, s);
    assert InRange(cs, maxClass, id) && InRange(cs, maxClass, s);
    forall c ensures LinkUp(after, c) {
      assert LinkUp(cs, c);
    }
    forall p, k ensures LinkDown(after, p, k) {
      assert LinkDown(cs, p, k);
    }
    forall p ensures SubsOnce(after, p) {
      assert SubsOnce(cs, p) && LinkDown(cs, p, id);
    }
    AddedClear(cs, after, id);
    AddedDistinct(cs, after, maxClass, maxProperty, id);
  }

  // Renaming a class and changing its properties.

  lemma {:induction false} SameAbove(cs: Classes, after: Classes, a: nat, c: nat)
    requires after.Keys == cs.Keys && forall k :: k in cs ==> after[k].super == cs[k].super
    ensures Above(after, a, c) <==> Above(cs, a, c)
    decreases c
  {
    if c in cs && cs[c].super.Some? && cs[c].super.value < c {
      SameAbove(cs, after, a, cs[c].super.value);
    }
  }

  lemma SameForest(cs: Classes, after: Classes)
    requires Forest(cs) && after.Keys == cs.Keys
    requires forall k :: k in cs ==>
               after[k].super == cs[k].super && after[k].subs == cs[k].subs && after[k].kind == cs[k].kind
    ensures Forest(after)
  {
    forall c ensures LinkUp(after, c) && SubsOnce(after, c) {
      assert LinkUp(cs, c) && SubsOnce(cs, c);
    }
    forall p, k ensures LinkDown(after, p, k) {
      assert LinkDown(cs, p, k);
    }
  }

  lemma RenamedValid(cs: Classes, maxClass: nat, maxProperty: nat, c: nat, name: string)
    requires Valid(cs, maxClass, maxProperty) && c in cs
    ensures Valid(cs[c := cs[c].(name := name)], maxClass, maxProperty)
  {
    var after := cs[c := cs[c].(name := name)];
    assert after.Keys == cs.Keys;
    SameForest(cs, after);
    forall a, d, n ensures NoClash(after, a, d, n) {
      SameAbove(cs, after, a, d);
      assert NoClash(cs, a, d, n);
    }
    forall d ensures InRange(after, maxClass, d) {
      assert InRange(cs, maxClass, d);
    }
    forall d, n ensures IdInRange(after, maxProperty, d, n) {
      assert IdInRange(cs, maxProperty, d, n);
    }
    forall d, n, e, m ensures IdOnce(after, d, n, e, m) {
      assert IdOnce(cs, d, n, e, m);
    }
  }

  /** The class with other properties. */
  function Changed(cs: Classes, c: nat, properties: map<string, PropertyInfo>): Classes
    requires c in cs
  {
    cs[c := cs[c].(properties := properties)]
  }

  /** A name that neither the chain above nor any branch below defines can be defined. */
  lemma ChangedClear(cs: Classes, limit: nat, c: nat, properties: map<string, PropertyInfo>, n: string)
    requires Forest(cs) && Clear(cs) && c in cs && forall k :: InRange(cs, limit, k)
    requires !OnChain(cs, c, n) && !InSubtree(cs, limit, c, n)
    requires forall m :: m in properties ==> m in cs[c].properties || m == n
    ensures Clear(Changed(cs, c, properties))
  {
    var after := Changed(cs, c, properties);
    forall a, d, m ensures NoClash(after, a, d, m) {
      SameAbove(cs, after, a, d);
      assert NoClash(cs, a, d, m);
      if m == n && Above(cs, a, d) {
        NameIsNew(cs, limit, c, n, a, d);
      }
    }
  }

  lemma NameIsNew(cs: Classes, limit: nat, c: nat, n: string, a: nat, d: nat)
    requires Forest(cs) && c in cs && (forall k :: InRange(cs, limit, k)) && Above(cs, a, d)
    requires !OnChain(cs, c, n) && !InSubtree(cs, limit, c, n)
    ensures a == c ==> d in cs && n !in cs[d].properties
    ensures d == c ==> a in cs && n !in cs[a].properties
  {
    AboveIsKnown(cs, a, d);
    OnChainMeans(cs, c, n);
    InSubtreeMeans(cs, limit, c, n);
    if a == c {
      assert InRange(cs, limit, d);
      assert Reaches(cs, limit, d, d);
      UpIsDown(cs, limit, c, d, d);
    }
  }

  lemma ChangedForest(cs: Classes, c: nat, properties: map<string, PropertyInfo>)
    requires Forest(cs) && c in cs
    ensures Forest(Changed(cs, c, properties))
  {
    assert Changed(cs, c, properties).Keys == cs.Keys;
    SameForest(cs, Changed(cs, c, properties));
  }

  /** Every property has an id of its own: the one it had, or a new one. */
  lemma ChangedDistinct(cs: Classes, maxClass: nat, maxProperty: nat, c: nat, properties: map<string, PropertyInfo>,
                        n: string, was: string, most: nat)
    requires Distinct(cs, maxClass, maxProperty) && c in cs && most >= maxProperty
    requires forall m :: m in properties && m != n ==>
               m != was && m in cs[c].properties && properties[m].id == cs[c].properties[m].id
    requires n in properties ==>
               || (properties[n].id == most > maxProperty)
               || (was in cs[c].properties && properties[n].id == cs[c].properties[was].id)
    ensures Distinct(Changed(cs, c, properties), maxClass, most)
  {
    var after := Changed(cs, c, properties);
    forall d ensures InRange(after, maxClass, d) {
      assert InRange(cs, maxClass, d);
    }
    forall d, m ensures IdInRange(after, most, d, m) {
      assert IdInRange(cs, maxProperty, d, m) && IdInRange(cs, maxProperty, c, was);
    }
    forall d, m, e, k ensures IdOnce(after, d, m, e, k) {
      var m', k' := if d == c && m == n then was else m, if e == c && k == n then was else k;
      assert IdOnce(cs, d, m', e, k') && IdInRange(cs, maxProperty, d, m) && IdInRange(cs, maxProperty, e, k);
    }
  }

  lemma WithPropertyValid(cs: Classes, maxClass: nat, maxProperty: nat, c: nat, n: string, id: nat)
    requires Valid(cs, maxClass, maxProperty) && c in cs && id == maxProperty + 1
    requires !OnChain(cs, c, n) && !InSubtree(cs, maxClass, c, n)
    ensures Valid(Changed(cs, c, cs[c].properties[n := PropertyInfo(id, false)]), maxClass, id)
  {
    var properties := cs[c].properties[n := PropertyInfo(id, false)];
    ChangedForest(cs, c, properties);
    ChangedClear(cs, maxClass, c, properties, n);
    ChangedDistinct(cs, maxClass, maxProperty, c, properties, n, n, id);
  }

  lemma RenamedPropertyValid(cs: Classes, maxClass: nat, maxProperty: nat, c: nat, was: string, n: string)
    requires Valid(cs, maxClass, maxProperty) && c in cs && was in cs[c].properties
    requires !OnChain(cs, c, n) && !InSubtree(cs, maxClass, c, n)
    ensures Valid(Changed(cs, c, (cs[c].properties - {was})[n := cs[c].properties[was]]), maxClass, maxProperty)
  {
    var properties := (cs[c].properties - {was})[n := cs[c].properties[was]];
    ChangedForest(cs, c, properties);
    ChangedClear(cs, maxClass, c, properties, n);
    ChangedDistinct(cs, maxClass, maxProperty, c, properties, n, was, maxProperty);
  }

  lemma WithoutPropertyValid(cs: Classes, maxClass: nat, maxProperty: nat, c: nat, n: string)
    requires Valid(cs, maxClass, maxProperty) && c in cs
    ensures Valid(Changed(cs, c, cs[c].properties - {n}), maxClass, maxProperty)
  {
    var properties := cs[c].properties - {n};
    var after := Changed(cs, c, properties);
    ChangedForest(cs, c, properties);
    forall a, d, m ensures NoClash(after, a, d, m) {
      SameAbove(cs, after, a, d);
      assert NoClash(cs, a, d, m);
    }
    ChangedDistinct(cs, maxClass, maxProperty, c, properties, n, n, maxProperty);
  }

  // Dropping a class.

  function Without(ks: seq<nat>, id: nat): (r: seq<nat>)
    ensures forall k :: k in r <==> k in ks && k != id
  {
    if ks == [] then [] else (if ks[0] == id then [] else [ks[0]]) + Without(ks[1..], id)
  }

  lemma {:induction false} WithoutOnce(ks: seq<nat>, id: nat)
    requires NoRepeats(ks)
    ensures NoRepeats(Without(ks, id))
  {
    if ks != [] {
      WithoutOnce(ks[1..], id);
      assert ks[0] !in ks[1..];
    }
  }

  /** The dropped class's subclasses move up to its superclass, or become roots. */
  function Dropped(cs: Classes, id: nat): Classes
    requires id in cs
  {
    map k | k in cs && k != id ::
      if k in cs[id].subs then cs[k].(super := cs[id].super)
      else if cs[id].super == Some(k) then cs[k].(subs := Without(cs[k].subs, id) + cs[id].subs)
      else cs[k]
  }

  /** The class dropped is no class's superclass any more, nor a superclass its own subclass. */
  lemma DroppedForest(cs: Classes, id: nat)
    requires Forest(cs) && id in cs
    ensures Forest(Dropped(cs, id))
  {
    var after := Dropped(cs, id);
    assert LinkUp(cs, id) && SubsOnce(cs, id);
    forall c ensures LinkUp(after, c) {
      assert LinkUp(cs, c) && LinkDown(cs, id, c);
      if c in after && after[c].super.Some? {
        assert LinkDown(cs, id, after[c].super.value) && LinkUp(cs, after[c].super.value);
      }
    }
    forall p: nat, k: nat ensures LinkDown(after, p, k) {
      assert LinkDown(cs, p, k) && LinkDown(cs, id, k) && LinkDown(cs, id, p) && LinkUp(cs, p);
    }
    forall p: nat ensures SubsOnce(after, p) {
      assert SubsOnce(cs, p);
      if p in after && cs[id].super == Some(p) {
        WithoutOnce(cs[p].subs, id);
        forall k: nat ensures !(k in Without(cs[p].subs, id) && k in cs[id].subs) {
          assert LinkDown(cs, p, k) && LinkDown(cs, id, k);
        }
        JoinedOnce(Without(cs[p].subs, id), cs[id].subs);
      }
    }
  }

  lemma JoinedOnce(a: seq<nat>, b: seq<nat>)
    requires NoRepeats(a) && NoRepeats(b) && forall k :: !(k in a && k in b)
    ensures NoRepeats(a + b)
  {
    forall i, j | 0 <= i < j < |a + b| ensures (a + b)[i] != (a + b)[j] {
      if i < |a| <= j {
        assert a[i] in a && b[j - |a|] in b;
      }
    }
  }

  /** Among the classes that remain, who extends whom does not change. */
  lemma {:induction false} DroppedAbove(cs: Classes, id: nat, a: nat, c: nat)
    requires Forest(cs) && id in cs && a != id && c != id
    ensures Above(Dropped(cs, id), a, c) <==> Above(cs, a, c)
    decreases c
  {
    assert LinkUp(cs, c) && LinkUp(cs, id) && LinkDown(cs, id, c);
    if c in cs && cs[c].super.Some? {
      var s := cs[c].super.value;
      if s == id {
        if cs[id].super.Some? {
          DroppedAbove(cs, id, a, cs[id].super.value);
        }
      } else {
        DroppedAbove(cs, id, a, s);
      }
    }
  }

  lemma DroppedValid(cs: Classes, maxClass: nat, maxProperty: nat, id: nat)
    requires Valid(cs, maxClass, maxProperty) && id in cs
    ensures Valid(Dropped(cs, id), maxClass, maxProperty)
  {
    var after := Dropped(cs, id);
    DroppedForest(cs, id);
    forall a, c, n ensures NoClash(after, a, c, n) {
      if a in after && c in after {
        DroppedAbove(cs, id, a, c);
        assert NoClash(cs, a, c, n);
      }
    }
    forall d ensures InRange(after, maxClass, d) {
      assert InRange(cs, maxClass, d);
    }
    forall d, n ensures IdInRange(after, maxProperty, d, n) {
      assert IdInRange(cs, maxProperty, d, n);
    }
    forall d, n, e, m ensures IdOnce(after, d, n, e, m) {
      assert IdOnce(cs, d, n, e, m);
    }
  }

  /** The subclasses of every class that remains are the same, less the class dropped. */
  lemma DroppedReaches(cs: Classes, maxClass: nat, maxProperty: nat, id: nat, a: nat, c: nat)
    requires Valid(cs, maxClass, maxProperty) && id in cs && a != id && c != id
    ensures Reaches(Dropped(cs, id), maxClass, a, c) <==> Reaches(cs, maxClass, a, c)
  {
    DroppedAbove(cs, id, a, c);
    DroppedValid(cs, maxClass, maxProperty, id);
    ReachesIffAbove(cs, maxClass, maxProperty, a, c);
    ReachesIffAbove(Dropped(cs, id), maxClass, maxProperty, a, c);
  }

  lemma ReachesIffAbove(cs: Classes, maxClass: nat, maxProperty: nat, a: nat, c: nat)
    requires Valid(cs, maxClass, maxProperty)
    ensures Reaches(cs, maxClass, a, c) <==> Above(cs, a, c)
  {
    if Reaches(cs, maxClass, a, c) {
      DownIsUp(cs, maxClass, a, c);
    }
    if Above(cs, a, c) {
      assert InRange(cs, maxClass, c) && Reaches(cs, maxClass, c, c);
      UpIsDown(cs, maxClass, a, c, c);
    }
  }

  // The properties of a class, its own and inherited.

  /** `isExistingPropertyExtend`: the nearest class up the chain that defines the name. */
  function Definer(cs: Classes, c: nat, n: string): (r: Option<nat>)
    decreases c
  {
    if c !in cs then None
    else if n in cs[c].properties then Some(c)
    else if cs[c].super.Some? && cs[c].super.value < c then Definer(cs, cs[c].super.value, n)
    else None
  }

  lemma {:induction false} DefinerIsAbove(cs: Classes, c: nat, n: string)
    ensures Definer(cs, c, n).None? <==> !OnChain(cs, c, n)
    ensures Definer(cs, c, n).Some? ==>
              var a := Definer(cs, c, n).value; Above(cs, a, c) && a in cs && n in cs[a].properties
    decreases c
  {
    if c in cs && n !in cs[c].properties && cs[c].super.Some? && cs[c].super.value < c {
      DefinerIsAbove(cs, cs[c].super.value, n);
    }
  }

  /** It is the only one. */
  lemma DefinerIsUnique(cs: Classes, c: nat, n: string, a: nat)
    requires Clear(cs) && Above(cs, a, c) && a in cs && n in cs[a].properties
    ensures Definer(cs, c, n) == Some(a)
  {
    OnChainMeans(cs, c, n);
    DefinerIsAbove(cs, c, n);
    var b := Definer(cs, c, n).value;
    ChainIsOrdered(cs, a, b, c);
    assert NoClash(cs, a, b, n) && NoClash(cs, b, a, n);
  }

  /** The table of `getClassMapProperty`: the class's own properties, then those further up that are not yet there. */
  function Table(cs: Classes, c: nat): map<string, PropertyInfo>
    decreases c
  {
    if c !in cs then map[]
    else if cs[c].super.Some? && cs[c].super.value < c then Table(cs, cs[c].super.value) + cs[c].properties
    else cs[c].properties
  }

  lemma {:induction false} TableIsDefined(cs: Classes, c: nat, n: string)
    ensures n in Table(cs, c) <==> Definer(cs, c, n).Some?
    ensures n in Table(cs, c) ==>
              var d := Definer(cs, c, n);
              && d.Some? && d.value in cs && n in cs[d.value].properties
              && Table(cs, c)[n] == cs[d.value].properties[n]
    decreases c
  {
    DefinerIsAbove(cs, c, n);
    if c in cs && cs[c].super.Some? && cs[c].super.value < c {
      TableIsDefined(cs, cs[c].super.value, n);
      DefinerIsAbove(cs, cs[c].super.value, n);
    }
  }

  /** The properties that every class has. */
  function BuiltIns(): map<string, nat> {
    map["@className" := 0, "@recordId" := 1, "@depth" := 2, "@version" := 3, "@txnVersion" := 4]
  }

  /** The whole table gives the name the id: as a built-in property, or as one of the class or of a class above it. */
  predicate HasId(cs: Classes, c: nat, n: string, id: nat) {
    (n in BuiltIns() && BuiltIns()[n] == id) || (n in Table(cs, c) && Table(cs, c)[n].id == id)
  }

  /** An id has one name. A name has one id, unless a built-in name has been given to a property as well. */
  lemma TableIsOneToOne(cs: Classes, maxClass: nat, maxProperty: nat, c: nat, n: string, i: nat, m: string, j: nat)
    requires Valid(cs, maxClass, maxProperty) && HasId(cs, c, n, i) && HasId(cs, c, m, j)
    ensures i == j ==> n == m
    ensures n == m && i != j ==> n in BuiltIns() && n in Table(cs, c)
  {
    TableIsDefined(cs, c, n);
    TableIsDefined(cs, c, m);
    DefinerIsAbove(cs, c, n);
    DefinerIsAbove(cs, c, m);
    var d, e := Definer(cs, c, n), Definer(cs, c, m);
    if n in Table(cs, c) {
      assert IdInRange(cs, maxProperty, d.value, n);
    }
    if m in Table(cs, c) {
      assert IdInRange(cs, maxProperty, e.value, m);
    }
    if n in Table(cs, c) && m in Table(cs, c) {
      assert IdOnce(cs, d.value, n, e.value, m);
    }
  }

  /** A property with a built-in name gives that name two ids. */
  lemma BuiltInNameHasTwoIds(cs: Classes, maxClass: nat, maxProperty: nat, c: nat, n: string)
    requires Valid(cs, maxClass, maxProperty) && n in BuiltIns() && n in Table(cs, c)
    ensures HasId(cs, c, n, BuiltIns()[n]) && HasId(cs, c, n, Table(cs, c)[n].id)
    ensures BuiltIns()[n] != Table(cs, c)[n].id
  {
    TableIsDefined(cs, c, n);
    assert IdInRange(cs, maxProperty, Definer(cs, c, n).value, n);
  }
}
