/**
 What is left of a superclass's list of subclasses when one of them is dropped.

 The code removes the dropped class by its name: it moves the entries with other names to the front and then erases one
 entry. If several entries match, those that remain after the moved ones are unspecified; if none matches, erasing is
 undefined. An id of no class stands for an entry that points nowhere.
 */
module SchemaDrops {
  import opened Common
  import opened SchemaForest
  import opened SchemaNames

  /** The entries with another name, in order. */
  function Kept(cs: Classes, subs: seq<nat>, name: string): (r: seq<nat>)
    ensures |r| <= |subs| && forall k :: k in r <==> k in subs && !(k in cs && cs[k].name == name)
  {
    if subs == [] then []
    else (if subs[0] in cs && cs[subs[0]].name == name then [] else [subs[0]]) + Kept(cs, subs[1..], name)
  }

  function Matches(cs: Classes, subs: seq<nat>, name: string): nat {
    |subs| - |Kept(cs, subs, name)|
  }

  /** What the list may be afterwards; `rest` is what nothing specifies. */
  predicate Possible(cs: Classes, subs: seq<nat>, name: string, rest: seq<nat>) {
    Matches(cs, subs, name) > 0 ==> |rest| == Matches(cs, subs, name) - 1
  }

  function Unlinked(cs: Classes, subs: seq<nat>, name: string, rest: seq<nat>): seq<nat> {
    if Matches(cs, subs, name) > 0 then Kept(cs, subs, name) + rest else rest
  }

  /** The classes after class `id` has been dropped by the name `name`. */
  function DropLeaves(cs: Classes, id: nat, name: string, rest: seq<nat>): Classes
    requires id in cs
  {
    map k | k in cs && k != id ::
      if k in cs[id].subs then cs[k].(super := cs[id].super)
      else if cs[id].super == Some(k) then cs[k].(subs := Unlinked(cs, cs[k].subs, name, rest) + cs[id].subs)
      else cs[k]
  }

  /** `rest` is possible for the superclass of `id`. */
  predicate PossibleFor(cs: Classes, id: nat, name: string, rest: seq<nat>)
    requires id in cs
  {
    cs[id].super.Some? && cs[id].super.value in cs ==> Possible(cs, cs[cs[id].super.value].subs, name, rest)
  }

  /** The class has no superclass, or it has the name and no other subclass of its superclass has. */
  predicate Certain(cs: Classes, id: nat, name: string)
    requires id in cs
  {
    cs[id].super.None? || (cs[id].name == name && Alone(cs, id))
  }

  // If the outcome is certain.

  lemma {:induction false} KeptIsWithout(cs: Classes, subs: seq<nat>, name: string, id: nat)
    requires NoRepeats(subs) && forall k :: k in subs ==> (k in cs && cs[k].name == name <==> k == id)
    ensures Kept(cs, subs, name) == Without(subs, id)
    ensures Matches(cs, subs, name) == if id in subs then 1 else 0
    decreases |subs|
  {
    if subs != [] {
      var rest := subs[1..];
      assert NoRepeats(rest) && (forall k :: k in rest ==> k in subs) && subs[0] !in rest;
      KeptIsWithout(cs, rest, name, id);
    }
  }

  lemma CertainLeaves(cs: Classes, id: nat, name: string, rest: seq<nat>)
    requires Forest(cs) && id in cs && Certain(cs, id, name) && PossibleFor(cs, id, name, rest)
    ensures DropLeaves(cs, id, name, rest) == Dropped(cs, id)
  {
    if cs[id].super.Some? {
      var s := cs[id].super.value;
      assert LinkUp(cs, id) && SubsOnce(cs, s);
      KeptIsWithout(cs, cs[s].subs, name, id);
      assert Unlinked(cs, cs[s].subs, name, rest) == Without(cs[s].subs, id);
    }
  }

  // If it is not.

  lemma {:induction false} KeptIsShorter(cs: Classes, subs: seq<nat>, name: string, i: nat)
    requires i < |subs| && subs[i] in cs && cs[subs[i]].name == name
    ensures Matches(cs, subs, name) >= 1
    decreases |subs|
  {
    if i > 0 {
      KeptIsShorter(cs, subs[1..], name, i - 1);
    }
  }

  lemma {:induction false} KeptIsMuchShorter(cs: Classes, subs: seq<nat>, name: string, i: nat, j: nat)
    requires i < j < |subs| && subs[i] in cs && cs[subs[i]].name == name && subs[j] in cs && cs[subs[j]].name == name
    ensures Matches(cs, subs, name) >= 2
    decreases |subs|
  {
    if i > 0 {
      KeptIsMuchShorter(cs, subs[1..], name, i - 1, j - 1);
    } else {
      KeptIsShorter(cs, subs[1..], name, j - 1);
    }
  }

  lemma TwoMatch(cs: Classes, subs: seq<nat>, name: string, a: nat, b: nat)
    requires a in subs && b in subs && a != b && a in cs && b in cs && cs[a].name == name == cs[b].name
    ensures Matches(cs, subs, name) >= 2
  {
    var i :| 0 <= i < |subs| && subs[i] == a;
    var j :| 0 <= j < |subs| && subs[j] == b;
    KeptIsMuchShorter(cs, subs, name, if i < j then i else j, if i < j then j else i);
  }

  /** An unspecified entry may be the dropped class itself. */
  lemma UncertainLeaves(cs: Classes, id: nat, name: string) returns (rest: seq<nat>)
    requires Forest(cs) && id in cs && !Certain(cs, id, name)
    ensures PossibleFor(cs, id, name, rest) && DropLeaves(cs, id, name, rest) != Dropped(cs, id)
  {
    var s := cs[id].super.value;
    assert LinkUp(cs, id);
    var subs := cs[s].subs;
    var m := Matches(cs, subs, name);
    rest := if m == 0 then [id] else seq(m - 1, _ => id);
    if cs[id].name == name {
      var k :| k in subs && k != id && !(k in cs && cs[k].name != name);
      assert LinkDown(cs, s, k);
      TwoMatch(cs, subs, name, id, k);
      assert rest[0] == id;
    }
    assert id in Unlinked(cs, subs, name, rest);
    DroppedList(cs, id, s);
    LeavesList(cs, id, name, rest, s);
  }

  lemma DroppedList(cs: Classes, id: nat, s: nat)
    requires Forest(cs) && id in cs && cs[id].super == Some(s)
    ensures s in Dropped(cs, id) && id !in Dropped(cs, id)[s].subs
  {
    assert LinkUp(cs, id) && LinkDown(cs, id, s) && LinkUp(cs, s) && LinkDown(cs, id, id);
  }

  lemma LeavesList(cs: Classes, id: nat, name: string, rest: seq<nat>, s: nat)
    requires Forest(cs) && id in cs && cs[id].super == Some(s) && s in cs
    ensures s in DropLeaves(cs, id, name, rest)
    ensures DropLeaves(cs, id, name, rest)[s].subs == Unlinked(cs, cs[s].subs, name, rest) + cs[id].subs
  {
    assert LinkUp(cs, id) && LinkDown(cs, id, s) && LinkUp(cs, s);
  }

  /** Whatever is unspecified, the outcome is that of dropping the class properly, exactly if it is certain. */
  lemma CertainIff(cs: Classes, id: nat, name: string)
    requires Forest(cs) && id in cs
    ensures (forall rest :: PossibleFor(cs, id, name, rest) ==> DropLeaves(cs, id, name, rest) == Dropped(cs, id)) <==>
              Certain(cs, id, name)
  {
    if Certain(cs, id, name) {
      forall rest | PossibleFor(cs, id, name, rest) ensures DropLeaves(cs, id, name, rest) == Dropped(cs, id) {
        CertainLeaves(cs, id, name, rest);
      }
    } else {
      var rest := UncertainLeaves(cs, id, name);
    }
  }
}
