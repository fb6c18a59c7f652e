/** JSON values, and JSON objects as the decoder leaves them on the heap: nested maps, edited in
    place. */

module JsonTrees {
  import opened Options

  datatype Json =
    | Null
    | Bool(b: bool)
    | Num(n: int)
    | Str(s: string)
    | Arr(items: seq<Json>)
    | Obj(fields: map<string, Json>)

  /** What a key of an object holds: a value that is no object, or another object. */
  datatype Slot = Leaf(j: Json) | Sub(node: Node)

  ghost predicate Storable(slot: Slot)
    reads if slot.Sub? then {slot.node} + slot.node.Repr else {}
  {
    match slot
    case Leaf(j) => !j.Obj?
    case Sub(node) => node.Valid()
  }

  ghost function Below(slot: Slot): set<Node>
    reads if slot.Sub? then {slot.node} else {}
  {
    if slot.Sub? then slot.node.Repr else {}
  }

  ghost function SlotValue(slot: Slot): Json
    reads if slot.Sub? then {slot.node} else {}
  {
    match slot
    case Leaf(j) => j
    case Sub(node) => node.Value()
  }

  /** An object as the decoder leaves it: a mutable map, nested objects held by reference, no
      object reached twice. */
  class Node {
    var fields: map<string, Slot>
    ghost var Contents: map<string, Json>
    ghost var Repr: set<Node>

    ghost predicate Valid()
      reads this, Repr
      decreases Repr, 0
    {
      this in Repr && Linked(this, fields, Contents, Repr - {this})
    }

    /** The tree below this object. */
    ghost function Value(): (j: Json)
      reads this
      ensures j.Obj?
    {
      Obj(Contents)
    }

    /** No key but k leads to any of these objects. */
    ghost predicate Apart(k: string, others: set<Node>)
      requires Valid()
      reads this, Repr
    {
      assert Linked(this, fields, Contents, Repr - {this});
      this !in others && forall j :: j in fields && j != k && fields[j].Sub? ==> fields[j].node.Repr !! others
    }

    constructor ()
      ensures Valid() && Value() == Obj(map[]) && fields == map[] && Repr == {this} && fresh(this)
    {
      fields, Contents, Repr := map[], map[], {this};
    }

    /** An object without nested objects. */
    constructor Flat(m: map<string, Json>)
      requires forall k :: k in m ==> !m[k].Obj?
      ensures Valid() && Value() == Obj(m) && Repr == {this} && fresh(this)
    {
      fields := map k | k in m :: Leaf(m[k]);
      Contents, Repr := m, {this};
    }

    /** A shallow copy: the nested objects are shared. */
    constructor CopyOf(other: Node)
      requires other.Valid()
      ensures Valid() && Value() == other.Value() && fields == other.fields
      ensures fresh(this) && Repr == {this} + other.Repr
    {
      fields, Contents := other.fields, other.Contents;
      Repr := {this} + other.Repr;
    }

    method Put(k: string, slot: Slot)
      requires Valid() && Storable(slot) && Apart(k, Below(slot))
      modifies this
      ensures Valid() && fields == old(fields)[k := slot] && Repr == old(Repr) + old(Below(slot))
      ensures Value().fields == old(Value().fields)[k := old(SlotValue(slot))]
    {
      LinkedPut(this, fields, Contents, Repr - {this}, k, slot);
      assert Repr + Below(slot) - {this} == Repr - {this} + Below(slot);
      fields, Contents, Repr := fields[k := slot], Contents[k := SlotValue(slot)], Repr + Below(slot);
    }

    method Delete(k: string)
      requires Valid()
      modifies this
      ensures Valid() && fields == old(fields) - {k} && Repr == old(Repr)
      ensures Value().fields == old(Value().fields) - {k}
    {
      LinkedDelete(this, fields, Contents, Repr - {this}, k);
      fields, Contents := fields - {k}, Contents - {k};
    }
  }

  /** `self` may hold these slots: each nested object is sound, has the tree `contents` says, and
      lies with all below it in `beneath`, away from `self` and from its siblings. */
  ghost predicate Linked(self: Node, fields: map<string, Slot>, contents: map<string, Json>, beneath: set<Node>)
    reads beneath
    decreases beneath, 1
  {
    && self !in beneath && contents.Keys == fields.Keys
    && (forall k :: k in fields && fields[k].Leaf? ==> !fields[k].j.Obj? && contents[k] == fields[k].j)
    && (forall k :: k in fields && fields[k].Sub? ==>
         && fields[k].node in beneath && fields[k].node.Repr <= beneath
         && fields[k].node.Valid() && contents[k] == fields[k].node.Value())
    && (forall j, k :: j in fields && k in fields && j != k && fields[j].Sub? && fields[k].Sub? ==>
         fields[j].node.Repr !! fields[k].node.Repr)
  }

  /** The same of every key but k, whose object lies elsewhere. */
  ghost predicate LinkedBut(self: Node, fields: map<string, Slot>, contents: map<string, Json>, others: set<Node>,
                            k: string)
    reads others
  {
    && self !in others && contents.Keys == fields.Keys
    && (forall j :: j in fields && fields[j].Leaf? ==> !fields[j].j.Obj? && contents[j] == fields[j].j)
    && (forall j :: j in fields && j != k && fields[j].Sub? ==>
         && fields[j].node in others && fields[j].node.Repr <= others
         && fields[j].node.Valid() && contents[j] == fields[j].node.Value())
    && (forall i, j :: i in fields && j in fields && i != j && i != k && j != k && fields[i].Sub? && fields[j].Sub? ==>
         fields[i].node.Repr !! fields[j].node.Repr)
  }

  lemma Parted(self: Node, fields: map<string, Slot>, contents: map<string, Json>, beneath: set<Node>, k: string)
    requires Linked(self, fields, contents, beneath) && k in fields && fields[k].Sub?
    ensures LinkedBut(self, fields, contents, beneath - fields[k].node.Repr, k)
  {
  }

  lemma Rejoined(self: Node, fields: map<string, Slot>, contents: map<string, Json>, others: set<Node>, k: string)
    requires LinkedBut(self, fields, contents, others, k) && k in fields && fields[k].Sub?
    requires fields[k].node.Valid() && fields[k].node.Repr !! others && self !in fields[k].node.Repr
    ensures Linked(self, fields, contents[k := fields[k].node.Value()], others + fields[k].node.Repr)
  {
  }

  lemma LinkedPut(self: Node, fields: map<string, Slot>, contents: map<string, Json>, beneath: set<Node>, k: string,
                  slot: Slot)
    requires Linked(self, fields, contents, beneath) && Storable(slot) && self !in Below(slot)
    requires forall j :: j in fields && j != k && fields[j].Sub? ==> fields[j].node.Repr !! Below(slot)
    ensures Linked(self, fields[k := slot], contents[k := SlotValue(slot)], beneath + Below(slot))
  {
  }

  lemma LinkedDelete(self: Node, fields: map<string, Slot>, contents: map<string, Json>, beneath: set<Node>, k: string)
    requires Linked(self, fields, contents, beneath)
    ensures Linked(self, fields - {k}, contents - {k}, beneath)
  {
  }

  lemma Keys(node: Node)
    requires node.Valid()
    ensures node.Value().fields.Keys == node.fields.Keys && node in node.Repr
  {
    assert forall k :: k in node.Value().fields <==> k in node.fields;
  }

  lemma SlotKinds(slot: Slot)
    ensures slot.Leaf? ==> (Storable(slot) <==> !slot.j.Obj?) && Below(slot) == {}
    ensures slot.Leaf? ==> SlotValue(slot) == slot.j
    ensures slot.Sub? ==> (Storable(slot) <==> slot.node.Valid()) && Below(slot) == slot.node.Repr
    ensures slot.Sub? ==> SlotValue(slot) == slot.node.Value()
  {
  }

  lemma SlotOf(node: Node, k: string)
    requires node.Valid() && k in node.fields
    ensures Storable(node.fields[k]) && Below(node.fields[k]) <= node.Repr - {node}
    ensures k in node.Value().fields && SlotValue(node.fields[k]) == node.Value().fields[k]
  {
  }

  /** What lies under k, what lies outside, and what is new is apart from the other keys. */
  lemma ApartFrom(r: Node, k: string, under: set<Node>, outside: set<Node>, all: set<Node>)
    requires r.Valid() && r.Repr !! outside
    requires under == {} || (k in r.fields && r.fields[k].Sub? && under == r.fields[k].node.Repr)
    requires all * r.Repr <= under
    ensures r.Apart(k, all)
  {
    assert forall o :: o in all && o in r.Repr ==> o in all * r.Repr;
    assert forall o :: o in under ==> o in r.Repr && o != r;
  }

  lemma AllApartFrom(n: Node, k: string, others: set<Node>)
    requires n.Valid() && n.Repr !! others
    ensures n.Apart(k, others)
  {
    ApartFrom(n, k, {}, others, others);
  }

  lemma Unlinked(n: Node)
    requires n.Valid()
    ensures n in n.Repr && Linked(n, n.fields, n.Contents, n.Repr - {n})
  {
  }

  lemma Relinked(n: Node)
    requires n in n.Repr && Linked(n, n.fields, n.Contents, n.Repr - {n})
    ensures n.Valid()
  {
  }

  // ---- paths ----

  /** Every step of the path is an object. */
  predicate Leads(j: Json, path: seq<string>)
    decreases |path|
  {
    j.Obj? && (path == [] || (path[0] in j.fields && Leads(j.fields[path[0]], path[1..])))
  }

  function At(j: Json, path: seq<string>): (r: Json)
    requires Leads(j, path)
    ensures r.Obj?
    decreases |path|
  {
    if path == [] then j else At(j.fields[path[0]], path[1..])
  }

  /** The tree with the object at the end of the path replaced. */
  function Replaced(j: Json, path: seq<string>, v: Json): (r: Json)
    requires Leads(j, path) && v.Obj?
    ensures r.Obj?
    decreases |path|
  {
    if path == [] then v else Obj(j.fields[path[0] := Replaced(j.fields[path[0]], path[1..], v)])
  }

  function Written(j: Json, k: string, v: Option<Json>): (r: Json)
    requires j.Obj?
    ensures r.Obj?
  {
    if v.Some? then Obj(j.fields[k := v.value]) else Obj(j.fields - {k})
  }

  lemma {:induction false} ReplacedAt(j: Json, path: seq<string>, v: Json)
    requires Leads(j, path) && v.Obj?
    ensures Leads(Replaced(j, path, v), path) && At(Replaced(j, path, v), path) == v
    decreases |path|
  {
    if path != [] {
      ReplacedAt(j.fields[path[0]], path[1..], v);
    }
  }

  lemma {:induction false} ReplacedTwice(j: Json, path: seq<string>, v: Json, w: Json)
    requires Leads(j, path) && v.Obj? && w.Obj? && Leads(Replaced(j, path, v), path)
    ensures Replaced(Replaced(j, path, v), path, w) == Replaced(j, path, w)
    decreases |path|
  {
    if path != [] {
      ReplacedTwice(j.fields[path[0]], path[1..], v, w);
    }
  }

  /** One step further down. */
  lemma {:induction false} ReplacedBelow(j: Json, path: seq<string>, k: string, v: Json)
    requires Leads(j, path) && k in At(j, path).fields && At(j, path).fields[k].Obj? && v.Obj?
    ensures Leads(j, path + [k]) && At(j, path + [k]) == At(j, path).fields[k]
    ensures Replaced(j, path + [k], v) == Replaced(j, path, Obj(At(j, path).fields[k := v]))
    decreases |path|
  {
    if path == [] {
      assert [k][1..] == [];
    } else {
      ReplacedBelow(j.fields[path[0]], path[1..], k, v);
      assert (path + [k])[1..] == path[1..] + [k];
    }
  }

  /** A replacement within a replacement is one replacement. */
  lemma ReplacedWithin(j: Json, path: seq<string>, t: Json, k: string, v: Json)
    requires Leads(j, path) && t.Obj? && k in t.fields && t.fields[k].Obj? && v.Obj?
    ensures var j' := Replaced(j, path, t);
      && Leads(j', path + [k]) && At(j', path + [k]) == t.fields[k]
      && Replaced(j', path + [k], v) == Replaced(j, path, Obj(t.fields[k := v]))
  {
    ReplacedAt(j, path, t);
    ReplacedBelow(Replaced(j, path, t), path, k, v);
    ReplacedTwice(j, path, t, Obj(t.fields[k := v]));
  }

  /** The object at the end of a path. */
  method Find(n: Node, path: seq<string>) returns (r: Node)
    requires n.Valid() && Leads(n.Value(), path)
    ensures r in n.Repr && r.Valid() && r.Value() == At(n.Value(), path)
    decreases |path|
  {
    r := n;
    if path != [] {
      Keys(n);
      SlotOf(n, path[0]);
      SlotKinds(n.fields[path[0]]);
      r := Find(n.fields[path[0]].node, path[1..]);
    }
  }

  /** Sets or deletes one key of the object at the end of a path, in place. */
  method Write(n: Node, path: seq<string>, k: string, slot: Option<Slot>)
    requires n.Valid() && Leads(n.Value(), path)
    requires slot.Some? ==> Storable(slot.value) && Below(slot.value) !! n.Repr
    modifies n.Repr
    ensures n.Valid() && n.Repr == old(n.Repr) + old(if slot.Some? then Below(slot.value) else {})
    ensures n.Value() == Replaced(old(n.Value()), path,
      Written(At(old(n.Value()), path), k, if slot.Some? then Some(old(SlotValue(slot.value))) else None))
    decreases |path|
  {
    hide Node.Valid, Linked, LinkedBut, Storable;
    Keys(n);
    if path == [] {
      if slot.Some? {
        AllApartFrom(n, k, Below(slot.value));
        n.Put(k, slot.value);
      } else {
        n.Delete(k);
      }
    } else {
      SlotOf(n, path[0]);
      SlotKinds(n.fields[path[0]]);
      var child := n.fields[path[0]].node;
      ghost var others := n.Repr - {n} - child.Repr;
      Unlinked(n);
      Parted(n, n.fields, n.Contents, n.Repr - {n}, path[0]);
      Write(child, path[1..], k, slot);
      Rejoined(n, n.fields, n.Contents, others, path[0]);
      n.Contents := n.Contents[path[0] := child.Value()];
      n.Repr := n.Repr + child.Repr;
      assert n.Repr - {n} == others + child.Repr;
      Relinked(n);
    }
  }

  method CopySlot(slot: Slot) returns (copy: Slot)
    requires Storable(slot)
    ensures Storable(copy) && fresh(Below(copy)) && SlotValue(copy) == SlotValue(slot)
    decreases Below(slot), 2
  {
    copy := slot;
    if slot.Sub? {
      var node := DeepCopy(slot.node);
      copy := Sub(node);
    }
  }

  /** A copy that shares nothing. */
  method DeepCopy(n: Node) returns (r: Node)
    requires n.Valid()
    ensures r.Valid() && fresh(r.Repr) && r.Value() == n.Value()
    decreases n.Repr, 0
  {
    hide Node.Valid, Storable, Below, SlotValue;
    Keys(n);
    r := new Node();
    var todo := n.fields.Keys;
    while todo != {}
      invariant r.Valid() && fresh(r.Repr) && todo <= n.fields.Keys
      invariant forall k :: k in r.Contents <==> k in n.Contents && k !in todo
      invariant forall k :: k in r.Contents ==> r.Contents[k] == n.Contents[k]
      decreases |todo|
    {
      var k :| k in todo;
      todo := todo - {k};
      SlotOf(n, k);
      var slot := CopySlot(n.fields[k]);
      AllApartFrom(r, k, Below(slot));
      r.Put(k, slot);
    }
    assert r.Contents == n.Contents;
  }
}
