/** JSON documents as Python sees them. */
module Documents {
  import opened Wrappers

  datatype Json =
    | Null
    | Bool(flag: bool)
    | Int(whole: int)
    | Float(number: real)
    | Str(text: string)
    | List(items: seq<Json>)
    | Obj(members: map<string, Json>)

  // The value a path of keys leads to.
  function Get(doc: Json, path: seq<string>): Option<Json> {
    if path == [] then Some(doc)
    else if doc.Obj? && path[0] in doc.members then Get(doc.members[path[0]], path[1..])
    else None
  }

  predicate MappingAt(doc: Json, path: seq<string>) {
    Get(doc, path).Some? && Get(doc, path).value.Obj?
  }

  // Python's == makes no difference between a number, its float and its truth value.
  function Canonical(doc: Json): Json {
    match doc
    case Bool(flag) => Float(if flag then 1.0 else 0.0)
    case Int(whole) => Float(whole as real)
    case List(items) => List(seq(|items|, i requires 0 <= i < |items| => Canonical(items[i])))
    case Obj(members) => Obj(map k | k in members :: Canonical(members[k]))
    case _ => doc
  }

  predicate Equal(a: Json, b: Json) {
    Canonical(a) == Canonical(b)
  }

  // The number a value counts as.
  function Number(doc: Json): Option<real> {
    match doc
    case Bool(flag) => Some(if flag then 1.0 else 0.0)
    case Int(whole) => Some(whole as real)
    case Float(number) => Some(number)
    case _ => None
  }

  // Numbers are equal by value; lists and mappings member by member; anything else only to itself.
  lemma EqualIff(a: Json, b: Json)
    ensures Number(a).Some? || Number(b).Some? ==> (Equal(a, b) <==> Number(a) == Number(b))
    ensures a.List? && b.List? ==>
              (Equal(a, b) <==>
                 |a.items| == |b.items| && forall i :: 0 <= i < |a.items| ==> Equal(a.items[i], b.items[i]))
    ensures a.Obj? && b.Obj? ==>
              (Equal(a, b) <==>
                 a.members.Keys == b.members.Keys && forall k :: k in a.members ==> Equal(a.members[k], b.members[k]))
    ensures Number(a).None? && Number(b).None? && !(a.List? && b.List?) && !(a.Obj? && b.Obj?) ==>
              (Equal(a, b) <==> a == b)
  {
    if a.List? && b.List? {
      var p, q := Canonical(a).items, Canonical(b).items;
      assert |p| == |a.items| && forall i :: 0 <= i < |p| ==> p[i] == Canonical(a.items[i]);
      assert |q| == |b.items| && forall i :: 0 <= i < |q| ==> q[i] == Canonical(b.items[i]);
    } else if a.Obj? && b.Obj? {
      var p, q := Canonical(a).members, Canonical(b).members;
      assert p.Keys == a.members.Keys && q.Keys == b.members.Keys;
    }
  }
}
