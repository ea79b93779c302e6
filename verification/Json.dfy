/** JSON documents as the Python code sees them after `json.loads`. */
module Json {
  import opened Common

  datatype Json =
    | Null
    | Bool(b: bool)
    | Num(n: real)
    | Str(s: string)
    | Arr(items: seq<Json>)
    | Obj(fields: seq<(string, Json)>)
  {
    /** Python's truth value of the document. */
    predicate Truthy() {
      match this
      case Null => false
      case Bool(b) => b
      case Num(n) => n != 0.0
      case Str(s) => s != ""
      case Arr(items) => items != []
      case Obj(fields) => fields != []
    }

    /** `d.get(key)` on an object; every other document has no fields. */
    function Get(key: string): (r: Option<Json>)
      ensures r.Some? ==> Obj? && exists i :: 0 <= i < |fields| && fields[i] == (key, r.value)
      ensures r.None? && Obj? ==> forall i :: 0 <= i < |fields| ==> fields[i].0 != key
    {
      if Obj? then Lookup(fields, key) else None
    }

    /** `d.get(key, default)`. */
    function GetOr(key: string, default: Json): Json {
      match Get(key)
      case None => default
      case Some(v) => v
    }
  }

  function Lookup(fields: seq<(string, Json)>, key: string): (r: Option<Json>)
    ensures r.Some? ==> exists i :: 0 <= i < |fields| && fields[i] == (key, r.value)
    ensures r.None? ==> forall i :: 0 <= i < |fields| ==> fields[i].0 != key
  {
    if fields == [] then None
    else if fields[0].0 == key then Some(fields[0].1)
    else
      var r := Lookup(fields[1..], key);
      assert r.Some? ==> exists i ::
        0 <= i < |fields[1..]| && fields[1..][i] == (key, r.value) && fields[i + 1] == (key, r.value);
      r
  }

  // ---- json.dumps(..., sort_keys=True) ----

  /** A document up to the order of its keys: what the canonical text of a document determines. */
  datatype Canon =
    | CanonNull
    | CanonBool(b: bool)
    | CanonNum(n: real)
    | CanonStr(s: string)
    | CanonArr(items: seq<Canon>)
    | CanonObj(fields: map<string, Canon>)

  function KeysOf(fields: seq<(string, Json)>): set<string> {
    set i | 0 <= i < |fields| :: fields[i].0
  }

  function Canonical(v: Json): Canon {
    match v
    case Null => CanonNull
    case Bool(b) => CanonBool(b)
    case Num(n) => CanonNum(n)
    case Str(s) => CanonStr(s)
    case Arr(items) => CanonArr(seq(|items|, i requires 0 <= i < |items| => Canonical(items[i])))
    case Obj(fields) => CanonObj(map key | key in KeysOf(fields) :: Canonical(FieldOf(v, key)))
  }

  function FieldOf(v: Json, key: string): (r: Json)
    requires v.Obj? && key in KeysOf(v.fields)
    ensures v.Get(key) == Some(r) && r < v
  {
    assert exists i :: 0 <= i < |v.fields| && v.fields[i] == (key, v.Get(key).value) && v.fields[i] < v;
    v.Get(key).value
  }

  ghost predicate DistinctKeys(fields: seq<(string, Json)>) {
    forall i, j :: 0 <= i < j < |fields| ==> fields[i].0 != fields[j].0
  }

  /** In an object without repeated keys a key has the value that stands beside it, wherever that is. */
  lemma {:induction false} LookupFinds(fields: seq<(string, Json)>, i: nat)
    requires DistinctKeys(fields) && i < |fields|
    ensures Lookup(fields, fields[i].0) == Some(fields[i].1)
  {
    if i > 0 {
      assert fields[0].0 != fields[i].0;
      assert DistinctKeys(fields[1..]);
      LookupFinds(fields[1..], i - 1);
    }
  }

  lemma SameEntryUnder(a: seq<(string, Json)>, b: seq<(string, Json)>, key: string)
    requires DistinctKeys(a) && DistinctKeys(b) && (forall e :: e in a ==> e in b) && key in KeysOf(a)
    ensures key in KeysOf(b) && Obj(a).Get(key) == Obj(b).Get(key)
  {
    var i :| 0 <= i < |a| && a[i].0 == key;
    assert a[i] in b;
    var j :| 0 <= j < |b| && b[j] == a[i];
    LookupFinds(a, i);
    LookupFinds(b, j);
  }

  /** Objects with the same entries have the same canonical form, in whatever order they list them. */
  lemma {:induction false} KeyOrderIsIrrelevant(a: seq<(string, Json)>, b: seq<(string, Json)>)
    requires DistinctKeys(a) && DistinctKeys(b) && forall e :: e in a <==> e in b
    ensures Canonical(Obj(a)) == Canonical(Obj(b))
  {
    forall key ensures key in KeysOf(a) <==> key in KeysOf(b) {
      if key in KeysOf(a) {
        SameEntryUnder(a, b, key);
      }
      if key in KeysOf(b) {
        SameEntryUnder(b, a, key);
      }
    }
    forall key | key in KeysOf(a) ensures FieldOf(Obj(a), key) == FieldOf(Obj(b), key) {
      SameEntryUnder(a, b, key);
    }
    assert Canonical(Obj(a)).fields == Canonical(Obj(b)).fields;
  }

  /** The same document but for the order in which objects list their keys. */
  ghost predicate Same(a: Json, b: Json) {
    match a
    case Arr(items) =>
      b.Arr? && |b.items| == |items| && forall i :: 0 <= i < |items| ==> Same(items[i], b.items[i])
    case Obj(fields) =>
      && b.Obj? && KeysOf(b.fields) == KeysOf(fields)
      && forall key :: key in KeysOf(fields) ==> Same(FieldOf(a, key), FieldOf(b, key))
    case _ => a == b
  }

  /** The canonical form forgets the order of keys and nothing else. */
  lemma {:induction false} CanonicalIsExact(a: Json, b: Json)
    ensures Canonical(a) == Canonical(b) <==> Same(a, b)
    decreases a
  {
    if a.Arr? && b.Arr? {
      var x, y := Canonical(a).items, Canonical(b).items;
      forall i | 0 <= i < |a.items| && i < |b.items| ensures x[i] == y[i] <==> Same(a.items[i], b.items[i]) {
        CanonicalIsExact(a.items[i], b.items[i]);
      }
    } else if a.Obj? && b.Obj? {
      ObjectsAreExact(a, b);
    }
  }

  lemma {:induction false} ObjectsAreExact(a: Json, b: Json)
    requires a.Obj? && b.Obj?
    ensures Canonical(a) == Canonical(b) <==> Same(a, b)
    decreases a, 0
  {
    var x, y := Canonical(a).fields, Canonical(b).fields;
    assert x.Keys == KeysOf(a.fields) && y.Keys == KeysOf(b.fields);
    forall key | key in KeysOf(a.fields) && key in KeysOf(b.fields)
      ensures x[key] == y[key] <==> Same(FieldOf(a, key), FieldOf(b, key))
    {
      CanonicalIsExact(FieldOf(a, key), FieldOf(b, key));
    }
    if Same(a, b) {
      assert x == y;
    }
  }
}
