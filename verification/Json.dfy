/** JSON values with structural equality, and paths into them. */
module Json {
  import opened Options

  /** A number is known by its canonical text (section 3.2.2.3 of RFC 8785). */
  datatype Json =
    | Null
    | Bool(flag: bool)
    | Num(literal: string)
    | Str(text: string)
    | Arr(items: seq<Json>)
    | Obj(fields: map<string, Json>)

  /** One selection: a member of an object or an element of an array. */
  datatype Step = Key(name: string) | At(index: nat)

  predicate Selects(v: Json, s: Step) {
    match s
    case Key(k) => v.Obj? && k in v.fields
    case At(i) => v.Arr? && i < |v.items|
  }

  function Child(v: Json, s: Step): (c: Json)
    requires Selects(v, s)
    ensures c < v
  {
    match s
    case Key(k) => v.fields[k]
    case At(i) => v.items[i]
  }

  function Read(v: Json, path: seq<Step>): Option<Json>
    decreases |path|
  {
    if path == [] then Some(v)
    else if Selects(v, path[0]) then Read(Child(v, path[0]), path[1..])
    else None
  }

  /** Neither path leads into or through the other. */
  predicate Diverge<T(==)>(p: seq<T>, q: seq<T>) { !(p <= q) && !(q <= p) }

  /** The value with the child a step selects exchanged. */
  function WithChild(v: Json, s: Step, c: Json): (r: Json)
    requires Selects(v, s)
    ensures Selects(r, s) && Child(r, s) == c
    ensures forall t {:trigger Selects(r, t)} :: t != s ==> (Selects(r, t) <==> Selects(v, t))
    ensures forall t {:trigger Child(r, t)} :: t != s && Selects(v, t) ==> Child(r, t) == Child(v, t)
  {
    match s
    case Key(k) => Obj(v.fields[k := c])
    case At(i) => Arr(v.items[i := c])
  }
}
