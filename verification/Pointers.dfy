/** JSON Pointers (RFC 6901): printing, reading back, and replacing the value they name. */
module Pointers {
  import opened Options
  import opened Json

  /** replace(c, text) on every occurrence of one character. */
  function ReplaceChar(s: string, c: char, text: string): string {
    if s == "" then "" else (if s[0] == c then text else [s[0]]) + ReplaceChar(s[1..], c, text)
  }

  /** replaceAll of a two-character pattern, scanning left to right without overlap. */
  function ReplacePair(s: string, c: char, d: char, text: string): string {
    if |s| >= 2 && s[0] == c && s[1] == d then text + ReplacePair(s[2..], c, d, text)
    else if s == "" then ""
    else [s[0]] + ReplacePair(s[1..], c, d, text)
  }

  function EncodePart(key: string): string { ReplaceChar(ReplaceChar(key, '~', "~0"), '/', "~1") }

  function DecodePart(part: string): string { ReplacePair(ReplacePair(part, '~', '1', "/"), '~', '0', "~") }

  /** What one character becomes in a pointer part. */
  function Escaped(c: char): string {
    if c == '~' then "~0" else if c == '/' then "~1" else [c]
  }

  lemma {:induction false} ReplaceCharConcat(a: string, b: string, c: char, text: string)
    ensures ReplaceChar(a + b, c, text) == ReplaceChar(a, c, text) + ReplaceChar(b, c, text)
  {
    if a == "" {
      assert a + b == b;
    } else {
      assert (a + b)[1..] == a[1..] + b;
      ReplaceCharConcat(a[1..], b, c, text);
    }
  }

  /** Escaping works character by character, although it is written as two passes. */
  lemma EncodePartStep(key: string)
    requires key != ""
    ensures EncodePart(key) == Escaped(key[0]) + EncodePart(key[1..])
  {
    var first := if key[0] == '~' then "~0" else [key[0]];
    ReplaceCharConcat(first, ReplaceChar(key[1..], '~', "~0"), '/', "~1");
    assert first == [first[0]] + first[1..];
    assert ReplaceChar(first, '/', "~1") == Escaped(key[0]);
  }

  /** After the first decoding pass only the escapes of '~' are left. */
  lemma {:induction false} FirstPass(key: string)
    ensures ReplacePair(EncodePart(key), '~', '1', "/") == ReplaceChar(key, '~', "~0")
  {
    if key != "" {
      EncodePartStep(key);
      FirstPass(key[1..]);
      var s, rest := EncodePart(key), EncodePart(key[1..]);
      if key[0] == '~' {
        assert s[1..] == "0" + rest && s[1..][1..] == rest;
      } else if key[0] == '/' {
        assert s[2..] == rest;
      } else {
        assert s[1..] == rest;
      }
    }
  }

  lemma {:induction false} SecondPass(key: string)
    ensures ReplacePair(ReplaceChar(key, '~', "~0"), '~', '0', "~") == key
  {
    if key != "" {
      SecondPass(key[1..]);
      var s, rest := ReplaceChar(key, '~', "~0"), ReplaceChar(key[1..], '~', "~0");
      if key[0] == '~' {
        assert s[2..] == rest;
      } else {
        assert s[1..] == rest;
      }
    }
  }

  /** Decoding undoes encoding for every key, with or without '~' and '/'. */
  lemma PartRoundTrip(key: string)
    ensures DecodePart(EncodePart(key)) == key
  {
    FirstPass(key);
    SecondPass(key);
  }

  lemma {:induction false} EncodePartHasNoSlash(key: string)
    ensures '/' !in EncodePart(key)
  {
    if key != "" {
      EncodePartStep(key);
      EncodePartHasNoSlash(key[1..]);
    }
  }

  /** The pointer a recursive walk accumulates: one part more at each step down. */
  function Encode(path: seq<string>): string {
    if path == [] then "" else Encode(path[..|path| - 1]) + "/" + EncodePart(path[|path| - 1])
  }

  /** join of the encoded parts. */
  function Joined(path: seq<string>): string
    requires path != []
  {
    if |path| == 1 then EncodePart(path[0]) else EncodePart(path[0]) + "/" + Joined(path[1..])
  }

  /** The pointer the validators print from a whole path. */
  function PrintPointer(path: seq<string>): string {
    if path == [] then "" else "/" + Joined(path)
  }

  lemma {:induction false} JoinedAppend(path: seq<string>, key: string)
    requires path != []
    ensures Joined(path + [key]) == Joined(path) + "/" + EncodePart(key)
  {
    assert (path + [key])[1..] == path[1..] + [key];
    if |path| > 1 {
      JoinedAppend(path[1..], key);
    }
  }

  /** Both printers agree. */
  lemma {:induction false} PrintersAgree(path: seq<string>)
    ensures Encode(path) == PrintPointer(path)
  {
    if path != [] {
      var init, last := path[..|path| - 1], path[|path| - 1];
      PrintersAgree(init);
      assert path == init + [last];
      if init != [] {
        JoinedAppend(init, last);
      }
    }
  }

  /** split(separator): always at least one piece. */
  function Split(s: string, separator: char): (pieces: seq<string>)
    ensures pieces != []
  {
    if s == "" then [""]
    else
      var rest := Split(s[1..], separator);
      if s[0] == separator then [""] + rest else [[s[0]] + rest[0]] + rest[1..]
  }

  lemma {:induction false} SplitHead(a: string, separator: char)
    requires separator !in a
    ensures Split(a, separator) == [a]
    ensures forall b: string :: Split(a + [separator] + b, separator) == [a] + Split(b, separator)
  {
    if a == "" {
      forall b: string ensures Split(a + [separator] + b, separator) == [a] + Split(b, separator) {
        assert (a + [separator] + b)[1..] == b;
      }
    } else {
      assert a == [a[0]] + a[1..] && a[0] != separator;
      SplitHead(a[1..], separator);
      forall b: string ensures Split(a + [separator] + b, separator) == [a] + Split(b, separator) {
        assert (a + [separator] + b)[1..] == a[1..] + [separator] + b;
        assert Split(a[1..] + [separator] + b, separator) == [a[1..]] + Split(b, separator);
      }
    }
  }

  function DecodeParts(parts: seq<string>): (keys: seq<string>)
    ensures |keys| == |parts|
  {
    seq(|parts|, i requires 0 <= i < |parts| => DecodePart(parts[i]))
  }

  /** The parts a pointer names; a non-empty pointer must start with '/'. */
  function Decode(pointer: string): Option<seq<string>> {
    if pointer == "" then Some([])
    else if pointer[0] != '/' then None
    else Some(DecodeParts(Split(pointer[1..], '/')))
  }

  lemma SplitFirst(path: seq<string>)
    requires path != []
    ensures Split(Joined(path), '/')
         == [EncodePart(path[0])] + if |path| > 1 then Split(Joined(path[1..]), '/') else []
  {
    EncodePartHasNoSlash(path[0]);
    SplitHead(EncodePart(path[0]), '/');
  }

  lemma {:induction false} SplitJoined(path: seq<string>)
    requires path != []
    ensures DecodeParts(Split(Joined(path), '/')) == path
  {
    SplitFirst(path);
    PartRoundTrip(path[0]);
    if |path| > 1 {
      SplitJoined(path[1..]);
      assert path == [path[0]] + path[1..];
    }
  }

  /** Reading back a printed pointer gives the path, for every list of keys. */
  lemma PointerRoundTrip(path: seq<string>)
    ensures Decode(Encode(path)) == Some(path)
  {
    PrintersAgree(path);
    if path != [] {
      SplitJoined(path);
      assert ("/" + Joined(path))[1..] == Joined(path);
    }
  }

  lemma PointersDiffer(p: seq<string>, q: seq<string>)
    requires Encode(p) == Encode(q)
    ensures p == q
  {
    PointerRoundTrip(p);
    PointerRoundTrip(q);
  }

  // ----- replaceAtPointer -----

  datatype PointerError = PointerInvalid | PointerNotFound

  datatype Replacement = Replaced(value: Json) | Refused(error: PointerError)

  /** The array position a part names, as Number() reads it; None for anything that is no position. */
  type IndexReader = string -> Option<nat>

  function Fill(n: nat): (holes: seq<Json>)
    ensures |holes| == n
  {
    seq(n, i => Null)
  }

  /** Assignment to one member or element of a container. */
  function Assign(v: Json, part: string, x: Json, index: IndexReader): Option<Json> {
    match v
    case Obj(fields) => Some(Obj(fields[part := x]))
    case Arr(items) =>
      (match index(part)
       case None => Some(v)
       case Some(i) =>
         if i < |items| then Some(Arr(items[i := x]))
         else Some(Arr(items + Fill(i - |items|) + [x])))
    case _ => None
  }

  /** The child a part selects in a container, if there is one. */
  function Selected(v: Json, part: string, index: IndexReader): Option<Step> {
    match v
    case Obj(fields) => if part in fields then Some(Key(part)) else None
    case Arr(items) =>
      (match index(part)
       case Some(i) => if i < |items| then Some(At(i)) else None
       case None => None)
    case _ => None
  }

  function ReplaceAtParts(v: Json, parts: seq<string>, x: Json, index: IndexReader): Option<Json>
    requires parts != []
  {
    if |parts| == 1 then Assign(v, parts[0], x, index)
    else
      match Selected(v, parts[0], index)
      case None => None
      case Some(s) =>
        (match ReplaceAtParts(Child(v, s), parts[1..], x, index)
         case None => None
         case Some(c) => Some(WithChild(v, s, c)))
  }

  function ReplaceAtPointer(v: Json, pointer: string, x: Json, index: IndexReader): Replacement {
    match Decode(pointer)
    case None => Refused(PointerInvalid)
    case Some(parts) =>
      if parts == [] then Replaced(x)
      else
        match ReplaceAtParts(v, parts, x, index)
        case None => Refused(PointerNotFound)
        case Some(r) => Replaced(r)
  }

  /** The path of steps that parts take through a document in which every one of them exists. */
  function Resolve(v: Json, parts: seq<string>, index: IndexReader): Option<seq<Step>> {
    if parts == [] then Some([])
    else
      match Selected(v, parts[0], index)
      case None => None
      case Some(s) =>
        (match Resolve(Child(v, s), parts[1..], index)
         case None => None
         case Some(path) => Some([s] + path))
  }

  lemma {:induction false} ResolvedReads(v: Json, parts: seq<string>, index: IndexReader)
    requires Resolve(v, parts, index).Some?
    ensures Read(v, Resolve(v, parts, index).value).Some?
  {
    if parts != [] {
      ResolvedReads(Child(v, Selected(v, parts[0], index).value), parts[1..], index);
    }
  }

  /** A child that reads as before off a path makes its parent read as before off the path to it. */
  lemma ElsewhereAsBefore(v: Json, s: Step, c: Json, path: seq<Step>, q: seq<Step>)
    requires Selects(v, s) && Diverge([s] + path, q)
    requires forall p :: Diverge(path, p) ==> Read(c, p) == Read(Child(v, s), p)
    ensures Read(WithChild(v, s, c), q) == Read(v, q)
  {
    var r, t := WithChild(v, s, c), q[0];
    if t == s {
      assert q == [s] + q[1..];
      assert Diverge(path, q[1..]);
    } else if Selects(v, t) {
      assert Selects(r, t) && Child(r, t) == Child(v, t);
    } else {
      assert !Selects(r, t);
    }
  }

  /** On an existing path the target reads back the new value, every other place reads as before,
      and the same parts still lead to the same place. */
  lemma {:induction false} ReplaceExisting(v: Json, parts: seq<string>, x: Json, index: IndexReader)
    requires parts != [] && Resolve(v, parts, index).Some?
    ensures ReplaceAtParts(v, parts, x, index).Some?
    ensures var r := ReplaceAtParts(v, parts, x, index).value;
            var path := Resolve(v, parts, index).value;
            && Read(r, path) == Some(x)
            && Resolve(r, parts, index) == Some(path)
            && (forall q :: Diverge(path, q) ==> Read(r, q) == Read(v, q))
  {
    var s := Selected(v, parts[0], index).value;
    var c := Child(v, s);
    var path := Resolve(v, parts, index).value;
    if |parts| == 1 {
      assert Resolve(c, parts[1..], index) == Some([]);
      assert path == [s];
      var r := WithChild(v, s, x);
      assert ReplaceAtParts(v, parts, x, index) == Some(r);
      assert Read(r, [s]) == Read(x, []);
      forall q | Diverge(path, q) ensures Read(r, q) == Read(v, q) { assert q[0] != s; }
    } else {
      ReplaceExisting(c, parts[1..], x, index);
      var below := ReplaceAtParts(c, parts[1..], x, index).value;
      var r := ReplaceAtParts(v, parts, x, index).value;
      assert r == WithChild(v, s, below);
      assert path[1..] == Resolve(c, parts[1..], index).value && path == [s] + path[1..];
      forall q | Diverge(path, q) ensures Read(r, q) == Read(v, q) { ElsewhereAsBefore(v, s, below, path[1..], q); }
    }
  }

  /** A pointer that is not empty starts with '/', or it is refused as invalid; the empty one stands for the whole document. */
  lemma PointersBegin(v: Json, pointer: string, x: Json, index: IndexReader)
    ensures pointer == "" ==> ReplaceAtPointer(v, pointer, x, index) == Replaced(x)
    ensures pointer != "" && pointer[0] != '/' ==> ReplaceAtPointer(v, pointer, x, index) == Refused(PointerInvalid)
    ensures pointer != "" && pointer[0] == '/' ==> ReplaceAtPointer(v, pointer, x, index) != Refused(PointerInvalid)
  {}

  /** What a part selects: a member an object has, or the element at the position it names. */
  lemma SelectedSays(v: Json, part: string, index: IndexReader)
    ensures v.Obj? ==> Selected(v, part, index) == if part in v.fields then Some(Key(part)) else None
    ensures v.Arr? ==> Selected(v, part, index)
                       == if index(part).Some? && index(part).value < |v.items| then Some(At(index(part).value)) else None
    ensures !v.Obj? && !v.Arr? ==> Selected(v, part, index).None?
  {}

  /** What an assignment leaves: an object with the member set; an array with the element set, grown by nulls when it was too
      short, or untouched when the part names no position. */
  lemma AssignSays(v: Json, part: string, x: Json, index: IndexReader)
    ensures Assign(v, part, x, index).Some? <==> v.Obj? || v.Arr?
    ensures v.Obj? ==> Assign(v, part, x, index) == Some(Obj(v.fields[part := x]))
    ensures v.Arr? ==>
              var r := Assign(v, part, x, index).value;
              && r.Arr?
              && (index(part).None? ==> r == v)
              && (index(part).Some? ==>
                    var i := index(part).value;
                    && |r.items| == (if i < |v.items| then |v.items| else i + 1) && r.items[i] == x
                    && forall k | 0 <= k < |r.items| && k != i :: r.items[k] == if k < |v.items| then v.items[k] else Null)
  {}

  /** The parts lead to the path, where the new value is read, and every diverging place reads as before. */
  ghost predicate Placed(v: Json, r: Json, parts: seq<string>, path: seq<Step>, x: Json, index: IndexReader) {
    && Resolve(r, parts, index) == Some(path) && Read(r, path) == Some(x)
    && forall q :: Diverge(path, q) ==> Read(r, q) == Read(v, q)
  }

  lemma PlacedHere(fields: map<string, Json>, part: string, x: Json, index: IndexReader)
    ensures Placed(Obj(fields), Obj(fields[part := x]), [part], [Key(part)], x, index)
  {
    var r := Obj(fields[part := x]);
    assert [part][1..] == [] && [Key(part)] + [] == [Key(part)] && [Key(part)][1..] == [];
    assert Resolve(Child(r, Key(part)), [], index) == Some([]);
    assert Read(r, [Key(part)]) == Read(x, []);
  }

  lemma PlacedBelow(v: Json, s: Step, c: Json, parts: seq<string>, path: seq<Step>, x: Json, index: IndexReader)
    requires parts != [] && Selected(v, parts[0], index) == Some(s) && Selects(v, s)
    requires Placed(Child(v, s), c, parts[1..], path, x, index)
    ensures Placed(v, WithChild(v, s, c), parts, [s] + path, x, index)
  {
    var r := WithChild(v, s, c);
    assert Selected(r, parts[0], index) == Some(s) && ([s] + path)[1..] == path;
    forall q | Diverge([s] + path, q) ensures Read(r, q) == Read(v, q) { ElsewhereAsBefore(v, s, c, path, q); }
  }

  /** A new member of an existing object: it is there afterwards, and every diverging place reads as before. */
  lemma {:induction false} ReplaceAdds(v: Json, parts: seq<string>, x: Json, index: IndexReader)
    requires parts != [] && Resolve(v, parts[..|parts| - 1], index).Some?
    requires var up := Read(v, Resolve(v, parts[..|parts| - 1], index).value);
             up.Some? && up.value.Obj? && parts[|parts| - 1] !in up.value.fields
    ensures ReplaceAtParts(v, parts, x, index).Some?
    ensures Placed(v, ReplaceAtParts(v, parts, x, index).value, parts,
                   Resolve(v, parts[..|parts| - 1], index).value + [Key(parts[|parts| - 1])], x, index)
  {
    var init, rest := parts[..|parts| - 1], parts[1..];
    if |parts| == 1 {
      assert init == [] && parts == [parts[0]] && [] + [Key(parts[0])] == [Key(parts[0])];
      PlacedHere(v.fields, parts[0], x, index);
    } else {
      var s := Selected(v, parts[0], index).value;
      assert init[1..] == rest[..|rest| - 1];
      var below := Resolve(Child(v, s), rest[..|rest| - 1], index).value;
      assert Resolve(v, init, index).value == [s] + below;
      ReplaceAdds(Child(v, s), rest, x, index);
      PlacedBelow(v, s, ReplaceAtParts(Child(v, s), rest, x, index).value, parts, below + [Key(parts[|parts| - 1])], x, index);
      assert [s] + (below + [Key(parts[|parts| - 1])]) == [s] + below + [Key(parts[|parts| - 1])];
    }
  }

  /** A second replacement at the same place wins. */
  lemma {:induction false} ReplaceTwice(v: Json, parts: seq<string>, x: Json, y: Json, index: IndexReader)
    requires parts != [] && Resolve(v, parts, index).Some?
    requires ReplaceAtParts(v, parts, x, index).Some?
    ensures ReplaceAtParts(ReplaceAtParts(v, parts, x, index).value, parts, y, index)
         == ReplaceAtParts(v, parts, y, index)
  {
    ReplaceExisting(v, parts, x, index);
    ReplaceExisting(v, parts, y, index);
    if |parts| > 1 {
      var s := Selected(v, parts[0], index).value;
      ReplaceExisting(Child(v, s), parts[1..], x, index);
      ReplaceExisting(Child(v, s), parts[1..], y, index);
      ReplaceTwice(Child(v, s), parts[1..], x, y, index);
      var c := ReplaceAtParts(Child(v, s), parts[1..], x, index).value;
      var d := ReplaceAtParts(Child(v, s), parts[1..], y, index).value;
      assert ReplaceAtParts(v, parts, x, index).value == WithChild(v, s, c);
      assert Selected(WithChild(v, s, c), parts[0], index) == Some(s);
      assert WithChild(WithChild(v, s, c), s, d) == WithChild(v, s, d);
    } else {
      var s := Selected(v, parts[0], index).value;
      assert WithChild(WithChild(v, s, x), s, y) == WithChild(v, s, y);
    }
  }

  /** Writing back what is read changes nothing. */
  lemma {:induction false} ReplaceBySame(v: Json, parts: seq<string>, index: IndexReader)
    requires parts != [] && Resolve(v, parts, index).Some?
    requires Read(v, Resolve(v, parts, index).value).Some?
    ensures ReplaceAtParts(v, parts, Read(v, Resolve(v, parts, index).value).value, index) == Some(v)
  {
    var s := Selected(v, parts[0], index).value;
    var c := Child(v, s);
    assert WithChild(v, s, c) == v;
    var path := Resolve(v, parts, index).value;
    assert path[1..] == Resolve(c, parts[1..], index).value;
    if |parts| > 1 {
      ReplaceBySame(c, parts[1..], index);
    }
  }

  /** A replacement is refused exactly when the parts before the last do not lead to a container. */
  lemma {:induction false} ReplaceRefused(v: Json, parts: seq<string>, x: Json, index: IndexReader)
    requires parts != []
    ensures ReplaceAtParts(v, parts, x, index).None? <==>
            !(var up := Resolve(v, parts[..|parts| - 1], index);
              && up.Some?
              && Read(v, up.value).Some?
              && (Read(v, up.value).value.Obj? || Read(v, up.value).value.Arr?))
  {
    var init := parts[..|parts| - 1];
    if |parts| > 1 && Selected(v, parts[0], index).Some? {
      var s := Selected(v, parts[0], index).value;
      ReplaceRefused(Child(v, s), parts[1..], x, index);
      assert init[1..] == parts[1..][..|parts[1..]| - 1];
      var up := Resolve(v, init, index);
      if up.Some? { assert up.value[1..] == Resolve(Child(v, s), init[1..], index).value; }
    }
  }

  /** The laws above, for the pointer text an editor sends. */
  lemma ReplaceAtPointerLaws(v: Json, keys: seq<string>, x: Json, index: IndexReader)
    requires Resolve(v, keys, index).Some?
    ensures var r := ReplaceAtPointer(v, Encode(keys), x, index);
            var path := Resolve(v, keys, index).value;
            && r.Replaced?
            && Read(r.value, path) == Some(x)
            && (forall q :: Diverge(path, q) ==> Read(r.value, q) == Read(v, q))
  {
    PointerRoundTrip(keys);
    if keys != [] {
      ReplaceExisting(v, keys, x, index);
    }
  }
}
