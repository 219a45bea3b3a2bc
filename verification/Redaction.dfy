/** Detection and masking of credential-shaped object keys. */
module Redaction {
  import opened Options
  import opened Json
  import Sequences

  const REDACTED := "[REDACTED]"
  const SECRET_KEY_FORBIDDEN := "secret_key_forbidden"

  predicate ForbiddenSecretKey(normalized: string) {
    normalized in {
      "accesstoken", "apikey", "authorization", "authtoken", "bearer",
      "bearertoken", "clientsecret", "password", "passphrase", "privatekey",
      "refreshtoken", "secret", "secretkey", "sessiontoken", "token"
    }
  }

  predicate IsUpper(c: char) { 'A' <= c <= 'Z' }

  predicate IsKept(c: char) { 'a' <= c <= 'z' || '0' <= c <= '9' }

  /** Separates a lower-case letter or digit from the capital after it; matches do not overlap. */
  function SnakeCase(s: string): string {
    if |s| >= 2 && IsKept(s[0]) && IsUpper(s[1]) then [s[0], '_', s[1]] + SnakeCase(s[2..])
    else if s == "" then ""
    else [s[0]] + SnakeCase(s[1..])
  }

  /** Case folding as far as kept characters can come out of it: beyond the ASCII capitals only
      U+0130 and U+212A fold to a text holding an ASCII letter. */
  function LowerChar(c: char): string {
    if IsUpper(c) then ['a' + (c - 'A')]
    else if c == '\U{212A}' then "k"
    else if c == '\U{0130}' then "i\U{0307}"
    else [c]
  }

  function Lower(s: string): string {
    if s == "" then "" else LowerChar(s[0]) + Lower(s[1..])
  }

  function KeepAlphanumeric(s: string): string {
    if s == "" then "" else (if IsKept(s[0]) then [s[0]] else "") + KeepAlphanumeric(s[1..])
  }

  function NormalizedKey(key: string): string { KeepAlphanumeric(Lower(SnakeCase(key))) }

  predicate IsSecretKey(key: string) { ForbiddenSecretKey(NormalizedKey(key)) }

  lemma {:induction false} KeepConcat(a: string, b: string)
    ensures KeepAlphanumeric(a + b) == KeepAlphanumeric(a) + KeepAlphanumeric(b)
  {
    if a == "" {
      assert a + b == b;
    } else {
      assert (a + b)[1..] == a[1..] + b && (a + b)[0] == a[0];
      KeepConcat(a[1..], b);
      Sequences.Associates(if IsKept(a[0]) then [a[0]] else "", KeepAlphanumeric(a[1..]), KeepAlphanumeric(b));
    }
  }

  lemma {:induction false} LowerConcat(a: string, b: string)
    ensures Lower(a + b) == Lower(a) + Lower(b)
  {
    if a == "" {
      assert a + b == b;
    } else {
      assert (a + b)[1..] == a[1..] + b;
      LowerConcat(a[1..], b);
    }
  }

  lemma FoldConcat(a: string, b: string)
    ensures KeepAlphanumeric(Lower(a + b)) == KeepAlphanumeric(Lower(a)) + KeepAlphanumeric(Lower(b))
  {
    LowerConcat(a, b);
    KeepConcat(Lower(a), Lower(b));
  }

  lemma {:induction false} KeptText(s: string)
    requires forall i | 0 <= i < |s| :: IsKept(s[i])
    ensures KeepAlphanumeric(Lower(s)) == s
  {
    if s != "" {
      KeptText(s[1..]);
      assert LowerChar(s[0]) == [s[0]] && s == [s[0]] + s[1..];
      KeepConcat([s[0]], Lower(s[1..]));
    }
  }

  lemma UnderscoreFolds(rest: string)
    ensures KeepAlphanumeric(Lower(['_'] + rest)) == KeepAlphanumeric(Lower(rest))
  {
    var s := ['_'] + rest;
    assert s[0] == '_' && s[1..] == rest && LowerChar('_') == ['_'];
    var folded := Lower(s);
    assert folded == ['_'] + Lower(rest);
    assert folded[0] == '_' && folded[1..] == Lower(rest);
  }

  lemma FoldsAlike(a: string, x: string, y: string)
    requires KeepAlphanumeric(Lower(x)) == KeepAlphanumeric(Lower(y))
    ensures KeepAlphanumeric(Lower(a + x)) == KeepAlphanumeric(Lower(a + y))
  {
    FoldConcat(a, x);
    FoldConcat(a, y);
  }

  lemma SeparatorVanishes(c: char, d: char)
    ensures KeepAlphanumeric(Lower([c, '_', d])) == KeepAlphanumeric(Lower([c, d]))
  {
    UnderscoreFolds([d]);
    FoldsAlike([c], ['_'] + [d], [d]);
    assert [c, '_', d] == [c] + (['_'] + [d]) && [c, d] == [c] + [d];
  }

  /** The snake-case step never changes what a key normalizes to: only letters, digits and case matter. */
  lemma {:induction false} SeparatorsDoNotMatter(key: string)
    ensures NormalizedKey(key) == KeepAlphanumeric(Lower(key))
  {
    if |key| >= 2 && IsKept(key[0]) && IsUpper(key[1]) {
      SeparatorsDoNotMatter(key[2..]);
      SeparatorVanishes(key[0], key[1]);
      FoldConcat([key[0], '_', key[1]], SnakeCase(key[2..]));
      FoldConcat([key[0], key[1]], key[2..]);
      assert key == [key[0], key[1]] + key[2..];
    } else if key != "" {
      SeparatorsDoNotMatter(key[1..]);
      FoldConcat([key[0]], SnakeCase(key[1..]));
      FoldConcat([key[0]], key[1..]);
      assert key == [key[0]] + key[1..];
    }
  }

  /** What a single character normalizes to: letters in lower case, digits as they are, the Kelvin sign and the dotted capital I
      the letters they fold to, and nothing else. */
  lemma FoldsTo(c: char)
    ensures KeepAlphanumeric(Lower([c]))
         == if 65 <= c as int <= 90 then [(c as int + 32) as char]
            else if 97 <= c as int <= 122 || 48 <= c as int <= 57 then [c]
            else if c as int == 0x212A then "k"
            else if c as int == 0x130 then "i"
            else ""
  {
    assert Lower([c]) == LowerChar(c) + Lower("");
    assert LowerChar(c) + "" == LowerChar(c);
    KeepOne(LowerChar(c));
  }

  lemma KeepOne(s: string)
    requires 1 <= |s| <= 2
    ensures KeepAlphanumeric(s)
         == (if IsKept(s[0]) then [s[0]] else "") + (if |s| == 2 && IsKept(s[1]) then [s[1]] else "")
  {
    assert KeepAlphanumeric(s[1..]) == if |s| == 2 && IsKept(s[1]) then [s[1]] else "";
  }

  /** A key normalizes character by character. */
  lemma NormalizedConcat(a: string, b: string)
    ensures NormalizedKey(a + b) == NormalizedKey(a) + NormalizedKey(b)
    ensures NormalizedKey("") == ""
    ensures |a| == 1 ==> NormalizedKey(a) == KeepAlphanumeric(Lower([a[0]]))
  {
    SeparatorsDoNotMatter(a + b);
    SeparatorsDoNotMatter(a);
    SeparatorsDoNotMatter(b);
    FoldConcat(a, b);
    if |a| == 1 { assert a == [a[0]]; }
  }

  /** The keys that are secret, by what they normalize to. */
  lemma SecretKeysAre(key: string)
    ensures var k := NormalizedKey(key);
            IsSecretKey(key) <==>
              || k == "accesstoken" || k == "apikey" || k == "authorization" || k == "authtoken" || k == "bearer"
              || k == "bearertoken" || k == "clientsecret" || k == "password" || k == "passphrase" || k == "privatekey"
              || k == "refreshtoken" || k == "secret" || k == "secretkey" || k == "sessiontoken" || k == "token"
  {}

  lemma UnderscoreVanishes(word: string, rest: string)
    requires forall i | 0 <= i < |word| :: IsKept(word[i])
    ensures KeepAlphanumeric(Lower(word + (['_'] + rest))) == word + KeepAlphanumeric(Lower(rest))
  {
    var tail := ['_'] + rest;
    UnderscoreFolds(rest);
    FoldConcat(word, tail);
    KeptText(word);
  }

  lemma UnderscoresVanish(a: string, b: string, c: string)
    requires forall i | 0 <= i < |a| :: IsKept(a[i])
    requires forall i | 0 <= i < |b| :: IsKept(b[i])
    requires forall i | 0 <= i < |c| :: IsKept(c[i])
    ensures NormalizedKey(a + (['_'] + (b + (['_'] + c)))) == a + (b + c)
  {
    UnderscoreVanishes(a, b + (['_'] + c));
    UnderscoreVanishes(b, c);
    KeptText(c);
    SeparatorsDoNotMatter(a + (['_'] + (b + (['_'] + c))));
  }

  lemma NoSecretHasLength14(key: string)
    requires |key| == 14
    ensures !ForbiddenSecretKey(key)
  {}

  lemma VersionKeyIsNotSecret()
    ensures !IsSecretKey("agent_version_id")
  {
    UnderscoresVanish("agent", "version", "id");
    assert "agent" + (['_'] + ("version" + (['_'] + "id"))) == "agent_version_id";
    NoSecretHasLength14(NormalizedKey("agent_version_id"));
  }

  /** The error codes a document earns for its keys. */
  function FindForbiddenSecretKeys(v: Json): (errors: set<string>)
    ensures errors <= {SECRET_KEY_FORBIDDEN}
  {
    match v
    case Obj(fields) =>
      (if exists k | k in fields :: IsSecretKey(k) then {SECRET_KEY_FORBIDDEN} else {})
      + (set k, e | k in fields && e in FindForbiddenSecretKeys(fields[k]) :: e)
    case Arr(items) =>
      set i, e | 0 <= i < |items| && e in FindForbiddenSecretKeys(items[i]) :: e
    case _ => {}
  }

  function Redact(v: Json): Json {
    match v
    case Obj(fields) =>
      Obj(map k | k in fields :: if IsSecretKey(k) then Str(REDACTED) else Redact(fields[k]))
    case Arr(items) =>
      Arr(seq(|items|, i requires 0 <= i < |items| => Redact(items[i])))
    case _ => v
  }

  predicate SecretFree(path: seq<Step>) {
    forall i | 0 <= i < |path| :: path[i].Key? ==> !IsSecretKey(path[i].name)
  }

  /** A path at which a secret-shaped key is present. */
  ghost predicate SecretAt(v: Json, path: seq<Step>, key: string) {
    IsSecretKey(key) && Read(v, path + [Key(key)]).Some?
  }

  lemma {:induction false} ReadConcat(v: Json, p: seq<Step>, q: seq<Step>)
    ensures Read(v, p + q) == (if Read(v, p).Some? then Read(Read(v, p).value, q) else None)
    decreases |p|
  {
    if p == [] {
      assert p + q == q;
    } else if Selects(v, p[0]) {
      assert (p + q)[1..] == p[1..] + q;
      ReadConcat(Child(v, p[0]), p[1..], q);
    }
  }

  lemma {:induction false} SecretInChild(v: Json, s: Step, path: seq<Step>, key: string)
    requires Selects(v, s) && SecretAt(Child(v, s), path, key)
    ensures SecretAt(v, [s] + path, key)
  {
    assert ([s] + path) + [Key(key)] == [s] + (path + [Key(key)]);
    ReadConcat(v, [s], path + [Key(key)]);
  }

  /** A document is rejected exactly when some secret-shaped key is present somewhere in it. */
  lemma {:induction false} FindingIsExact(v: Json)
    ensures FindForbiddenSecretKeys(v) == {"secret_key_forbidden"} <==> exists path, key :: SecretAt(v, path, key)
    ensures FindForbiddenSecretKeys(v) == {} <==> !exists path, key :: SecretAt(v, path, key)
  {
    assert FindForbiddenSecretKeys(v) == {} || FindForbiddenSecretKeys(v) == {"secret_key_forbidden"};
    if FindForbiddenSecretKeys(v) != {} {
      FindingIsSound(v);
    }
    forall path, key | SecretAt(v, path, key)
      ensures FindForbiddenSecretKeys(v) != {}
    {
      FindingIsComplete(v, path, key);
    }
  }

  lemma SecretMember(v: Json, k: string)
    requires v.Obj? && k in v.fields && IsSecretKey(k)
    ensures SecretAt(v, [], k)
  {
    assert Selects(v, Key(k)) && [] + [Key(k)] == [Key(k)];
  }

  /** A finding that is not about a key of the document itself is one of a child. */
  lemma FindingComesFrom(v: Json) returns (s: Step)
    requires FindForbiddenSecretKeys(v) != {} && !(v.Obj? && exists k | k in v.fields :: IsSecretKey(k))
    ensures Selects(v, s) && FindForbiddenSecretKeys(Child(v, s)) != {}
  {
    var e :| e in FindForbiddenSecretKeys(v);
    if v.Obj? {
      var k :| k in v.fields && e in FindForbiddenSecretKeys(v.fields[k]);
      s := Key(k);
    } else {
      var i :| 0 <= i < |v.items| && e in FindForbiddenSecretKeys(v.items[i]);
      s := At(i);
    }
  }

  lemma {:induction false} FindingIsSound(v: Json)
    requires FindForbiddenSecretKeys(v) != {}
    ensures exists path, key :: SecretAt(v, path, key)
  {
    if v.Obj? && exists k | k in v.fields :: IsSecretKey(k) {
      var k :| k in v.fields && IsSecretKey(k);
      SecretMember(v, k);
    } else {
      var s := FindingComesFrom(v);
      FindingIsSound(Child(v, s));
      var path, key :| SecretAt(Child(v, s), path, key);
      SecretInChild(v, s, path, key);
    }
  }

  lemma {:induction false} FindingIsComplete(v: Json, path: seq<Step>, key: string)
    requires SecretAt(v, path, key)
    ensures FindForbiddenSecretKeys(v) != {}
    decreases |path|
  {
    var full := path + [Key(key)];
    assert Selects(v, full[0]);
    if path == [] {
      assert key in v.fields;
      assert SECRET_KEY_FORBIDDEN in FindForbiddenSecretKeys(v);
    } else {
      assert full[1..] == path[1..] + [Key(key)];
      FindingIsComplete(Child(v, path[0]), path[1..], key);
      FindingReachesUp(v, path[0]);
    }
  }

  lemma FindingReachesUp(v: Json, s: Step)
    requires Selects(v, s) && FindForbiddenSecretKeys(Child(v, s)) != {}
    ensures FindForbiddenSecretKeys(v) != {}
  {
    var e :| e in FindForbiddenSecretKeys(Child(v, s));
    match s
    case Key(k) => assert k in v.fields && e in FindForbiddenSecretKeys(v.fields[k]);
    case At(i) => assert e in FindForbiddenSecretKeys(v.items[i]);
    assert e in FindForbiddenSecretKeys(v);
  }

  /** Away from secret keys redaction only reaches into the value read. */
  lemma {:induction false} RedactKeepsTheRest(v: Json, path: seq<Step>)
    requires SecretFree(path)
    ensures Read(Redact(v), path) == (if Read(v, path).Some? then Some(Redact(Read(v, path).value)) else None)
    decreases |path|
  {
    if path != [] {
      assert Selects(v, path[0]) <==> Selects(Redact(v), path[0]);
      if Selects(v, path[0]) {
        assert Child(Redact(v), path[0]) == Redact(Child(v, path[0]));
        assert SecretFree(path[1..]);
        RedactKeepsTheRest(Child(v, path[0]), path[1..]);
      }
    }
  }

  /** Under the first secret key on a path there is the mask and nothing below it. */
  lemma RedactMasks(v: Json, path: seq<Step>, key: string, below: seq<Step>)
    requires SecretFree(path) && IsSecretKey(key)
    ensures Read(Redact(v), path + [Key(key)] + below)
         == (if Read(v, path + [Key(key)]).Some? && below == [] then Some(Str("[REDACTED]")) else None)
  {
    RedactKeepsTheRest(v, path);
    ReadConcat(v, path, [Key(key)]);
    assert path + [Key(key)] + below == path + ([Key(key)] + below);
    ReadConcat(Redact(v), path, [Key(key)] + below);
    if Read(v, path).Some? {
      var found := Read(v, path).value;
      ReadConcat(Redact(found), [Key(key)], below);
      assert Selects(found, Key(key)) <==> Selects(Redact(found), Key(key));
      if Selects(found, Key(key)) {
        assert Read(Redact(found), [Key(key)]) == Some(Str(REDACTED));
      }
    }
  }

  /** Every secret key already holds the mask. */
  predicate Masked(v: Json) {
    match v
    case Obj(fields) =>
      forall k | k in fields :: if IsSecretKey(k) then fields[k] == Str(REDACTED) else Masked(fields[k])
    case Arr(items) => forall i | 0 <= i < |items| :: Masked(items[i])
    case _ => true
  }

  lemma {:induction false} RedactionIsMasked(v: Json)
    ensures Masked(Redact(v))
  {
    match v
    case Obj(fields) => forall k | k in fields { RedactionIsMasked(fields[k]); }
    case Arr(items) => forall i | 0 <= i < |items| { RedactionIsMasked(items[i]); }
    case _ =>
  }

  /** Redaction leaves a value alone exactly when every secret key in it already holds the mask. */
  lemma {:induction false} RedactIdentity(v: Json)
    ensures Redact(v) == v <==> Masked(v)
  {
    match v
    case Obj(fields) =>
      forall k | k in fields ensures Redact(fields[k]) == fields[k] <==> Masked(fields[k]) { RedactIdentity(fields[k]); }
      assert Redact(v) == v <==> forall k | k in fields :: Redact(v).fields[k] == fields[k];
    case Arr(items) =>
      forall i | 0 <= i < |items| ensures Redact(items[i]) == items[i] <==> Masked(items[i]) { RedactIdentity(items[i]); }
      assert Redact(v) == v <==> forall i | 0 <= i < |items| :: Redact(v).items[i] == items[i];
    case _ =>
  }

  lemma RedactIdempotent(v: Json)
    ensures Redact(Redact(v)) == Redact(v)
  {
    RedactionIsMasked(v);
    RedactIdentity(Redact(v));
  }

  lemma {:induction false} CleanIsMasked(v: Json)
    requires FindForbiddenSecretKeys(v) == {}
    ensures Masked(v)
  {
    match v
    case Obj(fields) =>
      forall k | k in fields ensures !IsSecretKey(k) && Masked(fields[k]) {
        assert FindForbiddenSecretKeys(fields[k]) <= FindForbiddenSecretKeys(v);
        CleanIsMasked(fields[k]);
      }
    case Arr(items) =>
      forall i | 0 <= i < |items| ensures Masked(items[i]) {
        assert FindForbiddenSecretKeys(items[i]) <= FindForbiddenSecretKeys(v);
        CleanIsMasked(items[i]);
      }
    case _ =>
  }

  /** A document that passes validation is shown unredacted. */
  lemma CleanIsUnchanged(v: Json)
    requires FindForbiddenSecretKeys(v) == {}
    ensures Redact(v) == v
  {
    CleanIsMasked(v);
    RedactIdentity(v);
  }
}
