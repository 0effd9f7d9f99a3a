/** Scoped idempotency keys (idem/idem.go): the separator cannot be forged. */
module IdemKeys {
  const SEP: char := '\U{1F}'
  const DEL: char := '\U{7F}'

  predicate ValidKeyPart(s: string) {
    forall i :: 0 <= i < |s| ==> s[i] >= ' ' && s[i] != DEL
  }

  /** validKeyPart, as the loop it is. */
  method CheckKeyPart(s: string) returns (ok: bool)
    ensures ok <==> ValidKeyPart(s)
  {
    for i := 0 to |s|
      invariant forall j :: 0 <= j < i ==> s[j] >= ' ' && s[j] != DEL
    {
      if s[i] < ' ' || s[i] == DEL {
        return false;
      }
    }
    return true;
  }

  // No scope leaves the key as it is.
  function StoredKey(scope: string, key: string): string {
    if scope == "" then key else scope + [SEP] + key
  }

  function FirstSep(s: string): nat {
    if s == "" || s[0] == SEP then 0 else 1 + FirstSep(s[1..])
  }

  lemma {:induction false} FirstSepFound(part: string, rest: string)
    requires ValidKeyPart(part)
    ensures FirstSep(part + rest) == |part| + FirstSep(rest)
  {
    if part == "" {
      assert part + rest == rest;
    } else {
      assert (part + rest)[1..] == part[1..] + rest;
      FirstSepFound(part[1..], rest);
    }
  }

  // The separator stands where the scope ends, and nowhere if there is none.
  lemma SepOfStored(scope: string, key: string)
    requires ValidKeyPart(scope) && ValidKeyPart(key)
    ensures FirstSep(StoredKey(scope, key)) == if scope == "" then |StoredKey(scope, key)| else |scope|
    ensures scope != "" ==> FirstSep(StoredKey(scope, key)) < |StoredKey(scope, key)|
  {
    if scope == "" {
      FirstSepFound(key, "");
      assert key + "" == key;
    } else {
      FirstSepFound(scope, [SEP] + key);
      assert scope + [SEP] + key == scope + ([SEP] + key);
    }
  }

  /** Requests of different scopes, or with different keys, never share a record. */
  lemma StoredKeyInjective(scope1: string, key1: string, scope2: string, key2: string)
    requires ValidKeyPart(scope1) && ValidKeyPart(key1) && ValidKeyPart(scope2) && ValidKeyPart(key2)
    requires StoredKey(scope1, key1) == StoredKey(scope2, key2)
    ensures scope1 == scope2 && key1 == key2
  {
    SepOfStored(scope1, key1);
    SepOfStored(scope2, key2);
    var s := StoredKey(scope1, key1);
    if scope1 != "" {
      assert s[..|scope1|] == scope1 && s[|scope1| + 1..] == key1;
      assert s[..|scope2|] == scope2 && s[|scope2| + 1..] == key2;
    }
  }

  /** The check is what makes it so: with a control character in a key two scopes can collide. */
  lemma ForgeableWithoutTheCheck()
    ensures StoredKey("a", "b" + [SEP] + "c") == StoredKey("a" + [SEP] + "b", "c")
  {
    assert "a" + [SEP] + ("b" + [SEP] + "c") == ("a" + [SEP] + "b") + [SEP] + "c";
  }
}
