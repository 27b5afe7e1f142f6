/** The bytes a credentials secret is fingerprinted by. */
module Fingerprint {
  import opened Base

  // ---- the fingerprint ---------------------------------------------------------------------------

  /** Byte strings are modelled as strings of characters below 256. */
  type Data = map<string, string>

  const NUL: char := '\0'
  const PRESENT: char := '\U{0001}'

  const KEYS: seq<string> := ["url", "token", "secret", "insecure", "root_ca"]

  function Value(data: Data, key: string): Option<string> {
    if key in data then Some(data[key]) else None
  }

  /** A presence marker, the value and a terminator. */
  function Marked(value: Option<string>): string {
    match value
    case None => [NUL, NUL]
    case Some(v) => [PRESENT] + v + [NUL]
  }

  function Field(key: string, data: Data): string { key + [NUL] + Marked(Value(data, key)) }

  function Fields(keys: seq<string>, data: Data): string {
    if keys == [] then "" else Field(keys[0], data) + Fields(keys[1..], data)
  }

  /** The bytes fed to the hash. */
  function HashInput(data: Data): string { Fields(KEYS, data) }

  method WriteHashInput(data: Data) returns (written: string)
    ensures written == HashInput(data)
  {
    written := WriteFields(KEYS, data);
  }

  method WriteFields(keys: seq<string>, data: Data) returns (written: string)
    ensures written == Fields(keys, data)
  {
    written := "";
    for i := 0 to |keys|
      invariant written + Fields(keys[i..], data) == Fields(keys, data)
    {
      FieldsStep(written, keys, i, data);
      written := WriteField(written, keys[i], data);
    }
  }

  lemma FieldsStep(written: string, keys: seq<string>, i: nat, data: Data)
    requires i < |keys|
    ensures written + Fields(keys[i..], data) == (written + Field(keys[i], data)) + Fields(keys[i + 1..], data)
  {
    assert keys[i..][1..] == keys[i + 1..];
  }

  method WriteField(before: string, key: string, data: Data) returns (written: string)
    ensures written == before + Field(key, data)
  {
    written := before + key + [NUL];
    if key in data {
      written := written + [PRESENT] + data[key];
    } else {
      written := written + [NUL];
    }
    written := written + [NUL];
  }

  predicate NulFree(value: Option<string>) { value.Some? ==> NUL !in value.value }

  /** A marked value is delimited: what follows it can be told apart. */
  lemma MarkedIsDelimited(a: Option<string>, b: Option<string>, restA: string, restB: string)
    requires NulFree(a) && NulFree(b) && Marked(a) + restA == Marked(b) + restB
    ensures a == b && restA == restB
  {
    var s, t := Marked(a) + restA, Marked(b) + restB;
    assert s[0] == t[0];
    if a.None? {
      assert s[2..] == restA && t[2..] == restB;
    } else {
      var n, m := |a.value|, |b.value|;
      assert s[n + 1] == NUL && t[m + 1] == NUL;
      assert forall i :: 0 <= i < n ==> s[i + 1] == a.value[i];
      assert forall i :: 0 <= i < m ==> t[i + 1] == b.value[i];
      assert n == m;
      assert s[1..n + 1] == a.value && t[1..n + 1] == b.value;
      assert s[n + 2..] == restA && t[n + 2..] == restB;
    }
  }

  lemma AfterKey(key: string, marked: string, rest: string)
    ensures ((key + [NUL] + marked) + rest)[|key| + 1..] == marked + rest
  {
  }

  lemma {:induction false} FieldsInjective(keys: seq<string>, a: Data, b: Data)
    requires forall k :: k in keys ==> NulFree(Value(a, k)) && NulFree(Value(b, k))
    requires Fields(keys, a) == Fields(keys, b)
    ensures forall k :: k in keys ==> Value(a, k) == Value(b, k)
  {
    if keys != [] {
      var k, rest := keys[0], keys[1..];
      AfterKey(k, Marked(Value(a, k)), Fields(rest, a));
      AfterKey(k, Marked(Value(b, k)), Fields(rest, b));
      MarkedIsDelimited(Value(a, k), Value(b, k), Fields(rest, a), Fields(rest, b));
      FieldsInjective(rest, a, b);
    }
  }

  lemma {:induction false} SameValuesSameFields(keys: seq<string>, a: Data, b: Data)
    requires forall k :: k in keys ==> Value(a, k) == Value(b, k)
    ensures Fields(keys, a) == Fields(keys, b)
  {
    if keys != [] {
      SameValuesSameFields(keys[1..], a, b);
    }
  }

  /** Two secrets hold the same credentials: every part of them, absent told from empty. */
  predicate SameCredentials(a: Data, b: Data) {
    && Value(a, "url") == Value(b, "url")
    && Value(a, "token") == Value(b, "token")
    && Value(a, "secret") == Value(b, "secret")
    && Value(a, "insecure") == Value(b, "insecure")
    && Value(a, "root_ca") == Value(b, "root_ca")
  }

  /** No part of the credentials contains a NUL. */
  predicate NulFreeCredentials(a: Data) {
    && NulFree(Value(a, "url")) && NulFree(Value(a, "token")) && NulFree(Value(a, "secret"))
    && NulFree(Value(a, "insecure")) && NulFree(Value(a, "root_ca"))
  }

  /** On NUL-free values the hashed bytes determine every part of the credentials, and nothing else. */
  lemma HashInputInjective(a: Data, b: Data)
    requires NulFreeCredentials(a) && NulFreeCredentials(b)
    ensures HashInput(a) == HashInput(b) <==> SameCredentials(a, b)
  {
    assert forall k :: k in KEYS ==> NulFree(Value(a, k)) && NulFree(Value(b, k));
    assert KEYS[0] == "url" && KEYS[1] == "token" && KEYS[2] == "secret" && KEYS[3] == "insecure" && KEYS[4] == "root_ca";
    if HashInput(a) == HashInput(b) {
      FieldsInjective(KEYS, a, b);
    }
    if SameCredentials(a, b) {
      SameValuesSameFields(KEYS, a, b);
    }
  }

  lemma FirstTwoFields(keys: seq<string>, data: Data)
    requires |keys| >= 2
    ensures Fields(keys, data) == (Field(keys[0], data) + Field(keys[1], data)) + Fields(keys[2..], data)
  {
    assert keys[1..][1..] == keys[2..];
  }

  lemma ShiftedFields(shifted: string, a: Data, b: Data)
    requires shifted == [NUL, 't', 'o', 'k', 'e', 'n', NUL, PRESENT]
    requires Value(a, "url") == Some("") && Value(a, "token") == Some(shifted)
    requires Value(b, "url") == Some(shifted) && Value(b, "token") == Some("")
    ensures Field("url", a) + Field("token", a) == Field("url", b) + Field("token", b)
  {
    assert Field("url", a) == "url" + [NUL, PRESENT, NUL];
    assert Field("token", b) == "token" + [NUL, PRESENT, NUL];
  }

  /** A NUL inside a value can shift a field boundary: two secrets, one fingerprint. */
  lemma NulValuesCollide(shifted: string, a: Data, b: Data)
    requires shifted == [NUL, 't', 'o', 'k', 'e', 'n', NUL, PRESENT]
    requires Value(a, "url") == Some("") && Value(a, "token") == Some(shifted)
    requires Value(b, "url") == Some(shifted) && Value(b, "token") == Some("")
    requires Value(a, "secret") == Value(b, "secret") && Value(a, "insecure") == Value(b, "insecure")
    requires Value(a, "root_ca") == Value(b, "root_ca")
    ensures HashInput(a) == HashInput(b) && Value(a, "url") != Value(b, "url")
  {
    FirstTwoFields(KEYS, a);
    FirstTwoFields(KEYS, b);
    SameValuesSameFields(KEYS[2..], a, b);
    ShiftedFields(shifted, a, b);
  }
}
