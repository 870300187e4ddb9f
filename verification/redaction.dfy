/** Redaction of JSON payloads before they may be logged. */
module Redaction {

  datatype Json =
    | Null
    | Bool(b: bool)
    | Number(n: real)
    | Str(s: string)
    | Arr(items: seq<Json>)
    | Obj(fields: map<string, Json>)

  const REDACTED: Json := Str("[REDACTED]")

  function AsciiLower(s: string): string {
    seq(|s|, i requires 0 <= i < |s| => if 'A' <= s[i] <= 'Z' then (s[i] as int + 32) as char else s[i])
  }

  predicate OccursAt(s: string, part: string, i: nat) { i + |part| <= |s| && s[i..i + |part|] == part }

  predicate Contains(s: string, part: string) { exists i: nat :: i <= |s| && OccursAt(s, part, i) }

  /** Keys whose string values are secrets. */
  predicate SecretKey(k: string) {
    Contains(AsciiLower(k), "token") || Contains(AsciiLower(k), "secret")
  }

  /** The letters of `part`, a lower-case word, at `i` of `k`, each in either case. */
  predicate SpelledAt(k: string, part: string, i: nat) {
    && i + |part| <= |k|
    && forall n :: 0 <= n < |part| ==>
         k[i + n] == part[n] || ('A' <= k[i + n] <= 'Z' && k[i + n] as int + 32 == part[n] as int)
  }

  lemma SpelledExactly(k: string, part: string, i: nat)
    requires forall n :: 0 <= n < |part| ==> 'a' <= part[n] <= 'z'
    ensures SpelledAt(k, part, i) <==> OccursAt(AsciiLower(k), part, i)
  {
    var low := AsciiLower(k);
    if OccursAt(low, part, i) {
      forall n | 0 <= n < |part|
        ensures low[i + n] == part[n]
      {
        assert low[i..i + |part|][n] == low[i + n];
      }
    }
    if SpelledAt(k, part, i) {
      assert low[i..i + |part|] == part;
    }
  }

  /** A key is secret exactly when "token" or "secret" is spelled somewhere in it, in any
      mixture of cases. */
  lemma SecretExactly(k: string)
    ensures SecretKey(k) <==> exists i: nat :: i <= |k| && (SpelledAt(k, "token", i) || SpelledAt(k, "secret", i))
  {
    forall i: nat
      ensures SpelledAt(k, "token", i) <==> OccursAt(AsciiLower(k), "token", i)
      ensures SpelledAt(k, "secret", i) <==> OccursAt(AsciiLower(k), "secret", i)
    {
      SpelledExactly(k, "token", i);
      SpelledExactly(k, "secret", i);
    }
  }

  predicate Hidden(k: string, v: Json) { SecretKey(k) && v.Str? }

  function Redact(v: Json): Json {
    match v
    case Obj(m) => Obj(map k | k in m :: if Hidden(k, m[k]) then REDACTED else Redact(m[k]))
    case Arr(items) => Arr(seq(|items|, i requires 0 <= i < |items| => Redact(items[i])))
    case _ => v
  }

  /** The source's recursion: a new map filled field by field, a list item by item. */
  method RedactJson(v: Json) returns (r: Json)
    ensures r == Redact(v)
    decreases v
  {
    match v {
      case Obj(m) =>
        var out: map<string, Json> := map[];
        var left := m.Keys;
        while left != {}
          invariant left <= m.Keys && out.Keys == m.Keys - left
          invariant forall k :: k in out ==> out[k] == Redact(v).fields[k]
          decreases |left|
        {
          var k :| k in left;
          if SecretKey(k) && m[k].Str? {
            out := out[k := REDACTED];
          } else {
            var inner := RedactJson(m[k]);
            out := out[k := inner];
          }
          left := left - {k};
        }
        assert out == Redact(v).fields;
        r := Obj(out);
      case Arr(items) =>
        var out: seq<Json> := [];
        for i := 0 to |items|
          invariant |out| == i && forall j :: 0 <= j < i ==> out[j] == Redact(items[j])
        {
          var item := RedactJson(items[i]);
          out := out + [item];
        }
        assert out == Redact(v).items;
        r := Arr(out);
      case _ => r := v;
    }
  }

  /** Equal but for strings held directly under secret keys. */
  ghost predicate SameButSecrets(a: Json, b: Json)
    decreases a
  {
    match (a, b)
    case (Obj(m), Obj(n)) =>
      m.Keys == n.Keys
      && forall k :: k in m ==> (Hidden(k, m[k]) && Hidden(k, n[k])) || SameButSecrets(m[k], n[k])
    case (Arr(s), Arr(t)) => |s| == |t| && forall i :: 0 <= i < |s| ==> SameButSecrets(s[i], t[i])
    case _ => a == b
  }

  /** A string under a secret key is masked, any other field is redacted in turn, and no field
      comes or goes. */
  lemma FieldsRedacted(m: map<string, Json>, k: string)
    ensures Redact(Obj(m)).Obj? && Redact(Obj(m)).fields.Keys == m.Keys
    ensures k in m ==>
              Redact(Obj(m)).fields[k] == if SecretKey(k) && m[k].Str? then Str("[REDACTED]") else Redact(m[k])
  {
  }

  /** What a log reader can tell apart: exactly what differs elsewhere. A value under
      a secret key that is not a string is not hidden, and a redacted string is told
      from a non-string. */
  lemma {:induction false} RedactionIsQuotient(a: Json, b: Json)
    ensures Redact(a) == Redact(b) <==> SameButSecrets(a, b)
    decreases a
  {
    match (a, b)
    case (Obj(m), Obj(n)) =>
      forall k | k in m && k in n
        ensures Redact(m[k]) == Redact(n[k]) <==> SameButSecrets(m[k], n[k])
      {
        RedactionIsQuotient(m[k], n[k]);
      }
      SameFields(m, n);
    case (Arr(s), Arr(t)) =>
      forall i | 0 <= i < |s| && i < |t|
        ensures Redact(s[i]) == Redact(t[i]) <==> SameButSecrets(s[i], t[i])
      {
        RedactionIsQuotient(s[i], t[i]);
      }
      SameItems(s, t);
    case _ =>
  }

  function RedactField(k: string, v: Json): Json { if Hidden(k, v) then REDACTED else Redact(v) }

  lemma SameFields(m: map<string, Json>, n: map<string, Json>)
    requires forall k :: k in m && k in n ==> (Redact(m[k]) == Redact(n[k]) <==> SameButSecrets(m[k], n[k]))
    ensures Redact(Obj(m)) == Redact(Obj(n)) <==> SameButSecrets(Obj(m), Obj(n))
  {
    var (p, q) := (Redact(Obj(m)).fields, Redact(Obj(n)).fields);
    assert p.Keys == m.Keys && q.Keys == n.Keys;
    forall k | k in m && k in n
      ensures p[k] == q[k] <==> (Hidden(k, m[k]) && Hidden(k, n[k])) || SameButSecrets(m[k], n[k])
    {
      assert p[k] == RedactField(k, m[k]) && q[k] == RedactField(k, n[k]);
    }
    if p == q {
      assert m.Keys == n.Keys;
    }
    if SameButSecrets(Obj(m), Obj(n)) {
      assert p == q;
    }
  }

  lemma SameItems(s: seq<Json>, t: seq<Json>)
    requires forall i :: 0 <= i < |s| && i < |t| ==> (Redact(s[i]) == Redact(t[i]) <==> SameButSecrets(s[i], t[i]))
    ensures Redact(Arr(s)) == Redact(Arr(t)) <==> SameButSecrets(Arr(s), Arr(t))
  {
    var (p, q) := (Redact(Arr(s)).items, Redact(Arr(t)).items);
    assert |p| == |s| && |q| == |t|;
    if p == q {
      forall i | 0 <= i < |s|
        ensures SameButSecrets(s[i], t[i])
      {
        assert p[i] == q[i];
      }
    }
  }

  /** Redaction changes nothing a log reader could tell apart, so redacting twice is
      redacting once. */
  lemma {:induction false} RedactedIsSame(v: Json)
    ensures SameButSecrets(Redact(v), v)
    ensures Redact(Redact(v)) == Redact(v)
    decreases v
  {
    match v {
      case Obj(m) =>
        forall k | k in m
          ensures SameButSecrets(Redact(m[k]), m[k])
        {
          RedactedIsSame(m[k]);
        }
      case Arr(items) =>
        forall i | 0 <= i < |items|
          ensures SameButSecrets(Redact(items[i]), items[i])
        {
          RedactedIsSame(items[i]);
        }
      case _ =>
    }
    RedactionIsQuotient(Redact(v), v);
  }
}
