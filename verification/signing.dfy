/** Request payloads and request signing, `BitgetClient._generate_signature` in bitget/client.py.

    HMAC-SHA256 with base64, JSON encoding and URL encoding are library code outside this model;
    they enter as the uninterpreted functions of a `Primitives` value. */
module Signing {
  import opened Results
  import Text

  /** A JSON field value. `Num(x)` stands for the text `str(x)` of a number; how a number is
      rendered is left to the encoder. */
  datatype Value = Str(s: string) | Num(x: real)

  datatype Field = Field(key: string, value: Value)

  /** A request body or query: a Python dict, whose insertion order JSON encoding preserves. */
  type Payload = seq<Field>

  /* ---------- payload access ---------- */

  predicate DistinctKeys(p: Payload) {
    forall i, j :: 0 <= i < j < |p| ==> p[i].key != p[j].key
  }

  /** The value stored under `key`, as `dict.get` would return it. */
  function Lookup(p: Payload, key: string): (r: Option<Value>)
    ensures r.Some? <==> exists k :: 0 <= k < |p| && p[k].key == key
  {
    if p == [] then None
    else if p[0].key == key then Some(p[0].value)
    else Lookup(p[1..], key)
  }

  lemma {:induction false} LookupFindsField(p: Payload, k: nat)
    requires DistinctKeys(p)
    requires k < |p|
    ensures Lookup(p, p[k].key) == Some(p[k].value)
  {
    if k > 0 {
      LookupFindsField(p[1..], k - 1);
    }
  }

  datatype Primitives = Primitives(
    /** base64(HMAC-SHA256(secret, message)) */
    hmacBase64: (string, string) -> string,
    /** `json.dumps` */
    jsonDumps: Payload -> string,
    /** `urlencode` */
    urlEncode: Payload -> string)

  /** The body part of the signed message: the encoded body, or nothing for a falsy body
      (no body at all, or an empty dict). */
  function BodyText(p: Primitives, body: Option<Payload>): string {
    if body.Some? && body.value != [] then p.jsonDumps(body.value) else ""
  }

  /** The signed message: timestamp, upper-cased method, path and body, with no separators. */
  function SigningMessage(p: Primitives, timestamp: string, verb: string, path: string,
                          body: Option<Payload>): string
  {
    timestamp + Text.Upper(verb) + path + BodyText(p, body)
  }

  function Signature(p: Primitives, secret: string, timestamp: string, verb: string,
                     path: string, body: Option<Payload>): string
  {
    p.hmacBase64(secret, SigningMessage(p, timestamp, verb, path, body))
  }

  /** The message is the four parts laid end to end: each occupies exactly its own span. */
  lemma MessageLayout(p: Primitives, timestamp: string, verb: string, path: string,
                      body: Option<Payload>)
    ensures var m := SigningMessage(p, timestamp, verb, path, body);
            var a, b, c := |timestamp|, |timestamp| + |verb|, |timestamp| + |verb| + |path|;
            && |m| == c + |BodyText(p, body)|
            && m[..a] == timestamp
            && m[a..b] == Text.Upper(verb)
            && m[b..c] == path
            && m[c..] == BodyText(p, body)
  {
  }

  /** Methods that differ only in letter case sign identically ("get" and "GET"). */
  lemma SignatureIgnoresMethodCase(p: Primitives, secret: string, timestamp: string,
                                   verb1: string, verb2: string, path: string,
                                   body: Option<Payload>)
    requires Text.EqualIgnoringCase(verb1, verb2)
    ensures Signature(p, secret, timestamp, verb1, path, body)
            == Signature(p, secret, timestamp, verb2, path, body)
  {
    Text.UpperEqualIffEqualIgnoringCase(verb1, verb2);
  }

  /** No body and an empty dict both contribute the empty string, so they sign identically. */
  lemma FalsyBodiesSignAlike(p: Primitives, secret: string, timestamp: string, verb: string,
                             path: string)
    ensures Signature(p, secret, timestamp, verb, path, None)
            == Signature(p, secret, timestamp, verb, path, Some([]))
    ensures BodyText(p, None) == []
  {
  }
}
