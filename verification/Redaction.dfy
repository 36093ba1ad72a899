/** Redaction of a detail object and the deduplication key (app/exposure_ingest.py). */
module Redaction {
  import opened Hashing
  import opened Text
  import opened Parsers
  import Decimal

  // A value of a detail: text, or what str() shows of any other value, according to its truth.
  datatype Value = Chars(text: string) | Truthy(shown: string) | Falsy(shown: string)

  // str(value or "")
  function Shown(v: Value): string {
    match v
    case Chars(s) => s
    case Truthy(s) => s
    case Falsy(_) => ""
  }

  predicate IsTrue(v: Value) { v.Truthy? || (v.Chars? && v.text != "") }

  // A detail as the parsers build it, in insertion order, and as it is stored.
  type Items = seq<(string, Value)>
  type Detail = map<string, Value>

  datatype KeyClass = Dropped | Hashed | Fingerprinted | Plain

  // What redact_detail does with a key, given in lower case.
  function ClassOf(key: string): KeyClass {
    if key in ["cookie", "cookies", "session", "sessions", "autofill", "card", "cc", "cvv", "wallet", "crypto_wallet",
               "seed_phrase"] then Dropped
    else if key in ["password", "passwd", "pwd"] then Hashed
    else if key in ["token", "api_key", "secret", "private_key", "auth_key", "client_secret"] then Fingerprinted
    else Plain
  }

  // The keys has_plaintext_secret looks for.
  const PLAINTEXT := ["password", "token", "api_key", "secret", "private_key", "auth_key", "client_secret", "passwd",
                      "pwd", "cookie", "cookies", "session", "autofill", "card", "cvv", "wallet", "crypto_wallet",
                      "seed_phrase"]

  ghost predicate HasPlaintextSecret(d: Detail) { exists k :: k in d && Lower(k) in PLAINTEXT }

  function Mask(v: string): (r: string)
    ensures v == "" <==> r == ""
  {
    if v == "" then "" else if |v| <= 3 then "***" else v[..2] + "****" + [v[|v| - 1]]
  }

  function RedactOne(out: Detail, k: string, v: Value): Detail {
    match ClassOf(Lower(k))
    case Dropped => out
    case Hashed =>
      if !IsTrue(v) then out
      else out["password_sha256" := Chars(Hex(Sha256(Norm(Shown(v)))))]["password_masked" := Chars(Mask(Shown(v)))]
    case Fingerprinted =>
      if !IsTrue(v) then out
      else out["fingerprint" := Chars(Hex(Sha256(Shown(v))))]["secret_masked" := Chars(Mask(Shown(v)))]
    case Plain => out[k := v]
  }

  // The redaction of the first n items.
  function RedactTo(items: Items, n: nat): Detail
    requires n <= |items|
  {
    if n == 0 then map[] else RedactOne(RedactTo(items, n - 1), items[n - 1].0, items[n - 1].1)
  }

  function Redacted(items: Items): Detail { RedactTo(items, |items|) }

  method RedactDetail(items: Items) returns (out: Detail)
    ensures out == Redacted(items)
  {
    hide RedactOne;
    out := map[];
    for n := 0 to |items|
      invariant out == RedactTo(items, n)
    {
      out := RedactOne(out, items[n].0, items[n].1);
    }
  }

  // ---------- what a mask reveals ----------

  // Of at most three characters nothing, of more the first two and the last: two secrets have the same mask exactly
  // when both are that short, or neither is and they agree there.
  lemma MaskIff(v: string, w: string)
    requires v != "" && w != ""
    ensures Mask(v) == Mask(w) <==>
      || (|v| <= 3 && |w| <= 3)
      || (|v| > 3 && |w| > 3 && v[..2] == w[..2] && v[|v| - 1] == w[|w| - 1])
  {
    if |v| > 3 && |w| > 3 {
      var m, n := Mask(v), Mask(w);
      assert m[..2] == v[..2] && n[..2] == w[..2] && m[6] == v[|v| - 1] && n[6] == w[|w| - 1];
      assert |m| == |n| == 7;
    }
  }

  // A mask has three characters or seven, stars but for the first two and the last of a longer secret.
  lemma MaskIs(v: string)
    requires v != ""
    ensures |v| <= 3 ==> |Mask(v)| == 3 && forall i :: 0 <= i < 3 ==> Mask(v)[i] == '*'
    ensures |v| > 3 ==>
      && |Mask(v)| == 7 && Mask(v)[0] == v[0] && Mask(v)[1] == v[1] && Mask(v)[6] == v[|v| - 1]
      && forall i :: 2 <= i < 6 ==> Mask(v)[i] == '*'
  {
  }

  // An empty secret leaves nothing.
  lemma EmptySecretLeavesNothing(d: Detail, k: string, v: Value)
    requires Lower(k) in PLAINTEXT && (v == Chars("") || v.Falsy?)
    ensures RedactOne(d, k, v) == d
  {
    hide Lower, Hex, Mask;
  }

  // The details agree but for the column.
  predicate AgreeBut(d: Detail, e: Detail, column: string) {
    d.Keys == e.Keys && forall k :: k in d && k != column ==> d[k] == e[k]
  }

  // The column that holds the digest of a secret under this key.
  function DigestColumn(k: string): string {
    if Lower(k) in ["password", "passwd", "pwd"] then "password_sha256" else "fingerprint"
  }

  lemma RedactOneAgrees(d: Detail, e: Detail, k: string, v: Value, w: Value, column: string)
    requires AgreeBut(d, e, column) && IsTrue(v) && IsTrue(w) && (v == w || Mask(Shown(v)) == Mask(Shown(w)))
    requires v == w || (ClassOf(Lower(k)) != Plain && column == DigestColumn(k))
    ensures AgreeBut(RedactOne(d, k, v), RedactOne(e, k, w), column)
  {
    hide Hex, Mask, Norm, Lower;
  }

  lemma RedactSame(d: Detail, e: Detail, k: string, v: Value, column: string)
    requires AgreeBut(d, e, column)
    ensures AgreeBut(RedactOne(d, k, v), RedactOne(e, k, v), column)
  {
    hide ClassOf, Hex, Mask, Norm, Lower;
  }

  lemma {:induction false} RedactToAgrees(items: Items, i: nat, w: Value, n: nat)
    requires i < |items| && n <= |items| && ClassOf(Lower(items[i].0)) != Plain
    requires IsTrue(items[i].1) && IsTrue(w) && Mask(Shown(items[i].1)) == Mask(Shown(w))
    ensures AgreeBut(RedactTo(items, n), RedactTo(items[i := (items[i].0, w)], n), DigestColumn(items[i].0))
    decreases n
  {
    hide ClassOf, Lower, RedactOne, Mask, Shown, DigestColumn;
    if n > 0 {
      var other, column := items[i := (items[i].0, w)], DigestColumn(items[i].0);
      RedactToAgrees(items, i, w, n - 1);
      var d, e := RedactTo(items, n - 1), RedactTo(other, n - 1);
      if n - 1 == i {
        RedactOneAgrees(d, e, items[i].0, items[i].1, w, column);
      } else {
        RedactSame(d, e, items[n - 1].0, items[n - 1].1, column);
      }
    }
  }

  // Details that differ only in one secret, of at most three characters or with the same first two and last, differ
  // after redaction in the digest column only.
  lemma SecretShowsInDigestOnly(items: Items, i: nat, w: Value)
    requires i < |items| && ClassOf(Lower(items[i].0)) != Plain && IsTrue(items[i].1) && IsTrue(w)
    requires var v, u := Shown(items[i].1), Shown(w);
      && v != "" && u != ""
      && ((|v| <= 3 && |u| <= 3) || (|v| > 3 && |u| > 3 && v[..2] == u[..2] && v[|v| - 1] == u[|u| - 1]))
    ensures AgreeBut(Redacted(items), Redacted(items[i := (items[i].0, w)]), DigestColumn(items[i].0))
  {
    hide ClassOf, Lower, RedactTo, Mask, DigestColumn;
    MaskIff(Shown(items[i].1), Shown(w));
    RedactToAgrees(items, i, w, |items|);
  }

  // The digest columns hold digests: of the normalised password, and of a secret as it is shown.
  lemma DigestColumns(d: Detail, k: string, v: Value)
    requires v.Truthy? || (v.Chars? && v.text != "")
    ensures Lower(k) in ["password", "passwd", "pwd"] ==>
      RedactOne(d, k, v) == d["password_sha256" := Chars(Hex(Sha256(Lower(Strip(Shown(v))))))]
                             ["password_masked" := Chars(Mask(Shown(v)))]
    ensures Lower(k) in ["token", "api_key", "secret", "private_key", "auth_key", "client_secret"] ==>
      RedactOne(d, k, v) == d["fingerprint" := Chars(Hex(Sha256(Shown(v))))]["secret_masked" := Chars(Mask(Shown(v)))]
  {
    hide Lower, Hex, Mask, Strip;
  }

  // Of session data, cards and wallets nothing is kept at all.
  lemma DropsEntirely(d: Detail, k: string, v: Value)
    requires Lower(k) in ["cookie", "cookies", "session", "sessions", "autofill", "card", "cc", "cvv", "wallet",
                          "crypto_wallet", "seed_phrase"]
    ensures RedactOne(d, k, v) == d
  {
    hide Lower, Hex, Mask;
  }

  // ---------- no secret key survives ----------

  ghost predicate AllPlain(d: Detail) { forall k :: k in d ==> ClassOf(Lower(k)) == Plain }

  lemma HashKeysArePlain()
    ensures ClassOf("password_sha256") == Plain && ClassOf("password_masked") == Plain
  {
  }

  lemma FingerprintKeysArePlain()
    ensures ClassOf("fingerprint") == Plain && ClassOf("secret_masked") == Plain
  {
  }

  lemma ResultKeysArePlain()
    ensures ClassOf(Lower("password_sha256")) == Plain && ClassOf(Lower("password_masked")) == Plain
    ensures ClassOf(Lower("fingerprint")) == Plain && ClassOf(Lower("secret_masked")) == Plain
  {
    HashKeysArePlain();
    FingerprintKeysArePlain();
    hide ClassOf;
    assert Lower("password_sha256") == "password_sha256" && Lower("password_masked") == "password_masked";
    assert Lower("fingerprint") == "fingerprint" && Lower("secret_masked") == "secret_masked";
  }

  lemma RedactOneIsPlain(out: Detail, k: string, v: Value)
    requires AllPlain(out)
    ensures AllPlain(RedactOne(out, k, v))
  {
    ResultKeysArePlain();
    hide ClassOf, Lower, Hex, Mask, Norm;
  }

  lemma {:induction false} RedactToIsPlain(items: Items, n: nat)
    requires n <= |items|
    ensures AllPlain(RedactTo(items, n))
    decreases n
  {
    hide RedactOne, ClassOf, Lower;
    if n > 0 {
      RedactToIsPlain(items, n - 1);
      RedactOneIsPlain(RedactTo(items, n - 1), items[n - 1].0, items[n - 1].1);
    }
  }

  lemma PlaintextKeysAreNotPlain(k: string)
    requires k in PLAINTEXT
    ensures ClassOf(k) != Plain
  {
  }

  // Whatever the detail, no stored key names a secret in any letter case.
  lemma NoSecretKeySurvives(items: Items)
    ensures !HasPlaintextSecret(Redacted(items))
  {
    hide ClassOf, Lower, RedactTo, PLAINTEXT;
    RedactToIsPlain(items, |items|);
    forall k | k in Redacted(items)
      ensures Lower(k) !in PLAINTEXT
    {
      if Lower(k) in PLAINTEXT { PlaintextKeysAreNotPlain(Lower(k)); }
    }
  }

  // ---------- redacting again changes nothing ----------

  ghost predicate Names(items: Items, n: nat, k: string)
    requires n <= |items|
  {
    exists i :: 0 <= i < n && items[i].0 == k
  }

  // The items list the entries of d, each key once.
  ghost predicate Lists(items: Items, d: Detail) {
    && (forall i :: 0 <= i < |items| ==> items[i].0 in d && d[items[i].0] == items[i].1)
    && (forall i, j :: 0 <= i < j < |items| ==> items[i].0 != items[j].0)
    && (forall k :: k in d ==> Names(items, |items|, k))
  }

  lemma {:induction false} RedactPlain(items: Items, n: nat)
    requires n <= |items| && forall i :: 0 <= i < |items| ==> ClassOf(Lower(items[i].0)) == Plain
    requires forall i, j :: 0 <= i < j < |items| ==> items[i].0 != items[j].0
    ensures var r := RedactTo(items, n);
      && (forall i :: 0 <= i < n ==> items[i].0 in r && r[items[i].0] == items[i].1)
      && (forall k :: k in r ==> Names(items, n, k))
    decreases n
  {
    hide ClassOf, Lower;
    if n > 0 {
      RedactPlain(items, n - 1);
      var prev := RedactTo(items, n - 1);
      assert RedactTo(items, n) == prev[items[n - 1].0 := items[n - 1].1];
    }
  }

  lemma RedactionIsStable(items: Items, again: Items)
    requires Lists(again, Redacted(items))
    ensures Redacted(again) == Redacted(items)
  {
    hide ClassOf, Lower, RedactTo;
    RedactToIsPlain(items, |items|);
    RedactPlain(again, |again|);
    var d, r := Redacted(items), RedactTo(again, |again|);
    forall k | k in r
      ensures k in d && r[k] == d[k]
    {
      assert Names(again, |again|, k);
    }
    forall k | k in d
      ensures k in r
    {
      assert Names(again, |again|, k);
    }
  }

  // ---------- the deduplication key ----------

  datatype ExposureKind = CredentialExposure | IdentityExposure

  function KindName(k: ExposureKind): (s: string)
    ensures '|' !in s
  {
    match k case CredentialExposure => "credential_exposure" case IdentityExposure => "identity_exposure"
  }

  function Get(d: Detail, k: string): string { if k in d then Shown(d[k]) else "" }

  function EmailOf(d: Detail): string { Norm(Get(d, "email")) }
  function HashOf(d: Detail): string { Get(d, "password_sha256") }

  function IdentityParts(d: Detail): string {
    Norm(Or(Get(d, "email"), Get(d, "person_label"))) + "|"
    + (Norm(Get(d, "exposure_kind")) + "|" + Norm(Or(Get(d, "url"), Get(d, "url_defanged"))))
  }

  function CredentialParts(email: string, hash: string): string { email + "|" + hash }

  function Parts(kind: ExposureKind, d: Detail): string {
    match kind
    case CredentialExposure => CredentialParts(EmailOf(d), HashOf(d))
    case IdentityExposure => IdentityParts(d)
  }

  function KeyOf(tenant: nat, kind: ExposureKind, parts: string): Digest {
    Sha256(Decimal.Str(tenant) + "|" + (KindName(kind) + "|" + parts))
  }

  function DedupKey(tenant: nat, kind: ExposureKind, d: Detail): Digest { KeyOf(tenant, kind, Parts(kind, d)) }

  // What is hashed, written out.
  lemma KeyText(tenant: nat, parts: string)
    ensures KeyOf(tenant, CredentialExposure, parts) == Sha256(Decimal.Str(tenant) + "|credential_exposure|" + parts)
    ensures KeyOf(tenant, IdentityExposure, parts) == Sha256(Decimal.Str(tenant) + "|identity_exposure|" + parts)
  {
    var t := Decimal.Str(tenant);
    assert "|" + ("credential_exposure" + "|") == "|credential_exposure|";
    assert "|" + ("identity_exposure" + "|") == "|identity_exposure|";
    assert t + "|" + ("credential_exposure" + "|" + parts) == t + ("|" + ("credential_exposure" + "|")) + parts;
    assert t + "|" + ("identity_exposure" + "|" + parts) == t + ("|" + ("identity_exposure" + "|")) + parts;
  }

  lemma KindNamesDiffer()
    ensures KindName(CredentialExposure) != KindName(IdentityExposure)
  {
    assert KindName(CredentialExposure)[0] == 'c' && KindName(IdentityExposure)[0] == 'i';
  }

  // Tenants and kinds never share a key.
  lemma KeyApart(t: nat, k: ExposureKind, p: string, u: nat, l: ExposureKind, q: string)
    ensures KeyOf(t, k, p) == KeyOf(u, l, q) <==> (t, k, p) == (u, l, q)
  {
    hide KindName;
    if KeyOf(t, k, p) == KeyOf(u, l, q) {
      CutUnique(Decimal.Str(t), KindName(k) + "|" + p, Decimal.Str(u), KindName(l) + "|" + q, '|');
      CutUnique(KindName(k), p, KindName(l), q, '|');
      Decimal.StrInjective(t, u);
      KindNamesDiffer();
    }
  }

  // Two identity details share a key exactly when email (or else label), kind of exposure and URL agree up to case and
  // surrounding white space, where these hold no separator.
  lemma IdentityKeyIff(t: nat, d: Detail, u: nat, e: Detail)
    requires '|' !in Norm(Or(Get(d, "email"), Get(d, "person_label"))) && '|' !in Norm(Get(d, "exposure_kind"))
    requires '|' !in Norm(Or(Get(e, "email"), Get(e, "person_label"))) && '|' !in Norm(Get(e, "exposure_kind"))
    ensures DedupKey(t, IdentityExposure, d) == DedupKey(u, IdentityExposure, e) <==>
      && t == u
      && Norm(Or(Get(d, "email"), Get(d, "person_label"))) == Norm(Or(Get(e, "email"), Get(e, "person_label")))
      && Norm(Get(d, "exposure_kind")) == Norm(Get(e, "exposure_kind"))
      && Norm(Or(Get(d, "url"), Get(d, "url_defanged"))) == Norm(Or(Get(e, "url"), Get(e, "url_defanged")))
  {
    hide Norm, Get, KeyOf;
    KeyApart(t, IdentityExposure, IdentityParts(d), u, IdentityExposure, IdentityParts(e));
    var a, b := Norm(Or(Get(d, "email"), Get(d, "person_label"))), Norm(Or(Get(e, "email"), Get(e, "person_label")));
    var p, q := Norm(Get(d, "exposure_kind")), Norm(Get(e, "exposure_kind"));
    var v, w := Norm(Or(Get(d, "url"), Get(d, "url_defanged"))), Norm(Or(Get(e, "url"), Get(e, "url_defanged")));
    if IdentityParts(d) == IdentityParts(e) {
      CutUnique(a, p + "|" + v, b, q + "|" + w, '|');
      CutUnique(p, v, q, w, '|');
    }
  }

  // A digest in the hash column makes the key tell any two credentials apart.
  lemma CredentialKeyInjective(email1: string, hash1: string, email2: string, hash2: string)
    requires '|' !in hash1 && '|' !in hash2
    ensures CredentialParts(email1, hash1) == CredentialParts(email2, hash2) <==> (email1, hash1) == (email2, hash2)
  {
    if CredentialParts(email1, hash1) == CredentialParts(email2, hash2) {
      CutLastUnique(email1, hash1, email2, hash2, '|');
    }
  }

  lemma SameEmailKey(email: string, hash1: string, hash2: string)
    ensures CredentialParts(email, hash1) == CredentialParts(email, hash2) <==> hash1 == hash2
  {
    var p, q := CredentialParts(email, hash1), CredentialParts(email, hash2);
    assert p[|email| + 1..] == hash1 && q[|email| + 1..] == hash2;
  }

  // ---------- what two credential records share a key for ----------

  // What _rec_credential builds for an email and a password.
  function RecordItems(email: string, password: string): Items {
    [("email", Chars(Norm(email))), ("password", Chars(password))]
  }

  lemma RecordKeyClasses()
    ensures ClassOf(Lower("email")) == Plain && ClassOf(Lower("password")) == Hashed
  {
    assert Lower("email") == "email" && Lower("password") == "password";
  }

  lemma RedactTwo(items: Items)
    requires |items| == 2
    ensures Redacted(items) == RedactOne(RedactOne(map[], items[0].0, items[0].1), items[1].0, items[1].1)
  {
    hide RedactOne;
    assert RedactTo(items, 1) == RedactOne(RedactTo(items, 0), items[0].0, items[0].1);
  }

  lemma LowerTwice(s: string)
    ensures Lower(Lower(s)) == Lower(s)
  {
  }

  lemma NormTwice(s: string)
    ensures Norm(Norm(s)) == Norm(s)
  {
    hide Strip, Lower;
    LowerIsStripped(Strip(s));
    StripOfStripped(Lower(Strip(s)));
    LowerTwice(Strip(s));
  }

  lemma LowerIsStripped(t: string)
    requires IsStripped(t)
    ensures IsStripped(Lower(t))
  {
  }

  lemma RecordRedacted(email: string, password: string)
    requires password != ""
    ensures var d := Redacted(RecordItems(email, password));
      EmailOf(d) == Norm(email) && HashOf(d) == Hex(Sha256(Norm(password)))
  {
    RecordKeyClasses();
    NormTwice(email);
    hide ClassOf, Lower, Norm, Hex, Mask, RedactTo;
    RedactTwo(RecordItems(email, password));
    assert "password_sha256"[5] != "email"[1] && "password_masked"[9] != "password_sha256"[9];
  }

  // Records of two emails and passwords share their deduplication key exactly when both agree up to case and
  // surrounding white space.
  lemma RecordKeyIff(t: nat, email1: string, password1: string, u: nat, email2: string, password2: string)
    requires password1 != "" && password2 != ""
    ensures DedupKey(t, CredentialExposure, Redacted(RecordItems(email1, password1)))
         == DedupKey(u, CredentialExposure, Redacted(RecordItems(email2, password2)))
       <==> t == u && Norm(email1) == Norm(email2) && Norm(password1) == Norm(password2)
  {
    hide Norm, Hex, Redacted, RecordItems, KeyOf, CredentialParts;
    RecordRedacted(email1, password1);
    RecordRedacted(email2, password2);
    var h1, h2 := Hex(Sha256(Norm(password1))), Hex(Sha256(Norm(password2)));
    KeyApart(t, CredentialExposure, CredentialParts(Norm(email1), h1),
             u, CredentialExposure, CredentialParts(Norm(email2), h2));
    CredentialKeyInjective(Norm(email1), h1, Norm(email2), h2);
    if h1 == h2 { HexInjective(Sha256(Norm(password1)), Sha256(Norm(password2))); }
  }
}
