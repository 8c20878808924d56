/**
 Envelope encryption of a field (padhanam/security/crypto.py): the field under a
 fresh data key, the data key under the master key, both bound to the serialised
 context. AES-GCM is a parameter; where it is relied upon it is assumed ideal.
 Byte strings are modelled as texts.
 */
module Envelope {
  import opened JsonText
  import opened CanonicalJson
  import opened HashChain

  type Bytes = string

  /** `seal(key, nonce, data, aad)` and `open(key, nonce, sealed, aad)`; none stands for `InvalidTag`. */
  datatype Aead = Aead(seal: (Bytes, Bytes, Bytes, Bytes) -> Bytes, open: (Bytes, Bytes, Bytes, Bytes) -> Option<Bytes>)

  /** Opening inverts sealing, and opens nothing that was sealed in any other way. */
  ghost predicate Ideal(a: Aead) {
    && (forall k, n, x, d :: a.open(k, n, a.seal(k, n, x, d), d) == Some(x))
    && (forall k, n, x, d, k', n', d' :: a.open(k', n', a.seal(k, n, x, d), d').Some? ==> k' == k && n' == n && d' == d)
  }

  const KEY_VERSION := 1

  datatype EncryptedField =
    EncryptedField(wrappedDek: Bytes, dekWrapNonce: Bytes, ciphertext: Bytes, nonce: Bytes, keyVersion: int)

  datatype Binding = Binding(key: string, value: string)

  /** A `dict[str, str]`, in insertion order. */
  type Context = seq<Binding>

  ghost predicate IsDict(c: Context) {
    forall i, j | 0 <= i < j < |c| :: c[i].key != c[j].key
  }

  function Entries(c: Context): (e: seq<Entry>)
    ensures |e| == |c|
  {
    seq(|c|, i requires 0 <= i < |c| => Entry(c[i].key, VText(c[i].value)))
  }

  /** `_serialize_aad`. */
  function SerializeAad(c: Context): Bytes { Canonical(VDict(Entries(c))) }

  /** The mapping a context is. */
  function Mapping(c: Context): map<string, string> {
    if c == [] then map[] else Mapping(c[..|c| - 1])[c[|c| - 1].key := c[|c| - 1].value]
  }

  datatype Outcome<T> = Ok(value: T) | ValueError | InvalidTag

  /** What `os.urandom` draws for one encryption. */
  datatype Draws = Draws(dek: Bytes, nonce: Bytes, dekWrapNonce: Bytes)

  function EncryptField(a: Aead, kek: Bytes, plaintext: Bytes, context: Context,
                        draws: Draws): Outcome<EncryptedField> {
    if context == [] then ValueError
    else
      var aad := SerializeAad(context);
      Ok(EncryptedField(
        a.seal(kek, draws.dekWrapNonce, draws.dek, aad), draws.dekWrapNonce,
        a.seal(draws.dek, draws.nonce, plaintext, aad), draws.nonce, KEY_VERSION))
  }

  function DecryptField(a: Aead, kek: Bytes, field: EncryptedField, context: Context): Outcome<Bytes> {
    if field.keyVersion != KEY_VERSION then ValueError
    else
      var aad := SerializeAad(context);
      match a.open(kek, field.dekWrapNonce, field.wrappedDek, aad)
      case None => InvalidTag
      case Some(dek) =>
        match a.open(dek, field.nonce, field.ciphertext, aad)
        case None => InvalidTag
        case Some(plaintext) => Ok(plaintext)
  }

  // ---------------------------------------------------------------- the serialised context

  lemma {:induction false} EntriesMeaningOf(c: Context)
    ensures EntriesMeaning(Entries(c)) == map k | k in Mapping(c) :: DText(Mapping(c)[k])
  {
    if c == [] {
      assert EraseEntries(Entries(c)) == [];
    } else {
      var front, last := c[..|c| - 1], c[|c| - 1];
      EntriesMeaningOf(front);
      assert Entries(c) == Entries(front) + [Entry(last.key, VText(last.value))];
      MeaningOfAppend(Entries(front), Entry(last.key, VText(last.value)));
    }
  }

  lemma SameTextsSameMapping(m: map<string, string>, n: map<string, string>)
    ensures (map k | k in m :: DText(m[k])) == (map k | k in n :: DText(n[k])) <==> m == n
  {
    var x, y := map k | k in m :: DText(m[k]), map k | k in n :: DText(n[k]);
    if x == y {
      assert forall k :: k in m <==> k in x;
      assert forall k :: k in n <==> k in y;
      forall k | k in m ensures k in n && m[k] == n[k] {
        assert x[k] == y[k];
      }
      forall k | k in n ensures k in m {
        assert k in y;
      }
    }
  }

  lemma ContextWellFormed(c: Context)
    requires IsDict(c)
    ensures WellFormed(VDict(Entries(c)))
  {
    WellFormedEntries(Entries(c));
  }

  /** Two contexts serialise alike exactly when they are the same mapping, in whatever order they were built. */
  lemma AadExact(c: Context, d: Context)
    requires IsDict(c) && IsDict(d)
    ensures SerializeAad(c) == SerializeAad(d) <==> Mapping(c) == Mapping(d)
  {
    ContextWellFormed(c);
    ContextWellFormed(d);
    CanonicalExact(VDict(Entries(c)), VDict(Entries(d)));
    EntriesMeaningOf(c);
    EntriesMeaningOf(d);
    SameTextsSameMapping(Mapping(c), Mapping(d));
    assert PayloadMeaning(VDict(Entries(c))) == DDict(EntriesMeaning(Entries(c)));
    assert PayloadMeaning(VDict(Entries(d))) == DDict(EntriesMeaning(Entries(d)));
  }

  // ---------------------------------------------------------------- fields

  /** A field decrypts to its plaintext under the same mapping, and to nothing under any other. */
  lemma DecryptExact(a: Aead, kek: Bytes, plaintext: Bytes, c: Context, draws: Draws, field: EncryptedField, d: Context)
    requires Ideal(a) && IsDict(c) && IsDict(d) && EncryptField(a, kek, plaintext, c, draws) == Ok(field)
    ensures DecryptField(a, kek, field, d) == if Mapping(c) == Mapping(d) then Ok(plaintext) else InvalidTag
  {
    AadExact(c, d);
    assert a.open(kek, draws.dekWrapNonce, field.wrappedDek, SerializeAad(d)).Some? ==>
           SerializeAad(d) == SerializeAad(c);
  }

  /** Parts of two encryptions do not go together: with different data keys, a swapped ciphertext opens to nothing. */
  lemma SwappedCiphertextFails(
      a: Aead, kek: Bytes, x: Bytes, c: Context, s: Draws, e: EncryptedField, y: Bytes, d: Context, t: Draws,
      f: EncryptedField, at: Context)
    requires Ideal(a) && s.dek != t.dek
    requires EncryptField(a, kek, x, c, s) == Ok(e) && EncryptField(a, kek, y, d, t) == Ok(f)
    ensures DecryptField(a, kek, e.(ciphertext := f.ciphertext, nonce := f.nonce), at) == InvalidTag
  {
  }

  /** An empty context is refused, and so is a field of another key version. */
  lemma Refusals(a: Aead, kek: Bytes, plaintext: Bytes, context: Context, draws: Draws, field: EncryptedField)
    ensures EncryptField(a, kek, plaintext, context, draws) == ValueError <==> Mapping(context) == map[]
    ensures DecryptField(a, kek, field, context) == ValueError <==> field.keyVersion != KEY_VERSION
  {
    if context != [] {
      assert context[|context| - 1].key in Mapping(context);
    }
  }

  // ---------------------------------------------------------------- the hypothesis can be met

  function SealText(k: Bytes, n: Bytes, x: Bytes, d: Bytes): Bytes {
    Dumps(JArr([JStr(k), JStr(n), JStr(x), JStr(d)]))
  }

  function OpenText(k: Bytes, n: Bytes, sealed: Bytes, d: Bytes): Option<Bytes> {
    match Decode(sealed)
    case Some(JArr(items)) =>
      if |items| == 4 && items[0] == JStr(k) && items[1] == JStr(n) && items[3] == JStr(d) && items[2].JStr?
      then Some(items[2].s) else None
    case _ => None
  }

  lemma IdealAeadExists() returns (a: Aead)
    ensures Ideal(a)
  {
    a := Aead(SealText, OpenText);
    forall k, n, x, d ensures Decode(SealText(k, n, x, d)) == Some(JArr([JStr(k), JStr(n), JStr(x), JStr(d)])) {
      DecodeOfDumps(JArr([JStr(k), JStr(n), JStr(x), JStr(d)]));
    }
  }

  // ---------------------------------------------------------------- the parts of a field

  /**
   The data key opens under the master key and its own nonce, the field under the data
   key and the other nonce, both under the same context, and neither under anything else.
   */
  lemma EachPartOpens(
      a: Aead, kek: Bytes, plaintext: Bytes, c: Context, draws: Draws, field: EncryptedField,
      key: Bytes, nonce: Bytes, aad: Bytes)
    requires Ideal(a) && EncryptField(a, kek, plaintext, c, draws) == Ok(field)
    ensures field.dekWrapNonce == draws.dekWrapNonce && field.nonce == draws.nonce && field.keyVersion == 1
    ensures a.open(key, nonce, field.wrappedDek, aad) ==
            if key == kek && nonce == draws.dekWrapNonce && aad == SerializeAad(c) then Some(draws.dek) else None
    ensures a.open(key, nonce, field.ciphertext, aad) ==
            if key == draws.dek && nonce == draws.nonce && aad == SerializeAad(c) then Some(plaintext) else None
  {
    var bound := SerializeAad(c);
    assert field.wrappedDek == a.seal(kek, draws.dekWrapNonce, draws.dek, bound);
    assert field.ciphertext == a.seal(draws.dek, draws.nonce, plaintext, bound);
  }
}
