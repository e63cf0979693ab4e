/** The encrypted owner backup: a canonical JSON text sealed by an authenticated cipher whose
    additional data is the canonical JSON of the outer metadata. Cipher and hash are parameters; what
    is assumed of them is stated in `Ideal`. Base64 is left out: nonce, tag and ciphertext are bytes. */
module BackupEnvelope {
  import opened Options
  import opened StableSort
  import opened CanonicalJson
  import opened JsonParser
  import opened JsonFaithful
  import opened BackupPayload

  type Bytes = seq<int>

  datatype Sealed = Sealed(ciphertext: Bytes, tag: Bytes)

  /** Hash, text encoding and authenticated cipher, and `wellFormed` the patterns of key id, owner and
      export time. */
  datatype Crypto = Crypto(
    hash: Text -> Text, hashBytes: Bytes -> Text,
    encode: Text -> Bytes, decode: Bytes -> Text,
    lock: (Bytes, Bytes, Text, Bytes) -> Sealed, unlock: (Bytes, Bytes, Text, Sealed) -> Option<Bytes>,
    wellFormed: (Text, Metadata) -> bool)

  datatype Environment = Staging | Production

  datatype Metadata = Metadata(environment: Environment, owner: Text, exportedAt: Text, plaintextSha256: Text)

  datatype Envelope = Envelope(keyId: Text, nonce: Bytes, sealed: Sealed, metadata: Metadata, ciphertextSha256: Text)

  // ---------------------------------------------------------------- text without lone surrogates

  /** What UTF-8 can carry: every surrogate is half of a pair. */
  predicate Utf8Safe(t: Text) {
    if t == [] then true
    else if IsHigh(t[0]) then |t| > 1 && IsLow(t[1]) && Utf8Safe(t[2..])
    else !IsLow(t[0]) && Utf8Safe(t[1..])
  }

  lemma {:induction false} SafeConcat(a: Text, b: Text)
    requires Utf8Safe(a) && Utf8Safe(b)
    ensures Utf8Safe(a + b)
  {
    if a == [] {
      assert a + b == b;
    } else {
      var n := if IsHigh(a[0]) then 2 else 1;
      assert (a + b)[n..] == a[n..] + b;
      SafeConcat(a[n..], b);
    }
  }

  lemma {:induction false} PlainSafe(t: Text)
    requires forall c :: c in t ==> c < 0xD800
    ensures Utf8Safe(t)
  {
    if t != [] {
      assert t[0] in t && forall c :: c in t[1..] ==> c in t;
      PlainSafe(t[1..]);
    }
  }

  lemma {:induction false} EscapeSafe(s: Text)
    ensures Utf8Safe(Escape(s))
  {
    if s != [] {
      EscapeSafe(s[HeadLength(s)..]);
      HeadSafe(s);
      SafeConcat(EscapeHead(s), Escape(s[HeadLength(s)..]));
    }
  }

  lemma HeadSafe(s: Text)
    requires s != []
    ensures Utf8Safe(EscapeHead(s))
  {
    if ShortEscape(s[0]).Some? {
      PlainSafe(EscapeHead(s));
    } else if HeadLength(s) == 2 {
      assert s[..2][2..] == [];
    } else if s[0] < 32 || IsHigh(s[0]) || IsLow(s[0]) {
      PlainSafe(UnicodeEscape(s[0]));
    } else {
      assert [s[0]][1..] == [];
    }
  }

  lemma QuoteSafe(s: Text)
    ensures Utf8Safe(Quote(s))
  {
    EscapeSafe(s);
    PlainSafe([QUOTE]);
    SafeConcat([QUOTE], Escape(s));
    SafeConcat([QUOTE] + Escape(s), [QUOTE]);
  }

  lemma {:induction false} DigitsSafe(n: nat)
    ensures forall c :: c in Digits(n) ==> c < 0xD800
  {
    if n >= 10 { DigitsSafe(n / 10); }
  }

  lemma {:induction false} JoinSafe(ts: seq<Text>)
    requires forall t :: t in ts ==> Utf8Safe(t)
    ensures Utf8Safe(Join(ts))
  {
    if |ts| > 1 {
      JoinSafe(ts[1..]);
      PlainSafe([COMMA]);
      assert ts[0] in ts;
      SafeConcat(ts[0], [COMMA]);
      SafeConcat(ts[0] + [COMMA], Join(ts[1..]));
    } else if |ts| == 1 {
      assert ts[0] in ts;
    }
  }

  lemma BracketsSafe(open: Unit, body: Text, close: Unit)
    requires open < 0xD800 && close < 0xD800 && Utf8Safe(body)
    ensures Utf8Safe([open] + body + [close])
  {
    PlainSafe([open]);
    PlainSafe([close]);
    SafeConcat([open], body);
    SafeConcat([open] + body, [close]);
  }

  lemma MemberSafe(name: Text, t: Text)
    requires Utf8Safe(t)
    ensures Utf8Safe(Quote(name) + [COLON] + t)
  {
    QuoteSafe(name);
    PlainSafe([COLON]);
    SafeConcat(Quote(name), [COLON]);
    SafeConcat(Quote(name) + [COLON], t);
  }

  /** The canonical text never holds a lone surrogate, so UTF-8 carries it unchanged. */
  lemma {:induction false} PrintSafe(v: Value, col: Collation)
    requires Printable(v)
    ensures Utf8Safe(Print(v, col))
    decreases v
  {
    hide Escape, Utf8Safe, Join;
    match v
    case Null => PlainSafe(NULL);
    case Bool(b) => PlainSafe(if b then TRUE else FALSE);
    case Num(n) =>
      DigitsSafe(if n < 0 then -n else n);
      PlainSafe(Number(n));
    case Str(s) => QuoteSafe(s);
    case Arr(items) =>
      var ts := seq(|items|, i requires 0 <= i < |items| => Print(items[i], col));
      forall t | t in ts ensures Utf8Safe(t) {
        var i :| 0 <= i < |items| && ts[i] == t;
        PrintSafe(items[i], col);
      }
      JoinSafe(ts);
      BracketsSafe(LBRACKET, Join(ts), RBRACKET);
    case Obj(fields) =>
      var es := Entries(fields, col);
      var ts := seq(|es|, i requires 0 <= i < |es| =>
        assert es[i] in es && InFields(es[i], fields); Quote(es[i].name) + [COLON] + Print(es[i].value, col));
      forall t | t in ts ensures Utf8Safe(t) {
        var i :| 0 <= i < |es| && ts[i] == t;
        assert es[i] in es && InFields(es[i], fields);
        PrintSafe(es[i].value, col);
        MemberSafe(es[i].name, Print(es[i].value, col));
      }
      JoinSafe(ts);
      BracketsSafe(LBRACE, Join(ts), RBRACE);
  }

  // ---------------------------------------------------------------- the envelope

  function Name(e: Environment): Text { if e.Staging? then Ascii("staging") else Ascii("production") }

  function MetadataValue(m: Metadata): Value {
    Obj([Field(Ascii("environment"), Str(Name(m.environment))),
         Field(Ascii("backupSchemaVersion"), Str(Ascii("miraichi.cloud-backup.v3"))),
         Field(Ascii("ownerProfileId"), Str(m.owner)),
         Field(Ascii("exportedAt"), Str(m.exportedAt)),
         Field(Ascii("plaintextSha256"), Str(m.plaintextSha256))])
  }

  function OuterValue(keyId: Text, m: Metadata): Value {
    Obj([Field(Ascii("envelopeVersion"), Str(Ascii("miraichi.owner-backup.aes-gcm.v1"))),
         Field(Ascii("algorithm"), Str(Ascii("AES-256-GCM"))),
         Field(Ascii("keyId"), Str(keyId)),
         Field(Ascii("authenticatedMetadata"), MetadataValue(m))])
  }

  lemma NamesDiffer(a: string, b: string)
    requires IsAscii(a) && IsAscii(b) && a != b
    ensures Ascii(a) != Ascii(b)
  {
    if Ascii(a) == Ascii(b) { AsciiInjective(a, b); }
  }

  lemma MetadataPrintable(m: Metadata)
    ensures Printable(MetadataValue(m))
  {
    hide Ascii;
    NamesDiffer("environment", "backupSchemaVersion");
    NamesDiffer("environment", "ownerProfileId");
    NamesDiffer("environment", "exportedAt");
    NamesDiffer("environment", "plaintextSha256");
    NamesDiffer("backupSchemaVersion", "ownerProfileId");
    NamesDiffer("backupSchemaVersion", "exportedAt");
    NamesDiffer("backupSchemaVersion", "plaintextSha256");
    NamesDiffer("ownerProfileId", "exportedAt");
    NamesDiffer("ownerProfileId", "plaintextSha256");
    NamesDiffer("exportedAt", "plaintextSha256");
  }

  lemma OuterPrintable(keyId: Text, m: Metadata)
    ensures Printable(OuterValue(keyId, m))
  {
    hide Ascii, MetadataValue;
    MetadataPrintable(m);
    NamesDiffer("envelopeVersion", "algorithm");
    NamesDiffer("envelopeVersion", "keyId");
    NamesDiffer("envelopeVersion", "authenticatedMetadata");
    NamesDiffer("algorithm", "keyId");
    NamesDiffer("algorithm", "authenticatedMetadata");
    NamesDiffer("keyId", "authenticatedMetadata");
  }

  /** The additional data bound to the ciphertext. */
  ghost function Aad(keyId: Text, m: Metadata, col: Collation): Text {
    OuterPrintable(keyId, m);
    Print(OuterValue(keyId, m), col)
  }

  /** Equal objects agree on the field at the same place with the same name. */
  lemma SameField(a: Value, b: Value, i: nat)
    requires Printable(a) && a.Obj? && Printable(b) && b.Obj? && Denote(a) == Denote(b)
    requires i < |a.fields| && i < |b.fields| && a.fields[i].name == b.fields[i].name
    requires Printable(a.fields[i].value) && Printable(b.fields[i].value)
    ensures Denote(a.fields[i].value) == Denote(b.fields[i].value)
  {
    MembersDenote(a.fields);
    MembersDenote(b.fields);
    assert a.fields[i] in a.fields && b.fields[i] in b.fields;
    PrintableDefined(a.fields[i].value);
    PrintableDefined(b.fields[i].value);
    MemberOf(a.fields, a.fields[i]);
    MemberOf(b.fields, b.fields[i]);
  }

  lemma SameText(a: Value, b: Value, i: nat, s: Text, t: Text)
    requires Printable(a) && a.Obj? && Printable(b) && b.Obj? && Denote(a) == Denote(b)
    requires i < |a.fields| && i < |b.fields| && a.fields[i].name == b.fields[i].name
    requires a.fields[i].value == Str(s) && b.fields[i].value == Str(t)
    ensures s == t
  {
    SameField(a, b, i);
  }

  lemma MetadataInjective(m1: Metadata, m2: Metadata)
    requires Printable(MetadataValue(m1)) && Printable(MetadataValue(m2)) && Denote(MetadataValue(m1)) == Denote(MetadataValue(m2))
    ensures m1 == m2
  {
    hide Ascii, Denote, Printable;
    NamesDiffer("staging", "production");
    var a, b := MetadataValue(m1), MetadataValue(m2);
    SameText(a, b, 0, Name(m1.environment), Name(m2.environment));
    SameText(a, b, 2, m1.owner, m2.owner);
    SameText(a, b, 3, m1.exportedAt, m2.exportedAt);
    SameText(a, b, 4, m1.plaintextSha256, m2.plaintextSha256);
  }

  /** The additional data determines key id and metadata. */
  lemma AadInjective(k1: Text, m1: Metadata, k2: Text, m2: Metadata, col: Collation)
    requires Aad(k1, m1, col) == Aad(k2, m2, col)
    ensures k1 == k2 && m1 == m2
  {
    hide Ascii, Print, MetadataValue;
    OuterPrintable(k1, m1);
    OuterPrintable(k2, m2);
    MetadataPrintable(m1);
    MetadataPrintable(m2);
    var a, b := OuterValue(k1, m1), OuterValue(k2, m2);
    SameTextSameData(a, b, col);
    SameField(a, b, 2);
    SameField(a, b, 3);
    MetadataInjective(m1, m2);
  }

  // ---------------------------------------------------------------- encrypting and decrypting

  /** What is assumed of cipher and encoding: opening yields exactly what was locked under the
      same key, nonce and additional data, and no other lock gives the same result. */
  ghost predicate Ideal(c: Crypto) {
    && (forall t :: Utf8Safe(t) ==> c.decode(c.encode(t)) == t)
    && (forall t :: t != [] ==> c.encode(t) != [])
    && (forall k, n, a, p :: p != [] ==> c.lock(k, n, a, p).ciphertext != [])
    && (forall k, n, a, p, s :: c.unlock(k, n, a, s) == Some(p) <==> c.lock(k, n, a, p) == s)
    && (forall k, n, a, p, b, q :: c.lock(k, n, a, p) == c.lock(k, n, b, q) ==> a == b && p == q)
  }

  ghost function TextOf(d: Data, name: string): Option<Text> {
    if d.DObj? && Ascii(name) in d.members && d.members[Ascii(name)].DStr? then Some(d.members[Ascii(name)].s) else None
  }

  function IsNotHash(f: Field): bool { f.name != Ascii("payloadSha256") }

  function WithoutHash(v: Value): Value
    requires v.Obj?
  {
    Obj(Filter(v.fields, IsNotHash))
  }

  lemma WithoutHashPrintable(v: Value)
    requires v.Obj? && Printable(v)
    ensures Printable(WithoutHash(v))
  {
    FilterAscending(v.fields, OtherName, IsNotHash);
    assert forall i, j :: 0 <= i < j < |WithoutHash(v).fields| ==> OtherName(WithoutHash(v).fields[i], WithoutHash(v).fields[j]);
  }

  /** `assertCanonicalV3Backup`: the rest of the backup is its canonical payload, and the hash is that
      of the payload. */
  ghost predicate Canonical(v: Value, c: Crypto, col: Collation)
    requires v.Obj? && Printable(v)
  {
    WithoutHashPrintable(v);
    PayloadPrintable(v, col);
    var p := Payload(v, col);
    && p.Some? && Print(WithoutHash(v), col) == Print(p.value, col)
    && TextOf(Denote(v), "payloadSha256") == Some(c.hash(Print(p.value, col)))
  }

  /** The shape checks of `assertDecryptedBackup`: six arrays, and record counts that print like the
      counts of what the backup holds. */
  ghost predicate Shaped(v: Value, col: Collation) {
    && Held(v).Some?
    && var counts := Get(v, "recordCounts");
    && counts.Obj? && Printable(counts)
    && (CountsPrintable(Get(v, "ownerProfile"), Held(v).value);
        Print(counts, col) == Print(Counts(Get(v, "ownerProfile"), Held(v).value), col))
  }

  ghost function MetadataOf(v: Value, env: Environment, c: Crypto, col: Collation): Option<Metadata>
    requires Printable(v)
  {
    var owner, exportedAt := TextOf(Denote(v), "ownerProfileId"), TextOf(Denote(v), "exportedAt");
    if owner.None? || exportedAt.None? || TextOf(Denote(v), "schemaVersion") != Some(Ascii("miraichi.cloud-backup.v3")) then None
    else Some(Metadata(env, owner.value, exportedAt.value, c.hash(Print(v, col))))
  }

  /** `None` is the thrown error. */
  ghost function Encrypt(v: Value, env: Environment, keyId: Text, key: Bytes, nonce: Bytes, c: Crypto, col: Collation): Option<Envelope> {
    if |key| != 32 || !v.Obj? || !Printable(v) then None
    else
      var m := MetadataOf(v, env, c, col);
      if m.None? || !c.wellFormed(keyId, m.value) || !Canonical(v, c, col) then None
      else
        var sealed := c.lock(key, nonce, Aad(keyId, m.value, col), c.encode(Print(v, col)));
        Some(Envelope(keyId, nonce, sealed, m.value, c.hashBytes(sealed.ciphertext)))
  }

  /** `assertDecryptedBackup`. */
  ghost predicate Accepted(v: Value, plaintext: Text, m: Metadata, c: Crypto, col: Collation) {
    && v.Obj? && Printable(v) && Print(v, col) == plaintext
    && MetadataOf(v, m.environment, c, col) == Some(m)
    && Shaped(v, col) && Canonical(v, c, col)
  }

  ghost function ParseAccepted(plaintext: Text, m: Metadata, c: Crypto, col: Collation): Option<Value> {
    var v := Parse(plaintext);
    if v.Some? && Accepted(v.value, plaintext, m, c, col) then v else None
  }

  ghost function Decrypt(e: Envelope, key: Bytes, c: Crypto, col: Collation): Option<Value> {
    if |key| != 32 || !c.wellFormed(e.keyId, e.metadata) || e.sealed.ciphertext == [] || c.hashBytes(e.sealed.ciphertext) != e.ciphertextSha256
    then None
    else
      match c.unlock(key, e.nonce, Aad(e.keyId, e.metadata, col), e.sealed)
      case None => None
      case Some(bytes) => ParseAccepted(c.decode(bytes), e.metadata, c, col)
  }

  /** Dropping the hash and normalizing commute. */
  lemma PrintedFields(v: Value, col: Collation)
    requires v.Obj? && Printable(v)
    ensures Normal(v, col).Obj? && Printable(Normal(v, col)) && Printable(WithoutHash(v))
    ensures WithoutHash(Normal(v, col)) == Normal(WithoutHash(v), col)
  {
    WithoutHashPrintable(v);
    NormalMeansSame(v, col);
    EntriesWithoutHash(v.fields, col);
    var w := WithoutHash(v);
    hide Filter, Entries, Denote, Ascii;
    NormalFields(v.fields, col);
    NormalFields(w.fields, col);
    FilterNormal(Entries(v.fields, col), Normal(v, col).fields, Normal(w, col).fields, col);
  }

  lemma NormalFields(fields: seq<Field>, col: Collation)
    requires Printable(Obj(fields))
    ensures NormalsOf(Normal(Obj(fields), col).fields, Entries(fields, col), col)
  {
    var es := Entries(fields, col);
    forall e | e in es ensures Printable(e.value) { assert InFields(e, fields); }
    assert forall i :: 0 <= i < |es| ==> es[i] in es;
  }

  lemma EntriesWithoutHash(fields: seq<Field>, col: Collation)
    ensures Entries(Filter(fields, IsNotHash), col) == Filter(Entries(fields, col), IsNotHash)
  {
    hide Filter, TotalPreorder;
    ByNameIsOrder(col);
    FilterBoth(fields, IsNotHash, IsDefined);
    FilterSort(Filter(fields, IsDefined), ByName(col), IsNotHash);
  }

  lemma FilterBoth(s: seq<Field>, p: Field -> bool, q: Field -> bool)
    ensures Filter(Filter(s, p), q) == Filter(Filter(s, q), p)
  {
    var both := (f: Field) => p(f) && q(f);
    FilterTwice(s, p, q, both);
    FilterTwice(s, q, p, both);
  }

  ghost predicate NormalOf(n: Field, e: Field, col: Collation) {
    Printable(e.value) && n == Field(e.name, Normal(e.value, col))
  }

  ghost predicate NormalsOf(ns: seq<Field>, es: seq<Field>, col: Collation) {
    |ns| == |es| && forall i :: 0 <= i < |es| ==> NormalOf(ns[i], es[i], col)
  }

  /** Normalizing field by field and then dropping one name is the same in either order. */
  lemma {:induction false} FilterNormal(es: seq<Field>, ns: seq<Field>, ws: seq<Field>, col: Collation)
    requires NormalsOf(ns, es, col) && NormalsOf(ws, Filter(es, IsNotHash), col)
    ensures Filter(ns, IsNotHash) == ws
    decreases |es|
  {
    hide Ascii, Filter, Normal, Printable;
    FilterCons(es, IsNotHash);
    FilterCons(ns, IsNotHash);
    if es != [] {
      assert NormalOf(ns[0], es[0], col);
      var rest := Filter(es[1..], IsNotHash);
      if IsNotHash(es[0]) {
        assert ([es[0]] + rest)[1..] == rest;
        FilterNormal(es[1..], ns[1..], ws[1..], col);
        assert NormalOf(ws[0], es[0], col);
        assert ws == [ws[0]] + ws[1..];
      } else {
        assert [] + rest == rest;
        FilterNormal(es[1..], ns[1..], ws, col);
      }
    }
  }

  lemma NormalCanonical(v: Value, c: Crypto, col: Collation)
    requires v.Obj? && Printable(v) && Canonical(v, c, col)
    ensures Normal(v, col).Obj? && Printable(Normal(v, col)) && Canonical(Normal(v, col), c, col)
  {
    hide Print, Filter, Payload;
    PrintedFields(v, col);
    NormalMeansSame(v, col);
    WithoutHashPrintable(v);
    PrintNormal(WithoutHash(v), col);
    PayloadNormal(v, col);
  }

  // ---------------------------------------------------------------- a canonical backup has right counts

  lemma {:induction false} GetWithoutHash(fields: seq<Field>, name: Text)
    requires name != Ascii("payloadSha256")
    ensures GetIn(Filter(fields, IsNotHash), name) == GetIn(fields, name)
  {
    hide Filter, Ascii;
    FilterCons(fields, IsNotHash);
    if fields != [] {
      GetWithoutHash(fields[1..], name);
      var rest := Filter(fields[1..], IsNotHash);
      assert Filter(fields, IsNotHash) == if IsNotHash(fields[0]) then [fields[0]] + rest else rest;
      assert ([fields[0]] + rest)[1..] == rest;
    }
  }

  /** A field of the payload is that field of the backup, up to tidying. */
  lemma PayloadField(v: Value, p: seq<Field>, i: nat, name: string, col: Collation)
    requires SamePayload(v, p, col) && i < |p| && p[i].name == Ascii(name) && IsKept(name)
    ensures Tidy(Get(v, name), col) == Tidy(p[i].value, col)
  {
    hide Ascii, Normal, Tidy;
    NamesDiffer(name, "payloadSha256");
    GetWithoutHash(v.fields, Ascii(name));
    GetNormal(WithoutHash(v).fields, Ascii(name), col);
    GetNormal(p, Ascii(name), col);
    GetAt(p, i);
  }

  lemma TidyLength(x: Value, items: seq<Value>, col: Collation)
    requires x.Arr? && Printable(x) && Printable(Arr(items)) && Tidy(x, col) == Tidy(Arr(items), col)
    ensures |x.items| == |items|
  {
    assert |Normal(x, col).items| == |x.items| && |Normal(Arr(items), col).items| == |items|;
  }

  lemma ArrayField(v: Value, p: seq<Field>, i: nat, name: string, items: seq<Value>, col: Collation)
    requires SamePayload(v, p, col) && i < |p| && p[i] == Field(Ascii(name), Arr(items)) && IsKept(name)
    ensures Items(v, name).Some? ==> |Items(v, name).value| == |items|
  {
    hide Ascii, Normal, Printable, Tidy, GetIn, WithoutHash;
    PayloadField(v, p, i, name, col);
    assert p[i] in p;
    FieldPrintable(p, p[i]);
    GetPrintable(v.fields, Ascii(name));
    if Items(v, name).Some? { TidyLength(Get(v, name), items, col); }
  }

  /** A name of the payload other than the hash. */
  predicate IsKept(name: string) { IsAscii(name) && name != "payloadSha256" }

  lemma CollectionNames()
    ensures IsKept("drafts") && IsKept("bets") && IsKept("bankrollAccounts") && IsKept("bankrollLedgerEntries")
    ensures IsKept("disciplineConfigs") && IsKept("settlementEvents") && IsKept("recordCounts")
  {
  }

  ghost predicate SamePayload(v: Value, p: seq<Field>, col: Collation) {
    && v.Obj? && Printable(v) && Printable(WithoutHash(v)) && Printable(Obj(p))
    && Normal(WithoutHash(v), col) == Normal(Obj(p), col)
  }

  lemma SameCounts(v: Value, k: Collections, p: seq<Field>, col: Collation)
    requires SamePayload(v, p, col) && Obj(p) == Assembled(v, k) && Held(v).Some?
    ensures Counts(Get(v, "ownerProfile"), Held(v).value) == Counts(Get(v, "ownerProfile"), k)
  {
    hide Ascii, SamePayload, IsKept, Assembled, Items;
    CollectionNames();
    AssembledSize(v, k);
    AssembledFields(v, k, p);
    ArrayField(v, p, 4, "drafts", k.drafts, col);
    ArrayField(v, p, 5, "bets", k.bets, col);
    ArrayField(v, p, 6, "bankrollAccounts", k.accounts, col);
    ArrayField(v, p, 7, "bankrollLedgerEntries", k.entries, col);
    ArrayField(v, p, 8, "disciplineConfigs", k.configs, col);
    ArrayField(v, p, 9, "settlementEvents", k.events, col);
  }

  /** A backup that is its own canonical payload has the counts of its collections. */
  lemma CanonicalShaped(v: Value, c: Crypto, col: Collation)
    requires v.Obj? && Printable(v) && Canonical(v, c, col)
    ensures Shaped(v, col)
  {
    hide Ascii, Print, Normal, Printable, Denote, InOrder, Filter, GetIn, Held, Assembled, Counts, WithoutHash, Tidy, TextOf;
    WithoutHashPrintable(v);
    PayloadPrintable(v, col);
    var p := Payload(v, col).value;
    var k := InOrder(Held(v).value, col).value;
    SameTextSameData(WithoutHash(v), p, col);
    AssembledSize(v, k);
    AssembledFields(v, k, p.fields);
    CollectionNames();
    SameCounts(v, k, p.fields, col);
    PayloadField(v, p.fields, 10, "recordCounts", col);
    CountsPrintable(Get(v, "ownerProfile"), k);
    assert v == Obj(v.fields);
    GetPrintable(v.fields, Ascii("recordCounts"));
    SameTidyValue(Get(v, "recordCounts"), Counts(Get(v, "ownerProfile"), k), col);
  }

  lemma SameTidyValue(a: Value, b: Value, col: Collation)
    requires Printable(b) && b.Obj? && Tidy(a, col) == Tidy(b, col)
    requires a.Undefined? || Printable(a)
    ensures a.Obj? && Printable(a) && Print(a, col) == Print(b, col)
  {
    PrintNormal(b, col);
    NormalMeansSame(b, col);
    if Printable(a) { PrintNormal(a, col); }
  }

  /** The canonical form of an encryptable backup passes the checks after decryption. */
  lemma NormalAccepted(v: Value, env: Environment, c: Crypto, col: Collation)
    requires v.Obj? && Printable(v) && Canonical(v, c, col) && MetadataOf(v, env, c, col).Some?
    ensures Printable(Normal(v, col)) && Denote(Normal(v, col)) == Denote(v)
    ensures ParseAccepted(Print(v, col), MetadataOf(v, env, c, col).value, c, col) == Some(Normal(v, col))
  {
    hide Print, Normal, Canonical, Parse, Denote, Printable, Ascii, Shaped;
    ParseUndoesPrint(v, col);
    PrintNormal(v, col);
    NormalMeansSame(v, col);
    NormalCanonical(v, c, col);
    CanonicalShaped(Normal(v, col), c, col);
  }

  /** The envelope decrypts to the backup, with its keys in canonical order. */
  ghost predicate Yields(e: Option<Envelope>, v: Value, key: Bytes, c: Crypto, col: Collation) {
    && e.Some? && Printable(v) && Decrypt(e.value, key, c, col) == Some(Normal(v, col))
    && Printable(Normal(v, col)) && Denote(Normal(v, col)) == Denote(v)
  }

  /** Decrypting what was encrypted gives the backup again, with its keys in canonical order. */
  lemma EnvelopeRoundTrip(v: Value, env: Environment, keyId: Text, key: Bytes, nonce: Bytes, c: Crypto, col: Collation)
    requires Ideal(c) && Encrypt(v, env, keyId, key, nonce, c, col).Some?
    ensures Yields(Encrypt(v, env, keyId, key, nonce, c, col), v, key, c, col)
  {
    hide Print, Normal, Canonical, Aad, Denote, Printable, ParseAccepted, MetadataOf, Utf8Safe;
    NormalAccepted(v, env, c, col);
    PrintSafe(v, col);
    PrintNotEmpty(v, col);
    var e, t := Encrypt(v, env, keyId, key, nonce, c, col).value, Print(v, col);
    assert c.lock(key, nonce, Aad(keyId, e.metadata, col), c.encode(t)) == e.sealed;
    assert c.unlock(key, nonce, Aad(keyId, e.metadata, col), e.sealed) == Some(c.encode(t));
    assert c.decode(c.encode(t)) == t;
  }

  lemma PrintNotEmpty(v: Value, col: Collation)
    requires v.Obj? && Printable(v)
    ensures Print(v, col) != []
  {
  }

  /** Key id, metadata and hash are bound to the ciphertext: an envelope that reuses the nonce and the
      sealed text of an honest one and still decrypts is that very envelope. */
  lemma EnvelopeBinding(v: Value, env: Environment, keyId: Text, key: Bytes, nonce: Bytes, other: Envelope, c: Crypto, col: Collation)
    requires Ideal(c) && Encrypt(v, env, keyId, key, nonce, c, col).Some?
    requires other.nonce == nonce && other.sealed == Encrypt(v, env, keyId, key, nonce, c, col).value.sealed
    requires Decrypt(other, key, c, col).Some?
    ensures other == Encrypt(v, env, keyId, key, nonce, c, col).value
  {
    hide Print, Aad, ParseAccepted, Canonical, MetadataOf;
    var e := Encrypt(v, env, keyId, key, nonce, c, col).value;
    var p := c.unlock(key, nonce, Aad(other.keyId, other.metadata, col), other.sealed).value;
    assert c.lock(key, nonce, Aad(other.keyId, other.metadata, col), p) == e.sealed;
    AadInjective(other.keyId, other.metadata, keyId, e.metadata, col);
  }

  /** What decrypts is a canonical backup that encrypting would accept under the same metadata. */
  lemma DecryptedIsEncryptable(e: Envelope, key: Bytes, c: Crypto, col: Collation)
    requires Decrypt(e, key, c, col).Some?
    ensures var again := Encrypt(Decrypt(e, key, c, col).value, e.metadata.environment, e.keyId, key, e.nonce, c, col);
      again.Some? && again.value.metadata == e.metadata && again.value.keyId == e.keyId
  {
    hide Print, Canonical, Aad, Denote, Printable, MetadataOf, Parse, Shaped;
  }
}
