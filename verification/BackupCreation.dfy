/** A created backup is its own canonical payload, so encrypting accepts it. */
module BackupCreation {
  import opened Options
  import opened StableSort
  import opened CanonicalJson
  import opened JsonFaithful
  import opened BackupPayload
  import opened BackupEnvelope

  /** A payload with its hash appended. */
  function Created(p: Value, hash: Text): Value {
    if p.Obj? then Obj(p.fields + [Field(Ascii("payloadSha256"), Str(hash))]) else p
  }

  lemma {:induction false} GetBefore(fields: seq<Field>, last: Field, name: Text)
    requires last.name != name
    ensures GetIn(fields + [last], name) == GetIn(fields, name)
  {
    if fields != [] {
      GetBefore(fields[1..], last, name);
      assert (fields + [last])[1..] == fields[1..] + [last];
    }
  }

  lemma CreatedReads(p: Value, hash: Text, name: string)
    requires p.Obj? && IsKept(name)
    ensures Get(Created(p, hash), name) == Get(p, name)
  {
    hide Ascii;
    NamesDiffer(name, "payloadSha256");
    GetBefore(p.fields, Field(Ascii("payloadSha256"), Str(hash)), Ascii(name));
  }

  // ---------------------------------------------------------------- ordering what is in order

  lemma SortAgain(given: seq<Value>, name: string, col: Collation)
    ensures Sort(Sort(given, ById(name, col)), ById(name, col)) == Sort(given, ById(name, col))
  {
    hide RecordId, TotalPreorder;
    IdOrder(name, col);
    SortIsSorting(given, ById(name, col));
    SortAscending(Sort(given, ById(name, col)), ById(name, col));
  }

  /** The collation tells the ids of the events apart. */
  ghost predicate EventsApart(events: seq<Value>, col: Collation) {
    forall i, j :: 0 <= i < j < |events| ==> RankOf(events[i], "settlementEventId", col) != RankOf(events[j], "settlementEventId", col)
  }

  lemma ApartSeparates(events: seq<Value>, col: Collation)
    requires EventsApart(events, col)
    ensures DistinctEvents(events) && NoDuplicates(events) && Separates(ById("settlementEventId", col), events)
  {
    hide RecordId;
    forall i, j | 0 <= i < j < |events|
      ensures RecordId(events[i], "settlementEventId") != RecordId(events[j], "settlementEventId") && events[i] != events[j]
    {
      assert RankOf(events[i], "settlementEventId", col) != RankOf(events[j], "settlementEventId", col);
    }
    forall x, y | x in events && y in events && RankOf(x, "settlementEventId", col) == RankOf(y, "settlementEventId", col) ensures x == y {
      var i :| 0 <= i < |events| && events[i] == x;
      var j :| 0 <= j < |events| && events[j] == y;
    }
  }

  lemma {:induction false} OnceEach(s: seq<Value>)
    requires NoDuplicates(s)
    ensures forall x :: multiset(s)[x] <= 1
  {
    if s != [] {
      OnceEach(s[1..]);
      assert s == [s[0]] + s[1..];
      assert s[0] !in s[1..];
    }
  }

  lemma SameElements(a: seq<Value>, b: seq<Value>)
    requires NoDuplicates(a) && multiset(a) == multiset(b)
    ensures NoDuplicates(b) && forall x :: x in a <==> x in b
  {
    OnceEach(a);
    forall x ensures x in a <==> x in b { assert x in multiset(a) <==> x in multiset(b); }
    forall i, j | 0 <= i < j < |b| ensures b[i] != b[j] {
      assert b == b[..j] + [b[j]] + b[j + 1..];
      assert multiset(b)[b[j]] <= 1;
      assert b[i] == b[..j][i];
    }
  }

  /** Ordering the events of a payload again changes nothing. */
  lemma OrderedAgain(events: seq<Value>, col: Collation)
    requires EventsApart(events, col) && Ordered(events, col).Some?
    ensures Ordered(Ordered(events, col).value, col) == Some(Ordered(events, col).value)
  {
    hide RecordId, Sort, EventsApart, Separates, NoDuplicates, TotalPreorder, ByCorrection, DistinctEvents;
    ApartSeparates(events, col);
    OrderedMeaning(events, col);
    var placed := Ordered(events, col).value;
    SameElements(events, placed);
    IdOrder("settlementEventId", col);
    SortDistinct(events, placed, ById("settlementEventId", col));
  }

  lemma InOrderAgain(k: Collections, col: Collation)
    requires EventsApart(k.events, col) && InOrder(k, col).Some?
    ensures InOrder(InOrder(k, col).value, col) == InOrder(k, col)
  {
    hide Sort, Ordered, EventsApart;
    SortAgain(k.drafts, "draftId", col);
    SortAgain(k.bets, "betId", col);
    SortAgain(k.accounts, "accountId", col);
    SortAgain(k.entries, "entryId", col);
    SortAgain(k.configs, "ownerProfileId", col);
    OrderedAgain(k.events, col);
  }

  // ---------------------------------------------------------------- the payload of a payload

  lemma KeptNames()
    ensures IsKept("schemaVersion") && IsKept("exportedAt") && IsKept("ownerProfileId") && IsKept("ownerProfile")
    ensures IsKept("drafts") && IsKept("bets") && IsKept("bankrollAccounts") && IsKept("bankrollLedgerEntries")
    ensures IsKept("disciplineConfigs") && IsKept("settlementEvents")
  {
    hide IsKept;
    KeptHeader();
    KeptRecords();
    KeptAccounts();
  }

  lemma KeptHeader()
    ensures IsKept("schemaVersion") && IsKept("exportedAt") && IsKept("ownerProfileId") && IsKept("ownerProfile")
  {
  }

  lemma KeptRecords()
    ensures IsKept("drafts") && IsKept("bets") && IsKept("settlementEvents")
  {
  }

  lemma KeptAccounts()
    ensures IsKept("bankrollAccounts") && IsKept("bankrollLedgerEntries") && IsKept("disciplineConfigs")
  {
  }

  lemma CreatedHeld(v: Value, o: Collections, hash: Text)
    ensures var b := Created(Assembled(v, o), hash); Held(b) == Some(o) && HoldsHeader(v, b)
  {
    hide Ascii, Truthy, Assembled, DistinctNames, LaidOut, HeaderLaidOut, Counts, Created, Get, IsKept;
    var p := Assembled(v, o);
    AssembledSize(v, o);
    AssembledNames(v, o);
    AssembledFields(v, o, p.fields);
    AssembledHeader(v, o, p.fields);
    ReadCollections(v, o, p.fields);
    KeptNames();
    CreatedReads(p, hash, "schemaVersion");
    CreatedReads(p, hash, "exportedAt");
    CreatedReads(p, hash, "ownerProfileId");
    CreatedReads(p, hash, "ownerProfile");
    CreatedReads(p, hash, "drafts");
    CreatedReads(p, hash, "bets");
    CreatedReads(p, hash, "bankrollAccounts");
    CreatedReads(p, hash, "bankrollLedgerEntries");
    CreatedReads(p, hash, "disciplineConfigs");
    CreatedReads(p, hash, "settlementEvents");
  }

  lemma SameHeader(v: Value, b: Value, o: Collections)
    requires HoldsHeader(v, b)
    ensures Assembled(b, o) == Assembled(v, o)
  {
    hide Ascii, Get;
  }

  /** The payload of a created backup is the payload it was created from. */
  lemma PayloadAgain(v: Value, hash: Text, col: Collation)
    requires Payload(v, col).Some? && EventsApart(ArrayOf(v, "settlementEvents"), col)
    ensures Payload(Created(Payload(v, col).value, hash), col) == Payload(v, col)
  {
    hide Ascii, Held, InOrder, Assembled, EventsApart, Created, HoldsHeader, ArrayOf;
    var k := Held(v).value;
    var o := InOrder(k, col).value;
    HeldArrays(v);
    InOrderAgain(k, col);
    AssembledSize(v, o);
    CreatedHeld(v, o, hash);
    SameHeader(v, Created(Assembled(v, o), hash), o);
  }

  // ---------------------------------------------------------------- creating, then encrypting

  lemma NoHashName(v: Value, k: Collections)
    ensures forall f :: f in Assembled(v, k).fields ==> f.name != Ascii("payloadSha256")
  {
    hide Ascii, Mark, Header, CollectionFields;
    HeaderNames(v);
    BackupPayload.CollectionNames(v, k);
    MarkOf("payloadSha256");
  }

  lemma CreatedParts(p: Value, hash: Text)
    requires p.Obj? && Printable(p) && forall f :: f in p.fields ==> f.name != Ascii("payloadSha256")
    ensures var b := Created(p, hash);
      && b.Obj? && Printable(b) && WithoutHash(b) == p && TextOf(Denote(b), "payloadSha256") == Some(hash)
  {
    hide Ascii, Denote;
    var last := Field(Ascii("payloadSha256"), Str(hash));
    var b := Created(p, hash);
    FilterConcat(p.fields, [last], IsNotHash);
    FilterAll(p.fields, IsNotHash);
    FilterUnit(last, IsNotHash);
    assert p == Obj(p.fields);
    assert DistinctNames(b.fields);
    LeavesPrintable(hash);
    assert Printable(b);
    assert last in b.fields;
    MembersDenote(b.fields);
    MemberOf(b.fields, last);
    TextDenotes(hash);
    assert b == Obj(b.fields);
  }

  lemma TextDenotes(t: Text)
    ensures Printable(Str(t)) && Denote(Str(t)) == DStr(t)
  {
  }

  /** A backup created from anything that has a payload is canonical: encrypting does not refuse it for its
      order, its counts or its hash. */
  lemma CreatedIsCanonical(v: Value, c: Crypto, col: Collation)
    requires v.Obj? && Printable(v) && Payload(v, col).Some? && EventsApart(ArrayOf(v, "settlementEvents"), col)
    ensures var p := Payload(v, col).value;
      && p.Obj? && Printable(p)
      && var b := Created(p, c.hash(Print(p, col)));
      b.Obj? && Printable(b) && Canonical(b, c, col)
  {
    hide Ascii, Held, InOrder, Assembled, EventsApart, Created, ArrayOf, Printable, Print, Denote, WithoutHash;
    var o := InOrder(Held(v).value, col).value;
    PayloadPrintable(v, col);
    AssembledSize(v, o);
    NoHashName(v, o);
    var p := Payload(v, col).value;
    var hash := c.hash(Print(p, col));
    CreatedParts(p, hash);
    PayloadAgain(v, hash, col);
  }

  lemma {:induction false} GetFinds(fields: seq<Field>, name: Text)
    requires !GetIn(fields, name).Undefined?
    ensures exists f :: f in fields && f.name == name && f.value == GetIn(fields, name)
  {
    if fields[0].name != name {
      GetFinds(fields[1..], name);
      var f :| f in fields[1..] && f.name == name && f.value == GetIn(fields[1..], name);
      assert f in fields;
    } else {
      assert fields[0] in fields;
    }
  }

  lemma TextOfGet(v: Value, name: string, t: Text)
    requires v.Obj? && Printable(v) && Get(v, name) == Str(t)
    ensures TextOf(Denote(v), name) == Some(t)
  {
    hide Ascii, Denote;
    GetFinds(v.fields, Ascii(name));
    var f :| f in v.fields && f.name == Ascii(name) && f.value == Str(t);
    assert v == Obj(v.fields);
    MembersDenote(v.fields);
    MemberOf(v.fields, f);
    TextDenotes(t);
  }

  lemma CreatedTexts(v: Value, hash: Text, col: Collation, owner: Text, exportedAt: Text)
    requires Payload(v, col).Some? && Get(v, "ownerProfileId") == Str(owner) && Get(v, "exportedAt") == Str(exportedAt)
    ensures var b := Created(Payload(v, col).value, hash);
      Get(b, "schemaVersion") == Str(Ascii("miraichi.cloud-backup.v3")) && Get(b, "ownerProfileId") == Str(owner)
      && Get(b, "exportedAt") == Str(exportedAt)
  {
    hide Ascii, Held, InOrder, Assembled, Created, Get;
    CreatedHeld(v, InOrder(Held(v).value, col).value, hash);
  }

  /** Encrypting a created backup succeeds under a well-formed key id and owner, with the metadata of that
      very backup. */
  lemma CreatedEncrypts(v: Value, env: Environment, keyId: Text, key: Bytes, nonce: Bytes, c: Crypto, col: Collation, owner: Text, exportedAt: Text)
    requires v.Obj? && Printable(v) && Payload(v, col).Some? && EventsApart(ArrayOf(v, "settlementEvents"), col) && |key| == 32
    requires Get(v, "ownerProfileId") == Str(owner) && Get(v, "exportedAt") == Str(exportedAt)
    ensures var p := Payload(v, col).value;
      && p.Obj? && Printable(p)
      && var b := Created(p, c.hash(Print(p, col)));
      && Printable(b)
      && var m := Metadata(env, owner, exportedAt, c.hash(Print(b, col)));
      c.wellFormed(keyId, m) ==>
        var e := Encrypt(b, env, keyId, key, nonce, c, col);
        e.Some? && e.value.metadata == m && e.value.keyId == keyId && e.value.nonce == nonce
  {
    hide Ascii, Payload, EventsApart, Created, ArrayOf, Printable, Print, Denote, Canonical, TextOf, Get, Aad;
    CreatedIsCanonical(v, c, col);
    var p := Payload(v, col).value;
    var hash := c.hash(Print(p, col));
    CreatedTexts(v, hash, col, owner, exportedAt);
    var b := Created(p, hash);
    TextOfGet(b, "schemaVersion", Ascii("miraichi.cloud-backup.v3"));
    TextOfGet(b, "ownerProfileId", owner);
    TextOfGet(b, "exportedAt", exportedAt);
  }
}
