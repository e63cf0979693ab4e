/** The canonical payload of an owner backup: the envelope without its hash, its collections in order
    of id, and the record counts computed anew. */
module BackupPayload {
  import opened Options
  import opened StableSort
  import opened CanonicalJson
  import opened JsonParser
  import opened JsonFaithful
  import opened CorrectionChains

  function UnitOf(c: char): Unit { if c as int < 128 then c as int else 0 }

  /** An ASCII name as code units. */
  function Ascii(s: string): Text {
    if s == [] then [] else [UnitOf(s[0])] + Ascii(s[1..])
  }

  predicate IsAscii(s: string) { forall i :: 0 <= i < |s| ==> s[i] as int < 128 }

  lemma {:induction false} AsciiInjective(a: string, b: string)
    requires IsAscii(a) && IsAscii(b) && Ascii(a) == Ascii(b)
    ensures a == b
  {
    if a != [] && b != [] {
      assert Ascii(a)[0] == Ascii(b)[0] && Ascii(a)[1..] == Ascii(b)[1..];
      AsciiInjective(a[1..], b[1..]);
      assert a == [a[0]] + a[1..] && b == [b[0]] + b[1..];
    }
  }

  lemma {:induction false} AsciiShape(s: string)
    requires s != []
    ensures |Ascii(s)| == |s| && Ascii(s)[0] == UnitOf(s[0])
  {
    if |s| > 1 { AsciiShape(s[1..]); }
  }

  // ---------------------------------------------------------------- reading properties

  function GetIn(fields: seq<Field>, name: Text): Value {
    if fields == [] then Undefined else if fields[0].name == name then fields[0].value else GetIn(fields[1..], name)
  }

  /** `v[name]`. */
  function Get(v: Value, name: string): Value { if v.Obj? then GetIn(v.fields, Ascii(name)) else Undefined }

  lemma {:induction false} GetAt(fields: seq<Field>, i: nat)
    requires DistinctNames(fields) && i < |fields|
    ensures GetIn(fields, fields[i].name) == fields[i].value
  {
    if i > 0 {
      assert fields[0].name != fields[i].name;
      GetAt(fields[1..], i - 1);
    }
  }

  lemma {:induction false} GetNone(fields: seq<Field>, name: Text)
    requires forall i :: 0 <= i < |fields| ==> fields[i].name != name
    ensures GetIn(fields, name) == Undefined
  {
    if fields != [] { GetNone(fields[1..], name); }
  }

  lemma GetPresent(fields: seq<Field>, f: Field)
    requires DistinctNames(fields) && f in fields
    ensures GetIn(fields, f.name) == f.value
  {
    var i :| 0 <= i < |fields| && fields[i] == f;
    GetAt(fields, i);
  }

  /** A value as parsing its text gives it back; `undefined` stays. */
  ghost function Tidy(v: Value, col: Collation): Value { if Printable(v) then Normal(v, col) else v }

  lemma {:induction false} GetPrintable(fields: seq<Field>, name: Text)
    requires Printable(Obj(fields))
    ensures GetIn(fields, name).Undefined? || Printable(GetIn(fields, name))
  {
    if i: nat :| i < |fields| && fields[i].name == name {
      GetAt(fields, i);
      if IsDefined(fields[i]) { FieldPrintable(fields, fields[i]); }
    } else {
      GetNone(fields, name);
    }
  }

  /** Reading a property and tidying commute. */
  lemma GetNormal(fields: seq<Field>, name: Text, col: Collation)
    requires Printable(Obj(fields))
    ensures GetIn(Normal(Obj(fields), col).fields, name) == Tidy(GetIn(fields, name), col)
  {
    var ns, es := Normal(Obj(fields), col).fields, Entries(fields, col);
    NormalMeansSame(Obj(fields), col);
    hide Filter, Sort;
    if f :| f in fields && f.name == name && IsDefined(f) {
      GetPresent(fields, f);
      FieldPrintable(fields, f);
      NormalLookup(fields, f, col);
      GetPresent(ns, Field(name, Normal(f.value, col)));
    } else {
      GetAbsent(fields, name, col);
    }
  }

  lemma GetAbsent(fields: seq<Field>, name: Text, col: Collation)
    requires Printable(Obj(fields)) && forall f :: f in fields && f.name == name ==> !IsDefined(f)
    ensures GetIn(Normal(Obj(fields), col).fields, name) == Undefined == Tidy(GetIn(fields, name), col)
  {
    hide Filter, Sort;
    var ns, es := Normal(Obj(fields), col).fields, Entries(fields, col);
    forall i | 0 <= i < |ns| ensures ns[i].name != name {
      assert es[i] in es && es[i] in fields && IsDefined(es[i]);
    }
    hide Printable, Normal;
    GetNone(ns, name);
    if i: nat :| i < |fields| && fields[i].name == name {
      GetAt(fields, i);
      assert fields[i] in fields;
    } else {
      GetNone(fields, name);
    }
  }

  function RecordId(v: Value, name: string): Text {
    var x := Get(v, name);
    if x.Str? then x.s else []
  }

  lemma RecordIdNormal(v: Value, name: string, col: Collation)
    requires Printable(v)
    ensures RecordId(Normal(v, col), name) == RecordId(v, name)
  {
    if v.Obj? {
      GetNormal(v.fields, Ascii(name), col);
    }
  }

  // ---------------------------------------------------------------- collections

  /** `localeCompare` on a string property of two records. */
  function ById(name: string, col: Collation): (Value, Value) -> bool {
    (x: Value, y: Value) => col(RecordId(x, name)) <= col(RecordId(y, name))
  }

  ghost function TidyAll(items: seq<Value>, col: Collation): seq<Value> {
    seq(|items|, i requires 0 <= i < |items| => Tidy(items[i], col))
  }

  ghost predicate AllPrintable(items: seq<Value>) { forall i :: 0 <= i < |items| ==> Printable(items[i]) }

  lemma {:induction false} InsertTidy(x: Value, s: seq<Value>, name: string, col: Collation)
    requires Printable(x) && AllPrintable(s)
    ensures Insert(Tidy(x, col), TidyAll(s, col), ById(name, col)) == TidyAll(Insert(x, s, ById(name, col)), col)
    ensures AllPrintable(Insert(x, s, ById(name, col)))
  {
    hide Normal, Printable, RecordId;
    if s != [] {
      var leq := ById(name, col);
      RecordIdNormal(x, name, col);
      RecordIdNormal(s[0], name, col);
      assert TidyAll(s, col)[1..] == TidyAll(s[1..], col);
      InsertTidy(x, s[1..], name, col);
      assert TidyAll([s[0]] + Insert(x, s[1..], leq), col) == [Tidy(s[0], col)] + TidyAll(Insert(x, s[1..], leq), col);
      assert TidyAll([x] + s, col) == [Tidy(x, col)] + TidyAll(s, col);
    }
  }

  /** Sorting records by id and tidying them commute. */
  lemma {:induction false} SortTidy(s: seq<Value>, name: string, col: Collation)
    requires AllPrintable(s)
    ensures Sort(TidyAll(s, col), ById(name, col)) == TidyAll(Sort(s, ById(name, col)), col)
    ensures AllPrintable(Sort(s, ById(name, col)))
  {
    hide Normal, Printable;
    if s != [] {
      SortTidy(s[1..], name, col);
      InsertTidy(s[0], Sort(s[1..], ById(name, col)), name, col);
      assert TidyAll(s, col)[1..] == TidyAll(s[1..], col);
    }
  }

  function EventKeys(events: seq<Value>): (keys: seq<(Text, Text)>)
    ensures |keys| == |events|
  {
    seq(|events|, i requires 0 <= i < |events| =>
      (RecordId(events[i], "settlementEventId"), RecordId(events[i], "correctsSettlementEventId")))
  }

  predicate InRange(order: seq<int>, n: nat) { forall i :: 0 <= i < |order| ==> 0 <= order[i] < n }

  function Positions(n: nat): seq<int> { seq(n, i requires 0 <= i < n => i) }

  /** The events by position; an empty target is none. */
  function KeyLinks(keys: seq<(Text, Text)>): Links<Text, int> {
    Links((i: int) => if 0 <= i < |keys| then keys[i].0 else [],
          (i: int) => if 0 <= i < |keys| && keys[i].1 != [] then Some(keys[i].1) else None)
  }

  /** How `orderSettlementEvents` arranges events sorted by id: the positions to take, or nothing where
      it throws. */
  function ByCorrection(keys: seq<(Text, Text)>): (order: Option<seq<int>>)
    ensures order.Some? ==> InRange(order.value, |keys|)
  {
    var ps := Positions(|keys|);
    assert forall p :: p in ps ==> 0 <= p < |keys|;
    Arranged(ps, KeyLinks(keys))
  }

  function Taken(events: seq<Value>, order: seq<int>): seq<Value>
    requires InRange(order, |events|)
  {
    seq(|order|, i requires 0 <= i < |order| => events[order[i]])
  }

  function Ordered(events: seq<Value>, col: Collation): Option<seq<Value>> {
    var sorted := Sort(events, ById("settlementEventId", col));
    match ByCorrection(EventKeys(sorted))
    case Some(order) => Some(Taken(sorted, order))
    case None => None
  }

  lemma KeysTidy(events: seq<Value>, col: Collation)
    requires AllPrintable(events)
    ensures EventKeys(TidyAll(events, col)) == EventKeys(events)
  {
    hide Normal, Printable, RecordId, Ascii;
    forall i | 0 <= i < |events| ensures EventKeys(TidyAll(events, col))[i] == EventKeys(events)[i] {
      RecordIdNormal(events[i], "settlementEventId", col);
      RecordIdNormal(events[i], "correctsSettlementEventId", col);
    }
  }

  lemma OrderedTidy(events: seq<Value>, col: Collation)
    requires AllPrintable(events)
    ensures match Ordered(events, col)
      case Some(es) => AllPrintable(es) && Ordered(TidyAll(events, col), col) == Some(TidyAll(es, col))
      case None => Ordered(TidyAll(events, col), col).None?
  {
    hide Normal, Printable, Sort, EventKeys, ByCorrection, Ascii;
    var sorted := Sort(events, ById("settlementEventId", col));
    SortTidy(events, "settlementEventId", col);
    KeysTidy(sorted, col);
    var order := ByCorrection(EventKeys(sorted));
    if order.Some? {
      assert Taken(TidyAll(sorted, col), order.value) == TidyAll(Taken(sorted, order.value), col);
    }
  }

  // ---------------------------------------------------------------- the payload

  datatype Collections = Collections(drafts: seq<Value>, bets: seq<Value>, accounts: seq<Value>, entries: seq<Value>,
                                     configs: seq<Value>, events: seq<Value>)

  function Items(v: Value, name: string): Option<seq<Value>> {
    var x := Get(v, name);
    if x.Arr? then Some(x.items) else None
  }

  /** The six collections as the backup holds them; `None` when one is not an array. */
  function Held(v: Value): Option<Collections> {
    var drafts, bets, accounts := Items(v, "drafts"), Items(v, "bets"), Items(v, "bankrollAccounts");
    var entries, configs, events := Items(v, "bankrollLedgerEntries"), Items(v, "disciplineConfigs"), Items(v, "settlementEvents");
    if drafts.Some? && bets.Some? && accounts.Some? && entries.Some? && configs.Some? && events.Some?
    then Some(Collections(drafts.value, bets.value, accounts.value, entries.value, configs.value, events.value)) else None
  }

  function InOrder(k: Collections, col: Collation): Option<Collections> {
    match Ordered(k.events, col)
    case None => None
    case Some(events) =>
      Some(Collections(Sort(k.drafts, ById("draftId", col)), Sort(k.bets, ById("betId", col)),
                       Sort(k.accounts, ById("accountId", col)), Sort(k.entries, ById("entryId", col)),
                       Sort(k.configs, ById("ownerProfileId", col)), events))
  }

  predicate Truthy(v: Value) {
    match v
    case Null => false
    case Undefined => false
    case NotFinite => false
    case Bool(b) => b
    case Num(n) => n != 0
    case Str(t) => t != []
    case _ => true
  }

  /** `countsFor`. */
  function Counts(profile: Value, k: Collections): Value {
    Obj([Field(Ascii("ownerProfiles"), Num(if Truthy(profile) then 1 else 0)),
         Field(Ascii("betDrafts"), Num(|k.drafts|)),
         Field(Ascii("bets"), Num(|k.bets|)),
         Field(Ascii("bankrollAccounts"), Num(|k.accounts|)),
         Field(Ascii("bankrollLedgerEntries"), Num(|k.entries|)),
         Field(Ascii("disciplineConfigs"), Num(|k.configs|)),
         Field(Ascii("settlementEvents"), Num(|k.events|))])
  }

  function Header(v: Value): seq<Field> {
    var profile := Get(v, "ownerProfile");
    [Field(Ascii("schemaVersion"), Str(Ascii("miraichi.cloud-backup.v3"))),
     Field(Ascii("exportedAt"), Get(v, "exportedAt")),
     Field(Ascii("ownerProfileId"), Get(v, "ownerProfileId")),
     Field(Ascii("ownerProfile"), if Truthy(profile) then profile else Null)]
  }

  function CollectionFields(v: Value, k: Collections): seq<Field> {
    [Field(Ascii("drafts"), Arr(k.drafts)),
     Field(Ascii("bets"), Arr(k.bets)),
     Field(Ascii("bankrollAccounts"), Arr(k.accounts)),
     Field(Ascii("bankrollLedgerEntries"), Arr(k.entries)),
     Field(Ascii("disciplineConfigs"), Arr(k.configs)),
     Field(Ascii("settlementEvents"), Arr(k.events)),
     Field(Ascii("recordCounts"), Counts(Get(v, "ownerProfile"), k))]
  }

  function Assembled(v: Value, k: Collections): Value { Obj(Header(v) + CollectionFields(v, k)) }

  /** `canonicalCloudBackupV3Payload` before it is printed; `None` is a thrown error. The counts of the
      envelope are not read: they are computed from the collections. */
  function Payload(v: Value, col: Collation): Option<Value> {
    match Held(v)
    case None => None
    case Some(held) =>
      match InOrder(held, col)
      case None => None
      case Some(k) => Some(Assembled(v, k))
  }

  /** A number that tells the names of one object apart. */
  function Mark(t: Text): int { if t == [] then 0 else 0x1_0000 * |t| + t[0] }

  lemma MarkOf(s: string)
    requires s != []
    ensures Mark(Ascii(s)) == 0x1_0000 * |s| + UnitOf(s[0])
  {
    AsciiShape(s);
  }

  lemma Marked(fields: seq<Field>, marks: seq<int>)
    requires |marks| == |fields| && forall i :: 0 <= i < |fields| ==> Mark(fields[i].name) == marks[i]
    requires forall i, j :: 0 <= i < j < |marks| ==> marks[i] != marks[j]
    ensures DistinctNames(fields)
  {
    forall i, j | 0 <= i < j < |fields| ensures fields[i].name != fields[j].name { assert marks[i] != marks[j]; }
  }

  lemma CountsPrintable(profile: Value, k: Collections)
    ensures Printable(Counts(profile, k)) && Counts(profile, k).Obj?
  {
    CountsNames(profile, k);
    hide Ascii, DistinctNames, Truthy;
    ObjPrintable(Counts(profile, k).fields);
  }

  lemma CountsNames(profile: Value, k: Collections)
    ensures DistinctNames(Counts(profile, k).fields)
  {
    hide Ascii, Mark, Truthy;
    MarkOf("ownerProfiles");
    MarkOf("betDrafts");
    MarkOf("bets");
    MarkOf("bankrollAccounts");
    MarkOf("bankrollLedgerEntries");
    MarkOf("disciplineConfigs");
    MarkOf("settlementEvents");
    var n := 0x1_0000;
    Marked(Counts(profile, k).fields, [13 * n + 111, 9 * n + 98, 4 * n + 98, 16 * n + 98, 21 * n + 98, 17 * n + 100, 16 * n + 115]);
  }

  lemma NamesApart(a: seq<Field>, b: seq<Field>)
    requires DistinctNames(a) && DistinctNames(b) && forall x, y :: x in a && y in b ==> x.name != y.name
    ensures DistinctNames(a + b)
  {
    forall i, j | 0 <= i < |a| && 0 <= j < |b| ensures a[i].name != b[j].name { assert a[i] in a && b[j] in b; }
  }

  lemma HeaderNames(v: Value)
    ensures DistinctNames(Header(v))
    ensures forall x :: x in Header(v) ==> Mark(x.name) in {0x1_0000 * 13 + 115, 0x1_0000 * 10 + 101, 0x1_0000 * 14 + 111, 0x1_0000 * 12 + 111}
  {
    hide Ascii, Mark, Get, Truthy;
    MarkOf("schemaVersion");
    MarkOf("exportedAt");
    MarkOf("ownerProfileId");
    MarkOf("ownerProfile");
    var n := 0x1_0000;
    Marked(Header(v), [13 * n + 115, 10 * n + 101, 14 * n + 111, 12 * n + 111]);
  }

  lemma CollectionNames(v: Value, k: Collections)
    ensures DistinctNames(CollectionFields(v, k))
    ensures forall x :: x in CollectionFields(v, k) ==>
      Mark(x.name) in {0x1_0000 * 6 + 100, 0x1_0000 * 4 + 98, 0x1_0000 * 16 + 98, 0x1_0000 * 21 + 98, 0x1_0000 * 17 + 100,
                       0x1_0000 * 16 + 115, 0x1_0000 * 12 + 114}
  {
    hide Ascii, Mark, Get, Counts;
    MarkOf("drafts");
    MarkOf("bets");
    MarkOf("bankrollAccounts");
    MarkOf("bankrollLedgerEntries");
    MarkOf("disciplineConfigs");
    MarkOf("settlementEvents");
    MarkOf("recordCounts");
    var n := 0x1_0000;
    Marked(CollectionFields(v, k), [6 * n + 100, 4 * n + 98, 16 * n + 98, 21 * n + 98, 17 * n + 100, 16 * n + 115, 12 * n + 114]);
  }

  lemma AssembledNames(v: Value, k: Collections)
    ensures DistinctNames(Assembled(v, k).fields)
  {
    hide Header, CollectionFields, Mark, DistinctNames;
    HeaderNames(v);
    CollectionNames(v, k);
    NamesApart(Header(v), CollectionFields(v, k));
  }

  ghost predicate CollectionsPrintable(k: Collections) {
    AllPrintable(k.drafts) && AllPrintable(k.bets) && AllPrintable(k.accounts) && AllPrintable(k.entries) && AllPrintable(k.configs)
    && AllPrintable(k.events)
  }

  lemma ItemsPrintable(v: Value, name: string)
    requires v.Obj? && Printable(v) && Items(v, name).Some?
    ensures AllPrintable(Items(v, name).value)
  {
    GetPrintable(v.fields, Ascii(name));
  }

  lemma HeldPrintable(v: Value)
    requires v.Obj? && Printable(v) && Held(v).Some?
    ensures CollectionsPrintable(Held(v).value)
  {
    hide Get, Ascii, Printable, AllPrintable, Items;
    ItemsPrintable(v, "drafts");
    ItemsPrintable(v, "bets");
    ItemsPrintable(v, "bankrollAccounts");
    ItemsPrintable(v, "bankrollLedgerEntries");
    ItemsPrintable(v, "disciplineConfigs");
    ItemsPrintable(v, "settlementEvents");
  }

  lemma ObjPrintable(fields: seq<Field>)
    requires DistinctNames(fields) && forall i :: 0 <= i < |fields| && IsDefined(fields[i]) ==> Printable(fields[i].value)
    ensures Printable(Obj(fields))
  {
  }

  lemma ArrPrintable(items: seq<Value>)
    requires AllPrintable(items)
    ensures Printable(Arr(items))
  {
    forall x | x in items ensures Printable(x) { var i :| 0 <= i < |items| && items[i] == x; }
  }

  lemma LeavesPrintable(t: Text)
    ensures Printable(Str(t)) && Printable(Null)
  {
  }

  lemma AssembledPrintable(v: Value, k: Collections)
    requires v.Obj? && Printable(v) && CollectionsPrintable(k)
    ensures Printable(Assembled(v, k))
  {
    hide Ascii, Counts, GetIn, Printable, AllPrintable, DistinctNames, Truthy;
    assert v == Obj(v.fields);
    AssembledNames(v, k);
    CountsPrintable(Get(v, "ownerProfile"), k);
    GetPrintable(v.fields, Ascii("exportedAt"));
    GetPrintable(v.fields, Ascii("ownerProfileId"));
    GetPrintable(v.fields, Ascii("ownerProfile"));
    LeavesPrintable(Ascii("miraichi.cloud-backup.v3"));
    ArrPrintable(k.drafts);
    ArrPrintable(k.bets);
    ArrPrintable(k.accounts);
    ArrPrintable(k.entries);
    ArrPrintable(k.configs);
    ArrPrintable(k.events);
    ObjPrintable(Assembled(v, k).fields);
  }

  ghost function TidyCollections(k: Collections, col: Collation): Collections {
    Collections(TidyAll(k.drafts, col), TidyAll(k.bets, col), TidyAll(k.accounts, col), TidyAll(k.entries, col),
                TidyAll(k.configs, col), TidyAll(k.events, col))
  }

  lemma InOrderTidy(k: Collections, col: Collation)
    requires CollectionsPrintable(k)
    ensures match InOrder(k, col)
      case Some(o) => CollectionsPrintable(o) && InOrder(TidyCollections(k, col), col) == Some(TidyCollections(o, col))
      case None => InOrder(TidyCollections(k, col), col).None?
  {
    hide Sort, TidyAll, AllPrintable, Ordered;
    SortTidy(k.drafts, "draftId", col);
    SortTidy(k.bets, "betId", col);
    SortTidy(k.accounts, "accountId", col);
    SortTidy(k.entries, "entryId", col);
    SortTidy(k.configs, "ownerProfileId", col);
    OrderedTidy(k.events, col);
  }

  lemma ItemsNormal(v: Value, name: string, col: Collation)
    requires v.Obj? && Printable(v)
    ensures Items(Normal(v, col), name) == match Items(v, name) case Some(xs) => Some(TidyAll(xs, col)) case None => None
  {
    GetNormal(v.fields, Ascii(name), col);
    GetPrintable(v.fields, Ascii(name));
    var x := Get(v, name);
    if x.Arr? { assert Normal(x, col).items == TidyAll(x.items, col); }
  }

  lemma HeldNormal(v: Value, col: Collation)
    requires v.Obj? && Printable(v)
    ensures Held(Normal(v, col)) == match Held(v) case Some(k) => Some(TidyCollections(k, col)) case None => None
  {
    hide Items, Normal, TidyAll, Ascii;
    ItemsNormal(v, "drafts", col);
    ItemsNormal(v, "bets", col);
    ItemsNormal(v, "bankrollAccounts", col);
    ItemsNormal(v, "bankrollLedgerEntries", col);
    ItemsNormal(v, "disciplineConfigs", col);
    ItemsNormal(v, "settlementEvents", col);
  }

  // ---------------------------------------------------------------- printing depends on the tidied fields

  ghost function TidyFields(fields: seq<Field>, col: Collation): seq<Field> {
    seq(|fields|, i requires 0 <= i < |fields| => Field(fields[i].name, Tidy(fields[i].value, col)))
  }

  lemma {:induction false} InsertFields(x: Field, s: seq<Field>, col: Collation)
    ensures Insert(Field(x.name, Tidy(x.value, col)), TidyFields(s, col), ByName(col)) == TidyFields(Insert(x, s, ByName(col)), col)
  {
    hide Normal, Printable;
    if s != [] {
      assert TidyFields(s, col)[1..] == TidyFields(s[1..], col);
      InsertFields(x, s[1..], col);
      assert TidyFields([s[0]] + Insert(x, s[1..], ByName(col)), col) == [TidyFields(s, col)[0]] + TidyFields(Insert(x, s[1..], ByName(col)), col);
    }
  }

  lemma {:induction false} SortFields(s: seq<Field>, col: Collation)
    ensures Sort(TidyFields(s, col), ByName(col)) == TidyFields(Sort(s, ByName(col)), col)
  {
    hide Normal, Printable;
    if s != [] {
      SortFields(s[1..], col);
      InsertFields(s[0], Sort(s[1..], ByName(col)), col);
      assert TidyFields(s, col)[1..] == TidyFields(s[1..], col);
    }
  }

  lemma TidyDefined(v: Value, col: Collation)
    ensures Tidy(v, col).Undefined? <==> v.Undefined?
  {
    if Printable(v) { NormalMeansSame(v, col); }
  }

  lemma {:induction false} FilterFields(s: seq<Field>, col: Collation)
    ensures Filter(TidyFields(s, col), IsDefined) == TidyFields(Filter(s, IsDefined), col)
  {
    hide Normal, Printable, Filter, Tidy;
    FilterCons(s, IsDefined);
    FilterCons(TidyFields(s, col), IsDefined);
    if s != [] {
      TidyDefined(s[0].value, col);
      FilterFields(s[1..], col);
      assert TidyFields(s, col)[1..] == TidyFields(s[1..], col);
      var rest := Filter(s[1..], IsDefined);
      assert TidyFields([s[0]] + rest, col) == [TidyFields(s, col)[0]] + TidyFields(rest, col);
      assert Filter(s, IsDefined) == if IsDefined(s[0]) then [s[0]] + rest else rest;
    }
  }

  /** The normal form of an object is that of its tidied fields. */
  lemma NormalByFields(fields: seq<Field>, col: Collation)
    requires Printable(Obj(fields))
    ensures Normal(Obj(fields), col).fields == Entries(TidyFields(fields, col), col)
  {
    var es := Entries(fields, col);
    forall i | 0 <= i < |es| ensures Printable(es[i].value) {
      assert es[i] in es;
      FieldPrintable(fields, es[i]);
    }
    FilterFields(fields, col);
    SortFields(Filter(fields, IsDefined), col);
    assert Normal(Obj(fields), col).fields == TidyFields(es, col);
  }

  lemma SameTidyPrint(a: seq<Field>, b: seq<Field>, col: Collation)
    requires Printable(Obj(a)) && Printable(Obj(b)) && TidyFields(a, col) == TidyFields(b, col)
    ensures Normal(Obj(a), col) == Normal(Obj(b), col) && Print(Obj(a), col) == Print(Obj(b), col)
  {
    hide Print;
    NormalByFields(a, col);
    NormalByFields(b, col);
    PrintNormal(Obj(a), col);
    PrintNormal(Obj(b), col);
  }

  lemma TidyTwice(v: Value, col: Collation)
    ensures Tidy(Tidy(v, col), col) == Tidy(v, col) && Truthy(Tidy(v, col)) == Truthy(v)
  {
    if Printable(v) { NormalTwice(v, col); }
  }

  lemma TidyArray(items: seq<Value>, col: Collation)
    requires AllPrintable(items)
    ensures Tidy(Arr(TidyAll(items, col)), col) == Tidy(Arr(items), col)
  {
    forall i | 0 <= i < |items| ensures Printable(Tidy(items[i], col)) && Tidy(Tidy(items[i], col), col) == Tidy(items[i], col) {
      NormalTwice(items[i], col);
    }
    var ts := TidyAll(items, col);
    assert forall x :: x in ts ==> Printable(x);
    assert Normal(Arr(ts), col).items == Normal(Arr(items), col).items;
  }

  lemma TidyConcat(a: seq<Field>, b: seq<Field>, col: Collation)
    ensures TidyFields(a + b, col) == TidyFields(a, col) + TidyFields(b, col)
  {
  }

  lemma HeaderTidy(v: Value, col: Collation)
    requires v.Obj? && Printable(v)
    ensures TidyFields(Header(Normal(v, col)), col) == TidyFields(Header(v), col)
  {
    hide Ascii, Normal, Printable, GetIn, Truthy;
    NormalMeansObject(v, col);
    GetNormal(v.fields, Ascii("exportedAt"), col);
    GetNormal(v.fields, Ascii("ownerProfileId"), col);
    GetNormal(v.fields, Ascii("ownerProfile"), col);
    TidyTwice(Get(v, "exportedAt"), col);
    TidyTwice(Get(v, "ownerProfileId"), col);
    TidyTwice(Get(v, "ownerProfile"), col);
    hide Tidy;
  }

  lemma CollectionsTidy(v: Value, k: Collections, col: Collation)
    requires v.Obj? && Printable(v) && CollectionsPrintable(k)
    ensures TidyFields(CollectionFields(Normal(v, col), TidyCollections(k, col)), col) == TidyFields(CollectionFields(v, k), col)
  {
    hide Ascii, Normal, Printable, AllPrintable, GetIn, Truthy, Tidy;
    NormalMeansObject(v, col);
    GetNormal(v.fields, Ascii("ownerProfile"), col);
    TidyTwice(Get(v, "ownerProfile"), col);
    TidyArray(k.drafts, col);
    TidyArray(k.bets, col);
    TidyArray(k.accounts, col);
    TidyArray(k.entries, col);
    TidyArray(k.configs, col);
    TidyArray(k.events, col);
    assert Counts(Get(Normal(v, col), "ownerProfile"), TidyCollections(k, col)) == Counts(Get(v, "ownerProfile"), k);
  }

  /** Two objects have the same fields, up to tidying. */
  ghost predicate SameTidy(a: Value, b: Value, col: Collation) {
    a.Obj? && b.Obj? && TidyFields(a.fields, col) == TidyFields(b.fields, col)
  }

  lemma AssembledTidy(v: Value, k: Collections, col: Collation)
    requires v.Obj? && Printable(v) && CollectionsPrintable(k)
    ensures SameTidy(Assembled(Normal(v, col), TidyCollections(k, col)), Assembled(v, k), col)
  {
    hide TidyFields, Header, CollectionFields, Normal;
    HeaderTidy(v, col);
    CollectionsTidy(v, k, col);
    TidyConcat(Header(v), CollectionFields(v, k), col);
    TidyConcat(Header(Normal(v, col)), CollectionFields(Normal(v, col), TidyCollections(k, col)), col);
  }

  lemma NormalMeansObject(v: Value, col: Collation)
    requires v.Obj? && Printable(v)
    ensures Normal(v, col) == Obj(Normal(v, col).fields) && v == Obj(v.fields)
  {
  }

  /** Both fail, or both print the same text. */
  ghost predicate PrintAlike(a: Option<Value>, b: Option<Value>, col: Collation) {
    match a
    case None => b.None?
    case Some(x) => b.Some? && Printable(x) && Printable(b.value) && Print(x, col) == Print(b.value, col)
  }

  lemma AssembledPrints(v: Value, k: Collections, col: Collation)
    requires v.Obj? && Printable(v) && CollectionsPrintable(k)
    ensures PrintAlike(Some(Assembled(v, k)), Some(Assembled(Normal(v, col), TidyCollections(k, col))), col)
  {
    hide Ascii, Normal, Printable, Print, TidyFields, TidyCollections, Get, Counts, CollectionsPrintable;
    NormalMeansSame(v, col);
    NormalMeansObject(v, col);
    TidyPrintable(k, col);
    AssembledPrintable(v, k);
    AssembledPrintable(Normal(v, col), TidyCollections(k, col));
    AssembledTidy(v, k, col);
    SameTidyPrint(Assembled(Normal(v, col), TidyCollections(k, col)).fields, Assembled(v, k).fields, col);
  }

  lemma PayloadPrintable(v: Value, col: Collation)
    requires v.Obj? && Printable(v)
    ensures var p := Payload(v, col); p.Some? ==> Printable(p.value)
  {
    hide Held, InOrder, Assembled, Printable, CollectionsPrintable, TidyCollections;
    if Held(v).Some? {
      HeldPrintable(v);
      InOrderTidy(Held(v).value, col);
      var o := InOrder(Held(v).value, col);
      if o.Some? { AssembledPrintable(v, o.value); }
    }
  }

  /** A backup whose settlement events have distinct ids is refused exactly when a correction leads to an
      unknown event or around in a circle. */
  lemma PayloadExistsIff(v: Value, col: Collation)
    requires Held(v).Some?
    requires var keys := EventKeys(Sort(Held(v).value.events, ById("settlementEventId", col)));
      DistinctIds(Positions(|keys|), KeyLinks(keys))
    ensures var keys := EventKeys(Sort(Held(v).value.events, ById("settlementEventId", col)));
      Payload(v, col).Some? <==> Grounded(Positions(|keys|), KeyLinks(keys))
  {
    hide Held, Sort, EventKeys, Grounded, DistinctIds;
    var keys := EventKeys(Sort(Held(v).value.events, ById("settlementEventId", col)));
    ArrangedMeaning(Positions(|keys|), KeyLinks(keys));
  }

  /** The payload of a parsed backup prints like that of the backup, and fails exactly when it does. */
  lemma PayloadNormal(v: Value, col: Collation)
    requires v.Obj? && Printable(v)
    ensures Normal(v, col).Obj? && Printable(Normal(v, col))
    ensures PrintAlike(Payload(v, col), Payload(Normal(v, col), col), col)
  {
    hide Normal, Held, InOrder, TidyCollections, Print, Printable, CollectionsPrintable, TidyFields, Assembled;
    NormalMeansSame(v, col);
    NormalMeansObject(v, col);
    HeldNormal(v, col);
    if Held(v).Some? {
      HeldPrintable(v);
      InOrderTidy(Held(v).value, col);
      var o := InOrder(Held(v).value, col);
      if o.Some? { AssembledPrints(v, o.value, col); }
    }
  }

  lemma TidyPrintable(k: Collections, col: Collation)
    requires CollectionsPrintable(k)
    ensures CollectionsPrintable(TidyCollections(k, col))
  {
    hide Normal, Printable;
    TidyAllPrintable(k.drafts, col);
    TidyAllPrintable(k.bets, col);
    TidyAllPrintable(k.accounts, col);
    TidyAllPrintable(k.entries, col);
    TidyAllPrintable(k.configs, col);
    TidyAllPrintable(k.events, col);
    hide AllPrintable, TidyAll;
  }

  lemma TidyAllPrintable(items: seq<Value>, col: Collation)
    requires AllPrintable(items)
    ensures AllPrintable(TidyAll(items, col))
  {
    forall i | 0 <= i < |items| ensures Printable(Tidy(items[i], col)) { NormalMeansSame(items[i], col); }
  }

  // ---------------------------------------------------------------- what a payload holds

  lemma AssembledSize(v: Value, k: Collections)
    ensures Assembled(v, k) == Obj(Assembled(v, k).fields) && |Assembled(v, k).fields| == 11
  {
    hide Ascii, Counts, Get, Header;
    HeaderSize(v);
  }

  /** Where the collections and their counts stand in a payload. */
  ghost predicate LaidOut(v: Value, k: Collections, p: seq<Field>) {
    && |p| == 11
    && p[4] == Field(Ascii("drafts"), Arr(k.drafts)) && p[5] == Field(Ascii("bets"), Arr(k.bets))
    && p[6] == Field(Ascii("bankrollAccounts"), Arr(k.accounts)) && p[7] == Field(Ascii("bankrollLedgerEntries"), Arr(k.entries))
    && p[8] == Field(Ascii("disciplineConfigs"), Arr(k.configs)) && p[9] == Field(Ascii("settlementEvents"), Arr(k.events))
    && p[10] == Field(Ascii("recordCounts"), Counts(Get(v, "ownerProfile"), k))
  }

  ghost predicate HeaderLaidOut(v: Value, p: seq<Field>) {
    && |p| == 11
    && p[0] == Field(Ascii("schemaVersion"), Str(Ascii("miraichi.cloud-backup.v3")))
    && p[1] == Field(Ascii("exportedAt"), Get(v, "exportedAt")) && p[2] == Field(Ascii("ownerProfileId"), Get(v, "ownerProfileId"))
    && p[3] == Field(Ascii("ownerProfile"), if Truthy(Get(v, "ownerProfile")) then Get(v, "ownerProfile") else Null)
  }

  lemma AssembledHeader(v: Value, k: Collections, p: seq<Field>)
    requires Obj(p) == Assembled(v, k) && |p| == 11
    ensures HeaderLaidOut(v, p)
  {
    hide Ascii, Counts, Get, Truthy;
  }

  lemma AssembledFields(v: Value, k: Collections, p: seq<Field>)
    requires Obj(p) == Assembled(v, k) && |p| == 11
    ensures LaidOut(v, k, p)
  {
    hide Ascii, Counts, Get, Truthy;
  }

  lemma HeaderSize(v: Value)
    ensures |Header(v)| == 4
  {
    hide Ascii, Get, Truthy;
  }

  function RankOf(x: Value, name: string, col: Collation): real { col(RecordId(x, name)) }

  function HasRank(name: string, rank: real, col: Collation): Value -> bool { (x: Value) => RankOf(x, name, col) == rank }

  /** The given records, ascending by their id; records that compare as equal in the given order. */
  ghost predicate PlacedById(given: seq<Value>, placed: seq<Value>, name: string, col: Collation) {
    && multiset(placed) == multiset(given)
    && (forall i, j :: 0 <= i < j < |placed| ==> RankOf(placed[i], name, col) <= RankOf(placed[j], name, col))
    && (forall rank: real :: Filter(placed, HasRank(name, rank, col)) == Filter(given, HasRank(name, rank, col)))
  }

  lemma IdOrder(name: string, col: Collation)
    ensures TotalPreorder(ById(name, col))
  {
    hide RecordId;
  }

  lemma SortPlaces(given: seq<Value>, name: string, col: Collation)
    ensures PlacedById(given, Sort(given, ById(name, col)), name, col)
  {
    hide RecordId, Filter, Sort, TotalPreorder;
    var leq := ById(name, col);
    var placed := Sort(given, leq);
    IdOrder(name, col);
    SortIsSorting(given, leq);
    forall i, j | 0 <= i < j < |placed| ensures RankOf(placed[i], name, col) <= RankOf(placed[j], name, col) { assert leq(placed[i], placed[j]); }
    forall rank: real ensures Filter(placed, HasRank(name, rank, col)) == Filter(given, HasRank(name, rank, col)) {
      FilterSort(given, leq, HasRank(name, rank, col));
      var f := Filter(given, HasRank(name, rank, col));
      forall i, j | 0 <= i < j < |f| ensures leq(f[i], f[j]) { assert f[i] in f && f[j] in f; }
      SortAscending(f, leq);
    }
  }

  ghost predicate DistinctEvents(events: seq<Value>) {
    forall i, j :: 0 <= i < j < |events| ==> RecordId(events[i], "settlementEventId") != RecordId(events[j], "settlementEventId")
  }

  /** The given events, each after the one it corrects. */
  ghost predicate PlacedByCorrection(given: seq<Value>, placed: seq<Value>) {
    && multiset(placed) == multiset(given)
    && forall i :: 0 <= i < |placed| && RecordId(placed[i], "correctsSettlementEventId") != [] ==>
         exists j :: 0 <= j < i && RecordId(placed[j], "settlementEventId") == RecordId(placed[i], "correctsSettlementEventId")
  }

  lemma TakenConcat(s: seq<Value>, a: seq<int>, b: seq<int>)
    requires InRange(a, |s|) && InRange(b, |s|)
    ensures InRange(a + b, |s|) && Taken(s, a + b) == Taken(s, a) + Taken(s, b)
  {
  }

  lemma SplitAt(b: seq<int>, x: int) returns (before: seq<int>, after: seq<int>)
    requires x in multiset(b)
    ensures b == before + ([x] + after) && multiset(before + after) == multiset(b) - multiset{x}
  {
    var k :| 0 <= k < |b| && b[k] == x;
    before, after := b[..k], b[k + 1..];
    assert b == before + ([x] + after);
  }

  /** Taking one position more, wherever it stands, takes one element more. */
  lemma TakenMore(s: seq<Value>, before: seq<int>, x: int, after: seq<int>)
    requires InRange(before + ([x] + after), |s|)
    ensures 0 <= x < |s| && InRange(before + after, |s|)
    ensures multiset(Taken(s, before + ([x] + after))) == multiset(Taken(s, before + after)) + multiset{s[x]}
  {
    RangeParts(before, [x] + after, |s|);
    RangeParts([x], after, |s|);
    assert [x][0] == x;
    TakenConcat(s, before, [x] + after);
    TakenConcat(s, [x], after);
    TakenConcat(s, before, after);
    assert Taken(s, [x]) == [s[x]];
    hide Taken, InRange;
  }

  /** What is taken depends on how often each position is. */
  lemma {:induction false} TakenSame(s: seq<Value>, a: seq<int>, b: seq<int>)
    requires InRange(a, |s|) && InRange(b, |s|) && multiset(a) == multiset(b)
    ensures multiset(Taken(s, a)) == multiset(Taken(s, b))
  {
    hide Taken, InRange;
    if a == [] {
      assert |multiset(b)| == 0;
    } else {
      var x, rest := a[0], a[1..];
      assert a == [] + ([x] + rest) && a == [x] + rest && [] + rest == rest;
      assert x in multiset(a) && multiset(rest) == multiset(a) - multiset{x};
      var before, after := SplitAt(b, x);
      TakenMore(s, [], x, rest);
      TakenMore(s, before, x, after);
      TakenSame(s, rest, before + after);
    }
  }

  lemma RangeParts(a: seq<int>, b: seq<int>, n: nat)
    requires InRange(a + b, n)
    ensures InRange(a, n) && InRange(b, n)
  {
    assert forall i :: 0 <= i < |a| ==> (a + b)[i] == a[i];
    assert forall i :: 0 <= i < |b| ==> (a + b)[|a| + i] == b[i];
  }

  lemma TakenAll(s: seq<Value>)
    ensures InRange(Positions(|s|), |s|) && Taken(s, Positions(|s|)) == s
  {
  }

  lemma OrderedMeaning(events: seq<Value>, col: Collation)
    requires DistinctEvents(events) && Ordered(events, col).Some?
    ensures PlacedByCorrection(events, Ordered(events, col).value)
  {
    hide RecordId, Sort, Arranged, TotalPreorder;
    var sorted := Sort(events, ById("settlementEventId", col));
    IdOrder("settlementEventId", col);
    SortIsSorting(events, ById("settlementEventId", col));
    SortedDistinct(events, col);
    var keys, ps := EventKeys(sorted), Positions(|sorted|);
    assert DistinctIds(ps, KeyLinks(keys));
    ArrangedMeaning(ps, KeyLinks(keys));
    var order := ByCorrection(keys).value;
    TakenAll(sorted);
    TakenSame(sorted, order, ps);
    var placed := Taken(sorted, order);
    forall i | 0 <= i < |placed| && RecordId(placed[i], "correctsSettlementEventId") != []
      ensures exists j :: 0 <= j < i && RecordId(placed[j], "settlementEventId") == RecordId(placed[i], "correctsSettlementEventId")
    {
      assert Listed(order[..i], KeyLinks(keys), keys[order[i]].1);
      var j :| 0 <= j < i && KeyLinks(keys).id(order[..i][j]) == keys[order[i]].1;
      assert placed[j] == sorted[order[j]];
    }
  }

  lemma SortedDistinct(events: seq<Value>, col: Collation)
    requires DistinctEvents(events)
    ensures DistinctEvents(Sort(events, ById("settlementEventId", col)))
  {
    hide RecordId, Sort, TotalPreorder;
    var other := (x: Value, y: Value) => RecordId(x, "settlementEventId") != RecordId(y, "settlementEventId");
    IdOrder("settlementEventId", col);
    assert Ascending(events, other);
    SortPairwise(events, ById("settlementEventId", col), other);
    var s := Sort(events, ById("settlementEventId", col));
    forall i, j | 0 <= i < j < |s| ensures RecordId(s[i], "settlementEventId") != RecordId(s[j], "settlementEventId") { assert other(s[i], s[j]); }
  }

  /** The array a property holds. */
  ghost function ArrayOf(v: Value, name: string): seq<Value> { var x := Get(v, name); if x.Arr? then x.items else [] }

  ghost predicate CountIs(counts: Value, name: string, n: nat) { Get(counts, name) == Num(n) }

  /** Read from the payload: its collections are those of the backup, each in its order. */
  ghost predicate HoldsCollections(v: Value, p: Value, col: Collation) {
    && PlacedById(ArrayOf(v, "drafts"), ArrayOf(p, "drafts"), "draftId", col)
    && PlacedById(ArrayOf(v, "bets"), ArrayOf(p, "bets"), "betId", col)
    && PlacedById(ArrayOf(v, "bankrollAccounts"), ArrayOf(p, "bankrollAccounts"), "accountId", col)
    && PlacedById(ArrayOf(v, "bankrollLedgerEntries"), ArrayOf(p, "bankrollLedgerEntries"), "entryId", col)
    && PlacedById(ArrayOf(v, "disciplineConfigs"), ArrayOf(p, "disciplineConfigs"), "ownerProfileId", col)
    && (DistinctEvents(ArrayOf(v, "settlementEvents")) ==> PlacedByCorrection(ArrayOf(v, "settlementEvents"), ArrayOf(p, "settlementEvents")))
  }

  /** Its header is that of the backup, with a missing profile as null. */
  ghost predicate HoldsHeader(v: Value, p: Value) {
    && Get(p, "schemaVersion") == Str(Ascii("miraichi.cloud-backup.v3"))
    && Get(p, "exportedAt") == Get(v, "exportedAt") && Get(p, "ownerProfileId") == Get(v, "ownerProfileId")
    && Get(p, "ownerProfile") == (if Truthy(Get(v, "ownerProfile")) then Get(v, "ownerProfile") else Null)
  }

  /** Its counts are those of the collections of the backup, whatever counts the backup had. */
  ghost predicate HoldsCounts(v: Value, p: Value) {
    var counts := Get(p, "recordCounts");
    && CountIs(counts, "ownerProfiles", if Truthy(Get(v, "ownerProfile")) then 1 else 0)
    && CountIs(counts, "betDrafts", |ArrayOf(v, "drafts")|) && CountIs(counts, "bets", |ArrayOf(v, "bets")|)
    && CountIs(counts, "bankrollAccounts", |ArrayOf(v, "bankrollAccounts")|)
    && CountIs(counts, "bankrollLedgerEntries", |ArrayOf(v, "bankrollLedgerEntries")|)
    && CountIs(counts, "disciplineConfigs", |ArrayOf(v, "disciplineConfigs")|)
    && (DistinctEvents(ArrayOf(v, "settlementEvents")) ==> CountIs(counts, "settlementEvents", |ArrayOf(v, "settlementEvents")|))
  }

  lemma ReadAt(p: seq<Field>, i: nat, name: string, x: Value)
    requires DistinctNames(p) && i < |p| && p[i] == Field(Ascii(name), x)
    ensures Get(Obj(p), name) == x
  {
    hide Ascii;
    GetAt(p, i);
  }

  lemma ReadCollections(v: Value, k: Collections, p: seq<Field>)
    requires LaidOut(v, k, p) && HeaderLaidOut(v, p) && DistinctNames(p)
    ensures var o := Obj(p);
      && Get(o, "drafts") == Arr(k.drafts) && Get(o, "bets") == Arr(k.bets) && Get(o, "bankrollAccounts") == Arr(k.accounts)
      && Get(o, "bankrollLedgerEntries") == Arr(k.entries) && Get(o, "disciplineConfigs") == Arr(k.configs)
      && Get(o, "settlementEvents") == Arr(k.events) && Get(o, "recordCounts") == Counts(Get(v, "ownerProfile"), k)
      && HoldsHeader(v, o)
  {
    hide Ascii, Counts, DistinctNames, Truthy, GetIn, Get;
    ReadAt(p, 0, "schemaVersion", p[0].value);
    ReadAt(p, 1, "exportedAt", p[1].value);
    ReadAt(p, 2, "ownerProfileId", p[2].value);
    ReadAt(p, 3, "ownerProfile", p[3].value);
    ReadAt(p, 4, "drafts", p[4].value);
    ReadAt(p, 5, "bets", p[5].value);
    ReadAt(p, 6, "bankrollAccounts", p[6].value);
    ReadAt(p, 7, "bankrollLedgerEntries", p[7].value);
    ReadAt(p, 8, "disciplineConfigs", p[8].value);
    ReadAt(p, 9, "settlementEvents", p[9].value);
    ReadAt(p, 10, "recordCounts", p[10].value);
  }

  lemma ReadCounts(profile: Value, k: Collections)
    ensures var counts := Counts(profile, k);
      && CountIs(counts, "ownerProfiles", if Truthy(profile) then 1 else 0) && CountIs(counts, "betDrafts", |k.drafts|)
      && CountIs(counts, "bets", |k.bets|) && CountIs(counts, "bankrollAccounts", |k.accounts|)
      && CountIs(counts, "bankrollLedgerEntries", |k.entries|) && CountIs(counts, "disciplineConfigs", |k.configs|)
      && CountIs(counts, "settlementEvents", |k.events|)
  {
    hide Ascii, DistinctNames, Truthy, GetIn, Get;
    CountsNames(profile, k);
    var f := Counts(profile, k).fields;
    assert Counts(profile, k) == Obj(f);
    ReadAt(f, 0, "ownerProfiles", f[0].value);
    ReadAt(f, 1, "betDrafts", f[1].value);
    ReadAt(f, 2, "bets", f[2].value);
    ReadAt(f, 3, "bankrollAccounts", f[3].value);
    ReadAt(f, 4, "bankrollLedgerEntries", f[4].value);
    ReadAt(f, 5, "disciplineConfigs", f[5].value);
    ReadAt(f, 6, "settlementEvents", f[6].value);
  }

  lemma HeldArrays(v: Value)
    requires Held(v).Some?
    ensures var k := Held(v).value;
      && k.drafts == ArrayOf(v, "drafts") && k.bets == ArrayOf(v, "bets") && k.accounts == ArrayOf(v, "bankrollAccounts")
      && k.entries == ArrayOf(v, "bankrollLedgerEntries") && k.configs == ArrayOf(v, "disciplineConfigs")
      && k.events == ArrayOf(v, "settlementEvents")
  {
    hide Get;
  }

  lemma InOrderPlaces(k: Collections, col: Collation)
    requires InOrder(k, col).Some?
    ensures var o := InOrder(k, col).value;
      && PlacedById(k.drafts, o.drafts, "draftId", col) && PlacedById(k.bets, o.bets, "betId", col)
      && PlacedById(k.accounts, o.accounts, "accountId", col) && PlacedById(k.entries, o.entries, "entryId", col)
      && PlacedById(k.configs, o.configs, "ownerProfileId", col)
      && (DistinctEvents(k.events) ==> PlacedByCorrection(k.events, o.events))
  {
    hide Sort, PlacedById, PlacedByCorrection, DistinctEvents, Ordered;
    SortPlaces(k.drafts, "draftId", col);
    SortPlaces(k.bets, "betId", col);
    SortPlaces(k.accounts, "accountId", col);
    SortPlaces(k.entries, "entryId", col);
    SortPlaces(k.configs, "ownerProfileId", col);
    if DistinctEvents(k.events) { OrderedMeaning(k.events, col); }
  }

  lemma SameLength(a: seq<Value>, b: seq<Value>)
    requires multiset(a) == multiset(b)
    ensures |a| == |b|
  {
    assert |a| == |multiset(a)|;
    assert |b| == |multiset(b)|;
  }

  /** What the canonical payload of a backup holds, read from it by name: every collection of the backup in
      ascending order of its own id, the settlement events each after the one it corrects, the header, and
      the counts of what is there. */
  lemma PayloadMeaning(v: Value, col: Collation)
    requires Payload(v, col).Some?
    ensures var p := Payload(v, col).value; HoldsCollections(v, p, col) && HoldsHeader(v, p) && HoldsCounts(v, p)
  {
    hide Ascii, Get, Truthy, PlacedById, PlacedByCorrection, DistinctEvents, Held, InOrder, Assembled, DistinctNames, LaidOut, HeaderLaidOut,
      Counts, HoldsHeader, CountIs;
    var k := Held(v).value;
    var o := InOrder(k, col).value;
    HeldArrays(v);
    InOrderPlaces(k, col);
    AssembledSize(v, o);
    var fields := Assembled(v, o).fields;
    AssembledNames(v, o);
    AssembledFields(v, o, fields);
    AssembledHeader(v, o, fields);
    ReadCollections(v, o, fields);
    ReadCounts(Get(v, "ownerProfile"), o);
    PlacedSizes(k, o, col);
  }

  lemma PlacedSizes(k: Collections, o: Collections, col: Collation)
    requires PlacedById(k.drafts, o.drafts, "draftId", col) && PlacedById(k.bets, o.bets, "betId", col)
      && PlacedById(k.accounts, o.accounts, "accountId", col) && PlacedById(k.entries, o.entries, "entryId", col)
      && PlacedById(k.configs, o.configs, "ownerProfileId", col)
    ensures |k.drafts| == |o.drafts| && |k.bets| == |o.bets| && |k.accounts| == |o.accounts| && |k.entries| == |o.entries|
      && |k.configs| == |o.configs|
    ensures PlacedByCorrection(k.events, o.events) ==> |k.events| == |o.events|
  {
    SameLength(k.drafts, o.drafts);
    SameLength(k.bets, o.bets);
    SameLength(k.accounts, o.accounts);
    SameLength(k.entries, o.entries);
    SameLength(k.configs, o.configs);
    if PlacedByCorrection(k.events, o.events) { SameLength(k.events, o.events); }
  }
}
