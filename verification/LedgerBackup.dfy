/** Export of an owner's data into a backup envelope and import of it. `Rules` holds what stays
    abstract: the order of ids (`localeCompare`) and the seal: the boundary check with the payload
    hash. */
module LedgerBackup {
  import opened Options
  import opened StableSort
  import opened Ledger
  import opened CorrectionChains
  import JsMap

  datatype Draft = Draft(draftId: string, content: string)
  datatype Config = Config(owner: string, weekStartDay: Option<string>, content: string)
  datatype Profile = Profile(owner: string, title: string, settings: string, createdAt: int, updatedAt: int)

  datatype Store = Store(books: Books, drafts: Table<Draft>, configs: JsMap.JsMap<string, Config>, profiles: JsMap.JsMap<string, Profile>)

  datatype Data = Data(exportedAt: int, owner: string, profile: Option<Profile>, drafts: seq<Draft>, bets: seq<Bet>,
                       accounts: seq<Account>, entries: seq<Entry>, configs: seq<Config>, events: seq<SettlementEvent>)

  datatype Version = V1 | V2 | V3

  datatype Envelope = Envelope(version: Version, data: Data, hash: string)

  datatype Rules = Rules(leq: (string, string) -> bool, seal: Data -> Option<string>)

  ghost predicate Lawful(r: Rules) {
    TotalPreorder(r.leq) && forall a, b :: r.leq(a, b) && r.leq(b, a) ==> a == b
  }

  function DraftId(d: Draft): string { d.draftId }
  function BetId(b: Bet): string { b.betId }
  function AccountId(a: Account): string { a.accountId }
  function EntryId(e: Entry): string { e.input.entryId }
  function EventId(e: SettlementEvent): string { e.eventId }
  function ConfigId(c: Config): string { c.owner }

  function ById<V>(id: V -> string, leq: (string, string) -> bool): (V, V) -> bool { (x, y) => leq(id(x), id(y)) }

  function OfOwner<V>(owner: string): JsMap.Entry<Key, V> -> bool { (e: JsMap.Entry<Key, V>) => e.key.owner == owner }

  /** The values stored for one owner, in insertion order. */
  function Owned<V(!new)>(m: Table<V>, owner: string): seq<V> { JsMap.Values(Filter(m, OfOwner(owner))) }

  /** An empty target is none. */
  function Correction(e: SettlementEvent): Option<string> { if e.corrects == Some("") then None else e.corrects }

  function EventLinks(): Links<string, SettlementEvent> { Links(EventId, Correction) }

  function EventsInOrder(events: seq<SettlementEvent>, r: Rules): Option<seq<SettlementEvent>> {
    Arranged(Sort(events, ById(EventId, r.leq)), EventLinks())
  }

  /** The collections by id, and each settlement event after the one it corrects; `None` is the error of
      a correction that leads to an unknown event or around in a circle. */
  function Normalized(d: Data, r: Rules): Option<Data> {
    match EventsInOrder(d.events, r)
    case None => None
    case Some(events) => Some(SortedData(d, r).(events := events))
  }

  function SortedData(d: Data, r: Rules): Data {
    d.(drafts := Sort(d.drafts, ById(DraftId, r.leq)), bets := Sort(d.bets, ById(BetId, r.leq)),
       accounts := Sort(d.accounts, ById(AccountId, r.leq)), entries := Sort(d.entries, ById(EntryId, r.leq)),
       configs := Sort(d.configs, ById(ConfigId, r.leq)))
  }

  function ConfigsOf(s: Store, owner: string): seq<Config> {
    match JsMap.Lookup(s.configs, owner) case Some(c) => [c] case None => []
  }

  function Durable(d: Data): bool {
    |d.drafts| + |d.bets| + |d.accounts| + |d.entries| + |d.configs| + |d.events| > 0
  }

  predicate UniqueIds<V>(vs: seq<V>, id: V -> string) { forall i, j :: 0 <= i < j < |vs| ==> id(vs[i]) != id(vs[j]) }

  /** The part of the boundary check that is about ids. */
  predicate DistinctRecords(d: Data) {
    && UniqueIds(d.drafts, DraftId) && UniqueIds(d.bets, BetId) && UniqueIds(d.accounts, AccountId)
    && UniqueIds(d.entries, EntryId) && UniqueIds(d.configs, ConfigId) && UniqueIds(d.events, EventId)
  }

  function Collected(s: Store, owner: string, exportedAt: int): Data {
    var d := Data(exportedAt, owner, None, Owned(s.drafts, owner), Owned(s.books.bets, owner), Owned(s.books.accounts, owner),
                  Owned(s.books.ledger, owner), ConfigsOf(s, owner), Owned(s.books.events, owner));
    var stored := JsMap.Lookup(s.profiles, owner);
    d.(profile := if stored.Some? then stored
                  else if Durable(d) then Some(Profile(owner, owner, "{}", exportedAt, exportedAt)) else None)
  }

  /** `None` is the error of the boundary check. */
  function Export(s: Store, owner: string, exportedAt: int, r: Rules): Option<Envelope> {
    var c := Collected(s, owner, exportedAt);
    var d := if DistinctRecords(c) then Normalized(c, r) else None;
    if d.None? || r.seal(d.value).None? then None else Some(Envelope(V3, d.value, r.seal(d.value).value))
  }

  /** The collections of `d` are those of one owner, each record as often as it is stored. */
  ghost predicate OfOneOwner(d: Data, s: Store, owner: string) {
    && multiset(d.drafts) == multiset(Owned(s.drafts, owner)) && multiset(d.bets) == multiset(Owned(s.books.bets, owner))
    && multiset(d.accounts) == multiset(Owned(s.books.accounts, owner)) && multiset(d.entries) == multiset(Owned(s.books.ledger, owner))
    && multiset(d.events) == multiset(Owned(s.books.events, owner)) && multiset(d.configs) == multiset(ConfigsOf(s, owner))
  }

  predicate Verified(e: Envelope, r: Rules) {
    DistinctRecords(e.data) && Normalized(e.data, r) == Some(e.data) && r.seal(e.data) == Some(e.hash)
  }

  function PutAll<V>(m: Table<V>, owner: string, vs: seq<V>, id: V -> string): Table<V> {
    if vs == [] then m
    else JsMap.Set(PutAll(m, owner, vs[..|vs| - 1], id), Key(owner, id(vs[|vs| - 1])), vs[|vs| - 1])
  }

  predicate Clash<V>(m: Table<V>, owner: string, vs: seq<V>, id: V -> string) {
    exists i :: 0 <= i < |vs| && JsMap.Has(m, Key(owner, id(vs[i])))
  }

  function WithMonday(c: Config): Config { c.(weekStartDay := if c.weekStartDay.Some? then c.weekStartDay else Some("monday")) }

  function PutConfigs(m: JsMap.JsMap<string, Config>, owner: string, cs: seq<Config>): JsMap.JsMap<string, Config> {
    if cs == [] then m else JsMap.Set(PutConfigs(m, owner, cs[..|cs| - 1]), owner, WithMonday(cs[|cs| - 1]))
  }

  datatype ImportResult = OwnerMismatch | HashMismatch | DuplicateIdentities | Imported(store: Store)

  predicate Duplicates(s: Store, owner: string, e: Envelope) {
    || Clash(s.drafts, owner, e.data.drafts, DraftId) || Clash(s.books.bets, owner, e.data.bets, BetId)
    || Clash(s.books.accounts, owner, e.data.accounts, AccountId) || Clash(s.books.ledger, owner, e.data.entries, EntryId)
    || (!e.version.V1? && ((e.data.configs != [] && JsMap.Has(s.configs, owner)) || Clash(s.books.events, owner, e.data.events, EventId)))
  }

  function Import(s: Store, owner: string, e: Envelope, r: Rules): ImportResult {
    if e.data.owner != owner then OwnerMismatch
    else if e.version.V3? && !Verified(e, r) then HashMismatch
    else if Duplicates(s, owner, e) then DuplicateIdentities
    else
      var d := e.data;
      Imported(Store(Books(PutAll(s.books.accounts, owner, d.accounts, AccountId), PutAll(s.books.ledger, owner, d.entries, EntryId),
                           PutAll(s.books.bets, owner, d.bets, BetId),
                           if e.version.V1? then s.books.events else PutAll(s.books.events, owner, d.events, EventId)),
                     PutAll(s.drafts, owner, d.drafts, DraftId),
                     if e.version.V1? then s.configs else PutConfigs(s.configs, owner, d.configs),
                     if e.version.V3? && d.profile.Some? then JsMap.Set(s.profiles, owner, d.profile.value) else s.profiles))
  }

  /** No later record has the same id. */
  ghost predicate LastOfId<V>(vs: seq<V>, i: nat, id: V -> string) requires i < |vs| {
    forall j :: i < j < |vs| ==> id(vs[j]) != id(vs[i])
  }

  /** The table holds the records under the owner, the last of each id, and is otherwise as before. */
  ghost predicate Added<V>(before: Table<V>, after: Table<V>, owner: string, vs: seq<V>, id: V -> string) {
    && (forall i :: 0 <= i < |vs| && LastOfId(vs, i, id) ==>
          JsMap.Lookup(after, Key(owner, id(vs[i]))) == Some(vs[i]))
    && (forall k: Key :: (k.owner != owner || forall i :: 0 <= i < |vs| ==> id(vs[i]) != k.id) ==> JsMap.Lookup(after, k) == JsMap.Lookup(before, k))
  }

  lemma {:induction false} PutAdds<V>(m: Table<V>, owner: string, vs: seq<V>, id: V -> string)
    ensures Added(m, PutAll(m, owner, vs, id), owner, vs, id)
  {
    hide JsMap.Set, JsMap.Lookup, Added;
    if vs == [] {
      AddsNothing(m, owner, id);
    } else {
      var init, last := vs[..|vs| - 1], vs[|vs| - 1];
      PutAdds(m, owner, init, id);
      AddsOne(m, PutAll(m, owner, init, id), owner, init, last, id);
      assert vs == init + [last];
    }
  }

  lemma AddsNothing<V>(m: Table<V>, owner: string, id: V -> string)
    ensures Added(m, m, owner, [], id)
  {
  }

  lemma AddsOne<V>(m: Table<V>, mid: Table<V>, owner: string, init: seq<V>, last: V, id: V -> string)
    requires Added(m, mid, owner, init, id)
    ensures Added(m, JsMap.Set(mid, Key(owner, id(last)), last), owner, init + [last], id)
  {
    hide JsMap.Set, JsMap.Lookup, LastOfId;
    var vs, after := init + [last], JsMap.Set(mid, Key(owner, id(last)), last);
    assert vs[|init|] == last && forall i :: 0 <= i < |init| ==> vs[i] == init[i];
    forall k: Key ensures JsMap.Lookup(after, k) == if k == Key(owner, id(last)) then Some(last) else JsMap.Lookup(mid, k) {
      JsMap.SetFound(mid, Key(owner, id(last)), last, k);
    }
    forall i | 0 <= i < |vs| && LastOfId(vs, i, id) ensures JsMap.Lookup(after, Key(owner, id(vs[i]))) == Some(vs[i]) {
      if i < |init| { LastBefore(init, last, i, id); }
    }
  }

  lemma LastBefore<V>(init: seq<V>, last: V, i: nat, id: V -> string)
    requires i < |init| && LastOfId(init + [last], i, id)
    ensures LastOfId(init, i, id) && id(last) != id(init[i])
  {
    var vs := init + [last];
    assert vs[|init|] == last && vs[i] == init[i];
    assert forall j :: i < j < |init| ==> vs[j] == init[j];
  }

  /** No record of the backup is stored for the owner yet. */
  ghost predicate AllNew<V>(m: Table<V>, owner: string, vs: seq<V>, id: V -> string) {
    forall i :: 0 <= i < |vs| ==> JsMap.Lookup(m, Key(owner, id(vs[i]))).None?
  }

  /** Every collection was added; a backup of the first version holds no events and configs, and only one of
      the third brings a profile. */
  ghost predicate Brought(s: Store, n: Store, owner: string, e: Envelope) {
    && Added(s.drafts, n.drafts, owner, e.data.drafts, DraftId) && Added(s.books.bets, n.books.bets, owner, e.data.bets, BetId)
    && Added(s.books.accounts, n.books.accounts, owner, e.data.accounts, AccountId)
    && Added(s.books.ledger, n.books.ledger, owner, e.data.entries, EntryId)
    && (if e.version.V1? then n.books.events == s.books.events && n.configs == s.configs
        else Added(s.books.events, n.books.events, owner, e.data.events, EventId)
             && (e.data.configs == [] ==> n.configs == s.configs)
             && (e.data.configs != [] ==>
                   var c := e.data.configs[|e.data.configs| - 1];
                   JsMap.Lookup(n.configs, owner) == Some(c.(weekStartDay := if c.weekStartDay.Some? then c.weekStartDay else Some("monday"))))
             && forall o :: o != owner ==> JsMap.Lookup(n.configs, o) == JsMap.Lookup(s.configs, o))
    && (forall o :: JsMap.Lookup(n.profiles, o) ==
          if o == owner && e.version.V3? && e.data.profile.Some? then e.data.profile else JsMap.Lookup(s.profiles, o))
  }

  lemma {:induction false} ConfigsPut(m: JsMap.JsMap<string, Config>, owner: string, cs: seq<Config>, o: string)
    ensures JsMap.Lookup(PutConfigs(m, owner, cs), o) == if o == owner && cs != [] then Some(WithMonday(cs[|cs| - 1])) else JsMap.Lookup(m, o)
  {
    hide JsMap.Set, JsMap.Lookup;
    if cs != [] {
      ConfigsPut(m, owner, cs[..|cs| - 1], o);
      JsMap.SetFound(PutConfigs(m, owner, cs[..|cs| - 1]), owner, WithMonday(cs[|cs| - 1]), o);
    }
  }

  lemma ImportBrings(s: Store, owner: string, e: Envelope, r: Rules)
    ensures var i := Import(s, owner, e, r);
      && (i.OwnerMismatch? <==> e.data.owner != owner)
      && (i.HashMismatch? <==> e.data.owner == owner && e.version.V3? && !Verified(e, r))
      && (i.Imported? <==>
            && e.data.owner == owner && (e.version.V3? ==> Verified(e, r))
            && AllNew(s.drafts, owner, e.data.drafts, DraftId) && AllNew(s.books.bets, owner, e.data.bets, BetId)
            && AllNew(s.books.accounts, owner, e.data.accounts, AccountId) && AllNew(s.books.ledger, owner, e.data.entries, EntryId)
            && (!e.version.V1? ==> AllNew(s.books.events, owner, e.data.events, EventId)
                                   && (e.data.configs != [] ==> JsMap.Lookup(s.configs, owner).None?)))
      && (i.Imported? ==> Brought(s, i.store, owner, e))
  {
    hide JsMap.Set, JsMap.Lookup, JsMap.Has, PutAll, Verified, Added;
    var d := e.data;
    PutAdds(s.drafts, owner, d.drafts, DraftId);
    PutAdds(s.books.bets, owner, d.bets, BetId);
    PutAdds(s.books.accounts, owner, d.accounts, AccountId);
    PutAdds(s.books.ledger, owner, d.entries, EntryId);
    PutAdds(s.books.events, owner, d.events, EventId);
    forall o ensures JsMap.Lookup(PutConfigs(s.configs, owner, d.configs), o)
      == if o == owner && d.configs != [] then Some(WithMonday(d.configs[|d.configs| - 1])) else JsMap.Lookup(s.configs, o)
    {
      ConfigsPut(s.configs, owner, d.configs, o);
    }
    if d.profile.Some? {
      forall o ensures JsMap.Lookup(JsMap.Set(s.profiles, owner, d.profile.value), o)
        == if o == owner then Some(d.profile.value) else JsMap.Lookup(s.profiles, o)
      {
        JsMap.SetFound(s.profiles, owner, d.profile.value, o);
      }
    }
  }

  /** The `forEach` of the import over one collection. */
  method PutEach<V>(m: Table<V>, owner: string, vs: seq<V>, id: V -> string) returns (result: Table<V>)
    ensures result == PutAll(m, owner, vs, id)
  {
    result := m;
    for i := 0 to |vs|
      invariant result == PutAll(m, owner, vs[..i], id)
    {
      assert vs[..i + 1][..i] == vs[..i];
      result := JsMap.Set(result, Key(owner, id(vs[i])), vs[i]);
    }
    assert vs[..|vs|] == vs;
  }

  method PutEachConfig(m: JsMap.JsMap<string, Config>, owner: string, cs: seq<Config>) returns (result: JsMap.JsMap<string, Config>)
    ensures result == PutConfigs(m, owner, cs)
  {
    result := m;
    for i := 0 to |cs|
      invariant result == PutConfigs(m, owner, cs[..i])
    {
      assert cs[..i + 1][..i] == cs[..i];
      result := JsMap.Set(result, owner, WithMonday(cs[i]));
    }
    assert cs[..|cs|] == cs;
  }

  class BackupAdapter {
    var books: Books
    var drafts: Table<Draft>
    var configs: JsMap.JsMap<string, Config>
    var profiles: JsMap.JsMap<string, Profile>

    function Now(): Store reads this { Store(books, drafts, configs, profiles) }

    constructor ()
      ensures Now() == Nothing()
    {
      books, drafts, configs, profiles := Books([], [], [], []), [], [], [];
    }

    /** What an export holds is said by `Exported`; a sound store is refused when a chain of corrections
        does not end. */
    method ExportOwnerData(owner: string, exportedAt: int, r: Rules) returns (e: Option<Envelope>)
      ensures e.Some? && Lawful(r) ==> Exported(Now(), owner, exportedAt, e.value, r)
      ensures Lawful(r) && StoreSound(Now()) && !Grounded(Owned(books.events, owner), EventLinks()) ==> e.None?
      ensures e == Export(Now(), owner, exportedAt, r)
    {
      hide Lawful, Exported, StoreSound, Owned, Sort, Normalized, DistinctRecords, Grounded;
      if Lawful(r) && Export(Now(), owner, exportedAt, r).Some? { ExportMeaning(Now(), owner, exportedAt, r); }
      if Lawful(r) && StoreSound(Now()) { ExportRefusedIff(Now(), owner, exportedAt, r); }
      var ownerDrafts, ownerBets := Owned(drafts, owner), Owned(books.bets, owner);
      var ownerAccounts, ownerLedger, ownerEvents := Owned(books.accounts, owner), Owned(books.ledger, owner), Owned(books.events, owner);
      var ownerConfigs := ConfigsOf(Now(), owner);
      var hasDurableData := |ownerDrafts| + |ownerBets| + |ownerAccounts| + |ownerLedger| + |ownerConfigs| + |ownerEvents| > 0;
      var profile := JsMap.Lookup(profiles, owner);
      if profile.None? && hasDurableData { profile := Some(Profile(owner, owner, "{}", exportedAt, exportedAt)); }
      var d := Data(exportedAt, owner, profile, ownerDrafts, ownerBets, ownerAccounts, ownerLedger, ownerConfigs, ownerEvents);
      if !DistinctRecords(d) { return None; }
      var normalized := Normalized(d, r);
      if normalized.None? { return None; }
      var hash := r.seal(normalized.value);
      return if hash.None? then None else Some(Envelope(V3, normalized.value, hash.value));
    }

    /** A refused import changes nothing. */
    method ImportOwnerData(owner: string, e: Envelope, r: Rules) returns (result: ImportResult)
      modifies this
      ensures result.OwnerMismatch? <==> e.data.owner != owner
      ensures result.HashMismatch? <==> e.data.owner == owner && e.version.V3? && !Verified(e, r)
      ensures result.Imported? ==> Brought(old(Now()), Now(), owner, e)
      ensures !result.Imported? ==> Now() == old(Now())
      ensures result == Import(old(Now()), owner, e, r)
      ensures Now() == if result.Imported? then result.store else old(Now())
    {
      hide PutAll, PutConfigs, Verified, Duplicates, Brought, AllNew;
      ImportBrings(Now(), owner, e, r);
      if e.data.owner != owner { return OwnerMismatch; }
      if e.version.V3? && !Verified(e, r) { return HashMismatch; }
      if Duplicates(Now(), owner, e) { return DuplicateIdentities; }
      var d := e.data;
      if e.version.V3? && d.profile.Some? { profiles := JsMap.Set(profiles, owner, d.profile.value); }
      drafts := PutEach(drafts, owner, d.drafts, DraftId);
      var bets := PutEach(books.bets, owner, d.bets, BetId);
      var accounts := PutEach(books.accounts, owner, d.accounts, AccountId);
      var ledger := PutEach(books.ledger, owner, d.entries, EntryId);
      var events := books.events;
      if !e.version.V1? {
        configs := PutEachConfig(configs, owner, d.configs);
        events := PutEach(events, owner, d.events, EventId);
      }
      books := Books(accounts, ledger, bets, events);
      return Imported(Now());
    }
  }

  // ---------------------------------------------------------------- round trip

  ghost predicate TableSound<V>(m: Table<V>, id: V -> string) {
    JsMap.UniqueKeys(m) && forall i :: 0 <= i < |m| ==> m[i].key.id == id(m[i].value)
  }

  ghost predicate StoreSound(s: Store) {
    && TableSound(s.drafts, DraftId) && TableSound(s.books.bets, BetId) && TableSound(s.books.accounts, AccountId)
    && TableSound(s.books.ledger, EntryId) && TableSound(s.books.events, EventId)
    && JsMap.UniqueKeys(s.configs) && JsMap.UniqueKeys(s.profiles)
    && (forall i :: 0 <= i < |s.configs| ==> s.configs[i].value.weekStartDay.Some?)
  }

  function OtherId<V>(id: V -> string): (V, V) -> bool { (x, y) => id(x) != id(y) }

  function OtherKey<V>(a: JsMap.Entry<Key, V>, b: JsMap.Entry<Key, V>): bool { a.key != b.key }

  lemma OwnedDistinct<V(!new)>(m: Table<V>, owner: string, id: V -> string)
    requires TableSound(m, id)
    ensures Ascending(Owned(m, owner), OtherId(id))
  {
    var f := Filter(m, OfOwner(owner));
    assert Ascending(m, OtherKey);
    FilterAscending(m, OtherKey, OfOwner(owner));
    forall i | 0 <= i < |f| ensures f[i].key == Key(owner, id(f[i].value)) {
      assert f[i] in m && OfOwner(owner)(f[i]);
      var k :| 0 <= k < |m| && m[k] == f[i];
    }
    forall i, j | 0 <= i < j < |f| ensures id(f[i].value) != id(f[j].value) { assert OtherKey(f[i], f[j]); }
  }

  function Keyed<V>(owner: string, vs: seq<V>, id: V -> string): Table<V> {
    seq(|vs|, i requires 0 <= i < |vs| => JsMap.Entry(Key(owner, id(vs[i])), vs[i]))
  }

  /** Values with distinct ids go into an empty table in order, and come out in order. */
  lemma {:induction false} PutDistinct<V(!new)>(owner: string, vs: seq<V>, id: V -> string)
    requires Ascending(vs, OtherId(id))
    ensures PutAll([], owner, vs, id) == Keyed(owner, vs, id)
  {
    if vs != [] {
      var init, last := vs[..|vs| - 1], vs[|vs| - 1];
      PutDistinct(owner, init, id);
      var m := Keyed(owner, init, id);
      forall i | 0 <= i < |m| ensures m[i].key != Key(owner, id(last)) { assert OtherId(id)(vs[i], last); }
      JsMap.SetFresh(m, Key(owner, id(last)), last);
    }
  }

  lemma OwnedBack<V(!new)>(owner: string, vs: seq<V>, id: V -> string)
    requires Ascending(vs, OtherId(id))
    ensures Owned(PutAll([], owner, vs, id), owner) == vs
  {
    PutDistinct(owner, vs, id);
    var m := Keyed(owner, vs, id);
    FilterAll(m, OfOwner(owner));
    assert JsMap.Values(m) == vs;
  }

  lemma IdOrder<V(!new)>(id: V -> string, r: Rules)
    requires Lawful(r)
    ensures TotalPreorder(ById(id, r.leq))
  {
  }

  /** Sorting values with distinct ids: in order, still distinct, and dependent on the set only. */
  lemma SortedDistinct<V(!new)>(vs: seq<V>, id: V -> string, r: Rules)
    requires Lawful(r) && Ascending(vs, OtherId(id))
    ensures var s := Sort(vs, ById(id, r.leq));
      Ascending(s, OtherId(id)) && Sort(s, ById(id, r.leq)) == s
  {
    IdOrder(id, r);
    hide Lawful;
    SortIsSorting(vs, ById(id, r.leq));
    SortPairwise(vs, ById(id, r.leq), OtherId(id));
    SortAscending(Sort(vs, ById(id, r.leq)), ById(id, r.leq));
  }

  lemma Shuffled<V(!new)>(a: seq<V>, b: seq<V>, id: V -> string)
    requires multiset(a) == multiset(b) && Ascending(a, OtherId(id))
    ensures Ascending(b, OtherId(id)) && NoDuplicates(a) && NoDuplicates(b) && forall x :: x in a <==> x in b
  {
    forall i, j | 0 <= i < j < |a| ensures a[i] != a[j] { assert OtherId(id)(a[i], a[j]); }
    forall x ensures x in a <==> x in b { assert x in multiset(a) <==> x in multiset(b); }
    NoDuplicatesCount(a);
    forall i, j | 0 <= i < j < |b| ensures b[i] != b[j] {
      assert b == b[..j] + [b[j]] + b[j + 1..];
      assert multiset(b)[b[j]] <= 1;
      assert b[i] == b[..j][i];
    }
    forall i, j | 0 <= i < j < |b| ensures OtherId(id)(b[i], b[j]) {
      assert b[i] in a && b[j] in a;
      var p :| 0 <= p < |a| && a[p] == b[i];
      var q :| 0 <= q < |a| && a[q] == b[j];
      assert p != q;
      assert if p < q then OtherId(id)(a[p], a[q]) else OtherId(id)(a[q], a[p]);
    }
  }

  lemma {:induction false} NoDuplicatesCount<V(!new)>(s: seq<V>)
    requires NoDuplicates(s)
    ensures forall x :: multiset(s)[x] <= 1
  {
    if s != [] {
      NoDuplicatesCount(s[1..]);
      assert s == [s[0]] + s[1..];
      assert s[0] !in s[1..];
    }
  }

  lemma EventOrder(vs: seq<SettlementEvent>, r: Rules)
    requires Lawful(r) && Ascending(vs, OtherId(EventId))
    ensures var leq := ById(EventId, r.leq); TotalPreorder(leq) && NoDuplicates(vs) && Separates(leq, vs)
    ensures DistinctIds(vs, EventLinks())
  {
    var leq := ById(EventId, r.leq);
    IdOrder(EventId, r);
    forall i, j | 0 <= i < j < |vs| ensures EventId(vs[i]) != EventId(vs[j]) { assert OtherId(EventId)(vs[i], vs[j]); }
    forall x, y | x in vs && y in vs && leq(x, y) && leq(y, x) ensures x == y {
      assert EventId(x) == EventId(y);
      var i :| 0 <= i < |vs| && vs[i] == x;
      var j :| 0 <= j < |vs| && vs[j] == y;
    }
  }

  /** The order of settlement events with distinct ids: it exists exactly when every chain of corrections
      ends, holds the same events, and ordering it again changes nothing. */
  lemma EventsArranged(vs: seq<SettlementEvent>, r: Rules)
    requires Lawful(r) && Ascending(vs, OtherId(EventId))
    ensures EventsInOrder(vs, r).Some? <==> Grounded(vs, EventLinks())
    ensures EventsInOrder(vs, r).Some? ==>
      var o := EventsInOrder(vs, r).value;
      multiset(o) == multiset(vs) && Ascending(o, OtherId(EventId)) && EventsInOrder(o, r) == Some(o)
  {
    hide Arranged, Grounded, Sort, TotalPreorder, Lawful, DistinctIds, NoDuplicates, Separates;
    var leq := ById(EventId, r.leq);
    EventOrder(vs, r);
    SortIsSorting(vs, leq);
    var sorted := Sort(vs, leq);
    Shuffled(vs, sorted, EventId);
    EventOrder(sorted, r);
    SameGrounded(vs, sorted, EventLinks());
    ArrangedMeaning(sorted, EventLinks());
    if Arranged(sorted, EventLinks()).Some? {
      var o := Arranged(sorted, EventLinks()).value;
      Shuffled(vs, o, EventId);
      SortDistinct(vs, o, leq);
    }
  }

  lemma DistinctIsUnique<V(!new)>(vs: seq<V>, id: V -> string)
    ensures Ascending(vs, OtherId(id)) <==> UniqueIds(vs, id)
  {
    if Ascending(vs, OtherId(id)) {
      forall i, j | 0 <= i < j < |vs| ensures id(vs[i]) != id(vs[j]) { assert OtherId(id)(vs[i], vs[j]); }
    }
  }

  lemma OneTable<V(!new)>(m: Table<V>, owner: string, id: V -> string, r: Rules)
    requires Lawful(r) && TableSound(m, id)
    ensures var vs := Sort(Owned(m, owner), ById(id, r.leq));
      var n := PutAll([], owner, vs, id);
      Owned(n, owner) == vs && Sort(vs, ById(id, r.leq)) == vs && UniqueIds(vs, id) && UniqueIds(Owned(m, owner), id)
  {
    hide Lawful;
    OwnedDistinct(m, owner, id);
    SortedDistinct(Owned(m, owner), id, r);
    OwnedBack(owner, Sort(Owned(m, owner), ById(id, r.leq)), id);
    DistinctIsUnique(Owned(m, owner), id);
    DistinctIsUnique(Sort(Owned(m, owner), ById(id, r.leq)), id);
  }

  function Nothing(): Store { Store(Books([], [], [], []), [], [], []) }

  lemma ConfigsBack(s: Store, owner: string, r: Rules)
    requires StoreSound(s)
    ensures var cs := ConfigsOf(s, owner);
      && Sort(cs, ById(ConfigId, r.leq)) == cs
      && (match JsMap.Lookup(PutConfigs([], owner, cs), owner) case Some(c) => cs == [c] case None => cs == [])
  {
    var cs := ConfigsOf(s, owner);
    if JsMap.Has(s.configs, owner) {
      var i := JsMap.LookupIndex(s.configs, owner);
      assert cs == [s.configs[i].value] && cs[..0] == [];
      assert PutConfigs([], owner, cs) == [JsMap.Entry(owner, cs[0])];
    }
  }

  /** Every collection of a store, after export into a normalized envelope and back. */
  ghost predicate ComesBack(s: Store, owner: string, d: Data, r: Rules) {
    && Normalized(d, r) == Some(d) && DistinctRecords(d)
    && Owned(PutAll([], owner, d.drafts, DraftId), owner) == d.drafts
    && Owned(PutAll([], owner, d.bets, BetId), owner) == d.bets
    && Owned(PutAll([], owner, d.accounts, AccountId), owner) == d.accounts
    && Owned(PutAll([], owner, d.entries, EntryId), owner) == d.entries
    && Owned(PutAll([], owner, d.events, EventId), owner) == d.events
    && d.configs == ConfigsOf(s, owner)
  }

  lemma CollectionsBack(s: Store, owner: string, at: int, r: Rules)
    requires Lawful(r) && StoreSound(s)
    ensures var c := Collected(s, owner, at);
      && DistinctRecords(c)
      && (Normalized(c, r).Some? <==> Grounded(Owned(s.books.events, owner), EventLinks()))
      && (Normalized(c, r).Some? ==> ComesBack(s, owner, Normalized(c, r).value, r))
  {
    var events := Owned(s.books.events, owner);
    OneTable(s.drafts, owner, DraftId, r);
    OneTable(s.books.bets, owner, BetId, r);
    OneTable(s.books.accounts, owner, AccountId, r);
    OneTable(s.books.ledger, owner, EntryId, r);
    OwnedDistinct(s.books.events, owner, EventId);
    DistinctIsUnique(events, EventId);
    EventsArranged(events, r);
    ConfigsBack(s, owner, r);
    if EventsInOrder(events, r).Some? {
      OwnedBack(owner, EventsInOrder(events, r).value, EventId);
      DistinctIsUnique(EventsInOrder(events, r).value, EventId);
    }
    hide Lawful, Owned, PutAll, Sort, StoreSound, UniqueIds, EventsInOrder, Grounded;
  }

  lemma SortKeeps<V(!new)>(vs: seq<V>, id: V -> string, r: Rules)
    requires Lawful(r)
    ensures multiset(Sort(vs, ById(id, r.leq))) == multiset(vs)
  {
    IdOrder(id, r);
    SortIsSorting(vs, ById(id, r.leq));
  }

  /** Normalizing reorders collections and changes nothing else. */
  lemma NormalizedKeeps(s: Store, owner: string, at: int, r: Rules)
    requires Lawful(r) && DistinctRecords(Collected(s, owner, at)) && Normalized(Collected(s, owner, at), r).Some?
    ensures OfOneOwner(Normalized(Collected(s, owner, at), r).value, s, owner)
  {
    hide Lawful, Owned, Sort, UniqueIds, EventsInOrder, Grounded;
    var c := Collected(s, owner, at);
    DistinctIsUnique(c.events, EventId);
    EventsArranged(c.events, r);
    SortKeeps(c.drafts, DraftId, r);
    SortKeeps(c.bets, BetId, r);
    SortKeeps(c.accounts, AccountId, r);
    SortKeeps(c.entries, EntryId, r);
    SortKeeps(c.configs, ConfigId, r);
  }

  lemma SameSize<V>(a: seq<V>, b: seq<V>)
    requires multiset(a) == multiset(b)
    ensures |a| == |b|
  {
    assert |a| == |multiset(a)|;
    assert |b| == |multiset(b)|;
  }

  lemma DurableSame(s: Store, owner: string, at: int, r: Rules)
    requires Lawful(r) && DistinctRecords(Collected(s, owner, at)) && Normalized(Collected(s, owner, at), r).Some?
    ensures var d := Normalized(Collected(s, owner, at), r).value;
      Durable(d) == Durable(Collected(s, owner, at).(profile := None))
  {
    hide Lawful, Owned, Sort, Normalized, DistinctRecords;
    NormalizedKeeps(s, owner, at, r);
    var c, d := Collected(s, owner, at), Normalized(Collected(s, owner, at), r).value;
    SameSize(c.drafts, d.drafts);
    SameSize(c.bets, d.bets);
    SameSize(c.accounts, d.accounts);
    SameSize(c.entries, d.entries);
    SameSize(c.configs, d.configs);
    SameSize(c.events, d.events);
  }

  /** An export holds each record of its owner as often as it is stored and no record of another owner,
      each settlement event after the one it corrects, and the stored profile or, where there is data, a
      default one. From a sound store it can be imported into an empty adapter, whose export is the same
      envelope. */
  ghost predicate Exported(s: Store, owner: string, at: int, e: Envelope, r: Rules) {
    && e.version.V3? && e.data.owner == owner && e.data.exportedAt == at && r.seal(e.data) == Some(e.hash)
    && OfOneOwner(e.data, s, owner)
    && (forall i :: 0 <= i < |e.data.events| && Correction(e.data.events[i]).Some? ==>
          Listed(e.data.events[..i], EventLinks(), Correction(e.data.events[i]).value))
    && (if JsMap.Has(s.profiles, owner) then e.data.profile == JsMap.Lookup(s.profiles, owner)
        else e.data.profile.Some? <==> Durable(e.data))
    && (StoreSound(s) ==>
          var i := Import(Nothing(), owner, e, r); i.Imported? && Export(i.store, owner, at, r) == Some(e))
  }

  lemma ExportMeaning(s: Store, owner: string, at: int, r: Rules)
    requires Lawful(r) && Export(s, owner, at, r).Some?
    ensures Exported(s, owner, at, Export(s, owner, at, r).value, r)
  {
    hide Lawful, OfOneOwner, StoreSound, Import, Owned, Sort, DistinctRecords, EventsInOrder;
    NormalizedKeeps(s, owner, at, r);
    DurableSame(s, owner, at, r);
    CorrectedFirst(s, owner, at, r);
    if StoreSound(s) { BackupRoundTrip(s, owner, at, at, r); }
  }

  lemma CorrectedFirst(s: Store, owner: string, at: int, r: Rules)
    requires Lawful(r) && Export(s, owner, at, r).Some?
    ensures var es := Export(s, owner, at, r).value.data.events;
      forall i :: 0 <= i < |es| && Correction(es[i]).Some? ==> Listed(es[..i], EventLinks(), Correction(es[i]).value)
  {
    hide Lawful, Owned, Sort, Arranged, Grounded;
    var events := Collected(s, owner, at).events;
    DistinctIsUnique(events, EventId);
    EventsDistinct(events, r);
    ArrangedMeaning(Sort(events, ById(EventId, r.leq)), EventLinks());
  }

  lemma EventsDistinct(vs: seq<SettlementEvent>, r: Rules)
    requires Lawful(r) && Ascending(vs, OtherId(EventId))
    ensures DistinctIds(Sort(vs, ById(EventId, r.leq)), EventLinks())
  {
    hide Sort, Lawful;
    EventOrder(vs, r);
    SortIsSorting(vs, ById(EventId, r.leq));
    Shuffled(vs, Sort(vs, ById(EventId, r.leq)), EventId);
    EventOrder(Sort(vs, ById(EventId, r.leq)), r);
  }

  lemma ImportsEmpty(owner: string, e: Envelope, r: Rules)
    requires e.data.owner == owner && e.version.V3? && Verified(e, r)
    ensures var d := e.data;
      Import(Nothing(), owner, e, r) == Imported(
        Store(Books(PutAll([], owner, d.accounts, AccountId), PutAll([], owner, d.entries, EntryId), PutAll([], owner, d.bets, BetId),
                    PutAll([], owner, d.events, EventId)),
              PutAll([], owner, d.drafts, DraftId), PutConfigs([], owner, d.configs),
              if d.profile.Some? then [JsMap.Entry(owner, d.profile.value)] else []))
  {
    hide PutAll, PutConfigs, Normalized;
  }

  /** Exporting, importing into an empty adapter and exporting again gives the same data, and the
      import is not refused. */
  lemma BackupRoundTrip(s: Store, owner: string, exportedAt: int, again: int, r: Rules)
    requires Lawful(r) && StoreSound(s) && Export(s, owner, exportedAt, r).Some?
    ensures var e := Export(s, owner, exportedAt, r).value;
      var i := Import(Nothing(), owner, e, r);
      && i.Imported?
      && Normalized(Collected(i.store, owner, again), r) == Some(e.data.(exportedAt := again))
      && (again == exportedAt ==> Export(i.store, owner, again, r) == Some(e))
  {
    hide Lawful, Owned, PutAll, PutConfigs, Sort, StoreSound, Durable, Import, DistinctRecords, EventsInOrder, Grounded;
    CollectionsBack(s, owner, exportedAt, r);
    ConfigsBack(s, owner, r);
    DurableSame(s, owner, exportedAt, r);
    var e := Export(s, owner, exportedAt, r).value;
    ImportsEmpty(owner, e, r);
    var i := Import(Nothing(), owner, e, r);
    var d := Collected(i.store, owner, again);
    assert d.configs == e.data.configs;
    assert d.(profile := None) == e.data.(exportedAt := again, profile := None);
    DurableDates(d.(profile := None), e.data);
    assert d == e.data.(exportedAt := again);
    NormalizedDates(e.data, again, r);
  }

  lemma DurableDates(a: Data, b: Data)
    requires a.(profile := None) == b.(exportedAt := a.exportedAt, profile := None)
    ensures Durable(a) == Durable(b)
  {
  }

  lemma NormalizedDates(d: Data, at: int, r: Rules)
    ensures Normalized(d, r) == Some(d) ==> Normalized(d.(exportedAt := at), r) == Some(d.(exportedAt := at))
    ensures DistinctRecords(d.(exportedAt := at)) == DistinctRecords(d)
  {
  }

  /** A settlement that corrects an event the owner does not have, which applying it does not check, blocks
      every backup of the owner. */
  lemma UnknownCorrectionRefuses(s: Store, owner: string, at: int, e: SettlementEvent, r: Rules)
    requires Lawful(r) && StoreSound(s) && e in Owned(s.books.events, owner) && Correction(e).Some?
    requires forall o :: o in Owned(s.books.events, owner) ==> o.eventId != Correction(e).value
    ensures Export(s, owner, at, r).None?
  {
    hide Lawful, Owned, StoreSound, Export;
    var events := Owned(s.books.events, owner);
    ExportRefusedIff(s, owner, at, r);
    forall n: nat ensures !Ends(events, EventLinks(), e, n) {}
    assert !HasEnd(events, EventLinks(), e);
  }

  /** The backup of a sound store is refused exactly when a settlement event of the owner leads back to an
      unknown event or around in a circle, or the rest of the boundary check refuses. */
  lemma ExportRefusedIff(s: Store, owner: string, at: int, r: Rules)
    requires Lawful(r) && StoreSound(s)
    ensures Export(s, owner, at, r).None? <==>
      || !Grounded(Owned(s.books.events, owner), EventLinks())
      || (Normalized(Collected(s, owner, at), r).Some? && r.seal(Normalized(Collected(s, owner, at), r).value).None?)
  {
    hide Lawful, Owned, StoreSound, DistinctRecords, Grounded, Normalized, ComesBack;
    CollectionsBack(s, owner, at, r);
  }
}
