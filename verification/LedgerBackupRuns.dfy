/** Backups of an adapter that was operated from empty: whatever was done to it, earlier imports
    included, exporting, importing into an empty adapter and exporting again gives the same data. */
module LedgerBackupRuns {
  import opened Options
  import opened StableSort
  import opened Ledger
  import opened LedgerBackup
  import LedgerRuns
  import JsMap

  datatype Operation =
    | Book(op: LedgerRuns.Operation)
    | SaveDraft(owner: string, draft: Draft)
    | DeleteDraft(owner: string, id: string)
    | SaveConfig(config: Config)
    | ImportData(owner: string, envelope: Envelope)

  function Do(s: Store, op: Operation, r: Rules): Store {
    match op
    case Book(op) => s.(books := LedgerRuns.Do(s.books, op))
    case SaveDraft(owner, draft) => s.(drafts := JsMap.Set(s.drafts, Key(owner, draft.draftId), draft))
    case DeleteDraft(owner, id) => s.(drafts := JsMap.Remove(s.drafts, Key(owner, id)))
    case SaveConfig(config) => s.(configs := JsMap.Set(s.configs, config.owner, WithMonday(config)))
    case ImportData(owner, envelope) =>
      var i := Import(s, owner, envelope, r);
      if i.Imported? then i.store else s
  }

  function DoAll(s: Store, ops: seq<Operation>, r: Rules): Store {
    if ops == [] then s else Do(DoAll(s, ops[..|ops| - 1], r), ops[|ops| - 1], r)
  }

  /** A new adapter, possibly told the profile of its owner. */
  function New(profile: Option<Profile>): Store {
    Nothing().(profiles := if profile.Some? then [JsMap.Entry(profile.value.owner, profile.value)] else [])
  }

  /** Setting a value under its own id keeps a table sound. */
  lemma SetSound<V>(m: Table<V>, k: Key, v: V, id: V -> string)
    requires TableSound(m, id) && k.id == id(v)
    ensures TableSound(JsMap.Set(m, k, v), id)
  {
    JsMap.SetLookup(m, k, v);
    if JsMap.Has(m, k) {
      var i := JsMap.LookupIndex(m, k);
      JsMap.SetAt(m, k, v, i);
    } else {
      JsMap.SetFresh(m, k, v);
    }
  }

  /** A value found under a key has the id of the key. */
  lemma FoundSound<V>(m: Table<V>, k: Key, id: V -> string)
    requires TableSound(m, id) && JsMap.Has(m, k)
    ensures id(JsMap.Lookup(m, k).value) == k.id
  {
    var i := JsMap.LookupIndex(m, k);
  }

  ghost predicate BooksSound(b: Books) {
    && TableSound(b.bets, BetId) && TableSound(b.accounts, AccountId) && TableSound(b.ledger, EntryId) && TableSound(b.events, EventId)
  }

  lemma EntrySound(b: Books, e: EntryInput, now: int)
    requires BooksSound(b)
    ensures BooksSound(CreateEntry(b, e, now).0)
  {
    hide TableSound, JsMap.Set, JsMap.Lookup, JsMap.Has;
    var r := CreateEntry(b, e, now).1;
    if r.Done? {
      FoundSound(b.accounts, EntryAccount(e), AccountId);
      SetSound(b.ledger, Key(e.owner, e.entryId), Entry(e, now), EntryId);
      SetSound(b.accounts, EntryAccount(e), Credited(JsMap.Lookup(b.accounts, EntryAccount(e)).value, e.amount, now), AccountId);
    }
  }

  lemma TransferSound(b: Books, t: Transfer, now: int)
    requires BooksSound(b)
    ensures BooksSound(CreateTransfer(b, t, now).0)
  {
    hide TableSound, JsMap.Set, JsMap.Lookup, JsMap.Has, OutId, InId;
    var r := CreateTransfer(b, t, now).1;
    if r.Done? {
      var from, to := Key(t.owner, t.from), Key(t.owner, t.to);
      FoundSound(b.accounts, from, AccountId);
      FoundSound(b.accounts, to, AccountId);
      SetSound(b.accounts, from, r.value.0, AccountId);
      SetSound(JsMap.Set(b.accounts, from, r.value.0), to, r.value.1, AccountId);
      var out := Key(t.owner, OutId(t.transferId));
      SetSound(b.ledger, out, Entry(OutEntry(t), now), EntryId);
      SetSound(JsMap.Set(b.ledger, out, Entry(OutEntry(t), now)), Key(t.owner, InId(t.transferId)), Entry(InEntry(t), now), EntryId);
    }
  }

  lemma SettlementSound(b: Books, s: Settlement, now: int)
    requires BooksSound(b)
    ensures BooksSound(ApplySettlement(b, s, now).0)
  {
    hide TableSound, JsMap.Set, JsMap.Lookup, JsMap.Has;
    if ApplySettlement(b, s, now).0 != b {
      var r := ApplySettlement(b, s, now).1.value;
      FoundSound(b.accounts, SettledAccount(s), AccountId);
      SetSound(b.accounts, SettledAccount(s), r.account, AccountId);
      SetSound(b.ledger, Key(s.entry.owner, s.entry.entryId), r.entry, EntryId);
      SetSound(b.bets, Key(s.record.owner, s.record.betId), s.record, BetId);
      SetSound(b.events, Key(s.event.owner, s.event.eventId), s.event, EventId);
    }
  }

  lemma BookSound(b: Books, op: LedgerRuns.Operation)
    requires BooksSound(b)
    ensures BooksSound(LedgerRuns.Do(b, op))
  {
    hide TableSound, JsMap.Set, JsMap.Lookup, JsMap.Has, CreateEntry, CreateTransfer, ApplySettlement;
    match op
    case OpenAccount(owner, id, title, opening, now) =>
      SetSound(b.accounts, Key(owner, id), Account(owner, id, title, opening, opening, false, now, now), AccountId);
    case Record(e, now) => EntrySound(b, e, now);
    case Move(t, now) => TransferSound(b, t, now);
    case Settle(s, now) => SettlementSound(b, s, now);
    case PlaceBet(bet) => SetSound(b.bets, Key(bet.owner, bet.betId), bet, BetId);
    case ChangeBet(bet) => SetSound(b.bets, Key(bet.owner, bet.betId), bet, BetId);
    case ChangeAccount(owner, id, title, archived, now) =>
      var (n, r) := UpdateAccount(b, owner, id, title, archived, now);
      if r.Done? {
        FoundSound(b.accounts, Key(owner, id), AccountId);
        SetSound(b.accounts, Key(owner, id), r.value, AccountId);
      }
  }

  lemma {:induction false} PutSound<V>(m: Table<V>, owner: string, vs: seq<V>, id: V -> string)
    requires TableSound(m, id)
    ensures TableSound(PutAll(m, owner, vs, id), id)
  {
    if vs != [] {
      PutSound(m, owner, vs[..|vs| - 1], id);
      SetSound(PutAll(m, owner, vs[..|vs| - 1], id), Key(owner, id(vs[|vs| - 1])), vs[|vs| - 1], id);
    }
  }

  lemma RemoveSound<V>(m: Table<V>, k: Key, id: V -> string)
    requires TableSound(m, id)
    ensures TableSound(JsMap.Remove(m, k), id)
  {
    JsMap.RemoveLookup(m, k);
    var n := JsMap.Remove(m, k);
    forall i | 0 <= i < |n| ensures n[i].key.id == id(n[i].value) {
      JsMap.RemoveIn(m, k, n[i]);
      var j :| 0 <= j < |m| && m[j] == n[i];
    }
  }

  ghost predicate ConfigsSound(m: JsMap.JsMap<string, Config>) {
    JsMap.UniqueKeys(m) && forall i :: 0 <= i < |m| ==> m[i].value.weekStartDay.Some?
  }

  lemma ConfigSound(m: JsMap.JsMap<string, Config>, owner: string, c: Config)
    requires ConfigsSound(m)
    ensures ConfigsSound(JsMap.Set(m, owner, WithMonday(c)))
  {
    JsMap.SetLookup(m, owner, WithMonday(c));
    if JsMap.Has(m, owner) {
      var i := JsMap.LookupIndex(m, owner);
      JsMap.SetAt(m, owner, WithMonday(c), i);
    } else {
      JsMap.SetFresh(m, owner, WithMonday(c));
    }
  }

  lemma {:induction false} PutConfigsSound(m: JsMap.JsMap<string, Config>, owner: string, cs: seq<Config>)
    requires ConfigsSound(m)
    ensures ConfigsSound(PutConfigs(m, owner, cs))
  {
    hide ConfigsSound;
    if cs != [] {
      PutConfigsSound(m, owner, cs[..|cs| - 1]);
      ConfigSound(PutConfigs(m, owner, cs[..|cs| - 1]), owner, cs[|cs| - 1]);
    }
  }

  lemma StoreParts(s: Store)
    ensures StoreSound(s) <==> TableSound(s.drafts, DraftId) && BooksSound(s.books) && ConfigsSound(s.configs) && JsMap.UniqueKeys(s.profiles)
  {
    hide TableSound, JsMap.UniqueKeys;
  }

  /** An import of any version keeps the store sound, also one that names another owner inside. */
  lemma ImportSound(s: Store, owner: string, e: Envelope, r: Rules)
    requires StoreSound(s)
    ensures var i := Import(s, owner, e, r); i.Imported? ==> StoreSound(i.store)
  {
    hide StoreSound, TableSound, ConfigsSound, JsMap.UniqueKeys, PutAll, PutConfigs, Verified, Duplicates, JsMap.Set;
    StoreParts(s);
    var d := e.data;
    PutSound(s.drafts, owner, d.drafts, DraftId);
    PutSound(s.books.bets, owner, d.bets, BetId);
    PutSound(s.books.accounts, owner, d.accounts, AccountId);
    PutSound(s.books.ledger, owner, d.entries, EntryId);
    PutSound(s.books.events, owner, d.events, EventId);
    PutConfigsSound(s.configs, owner, d.configs);
    if d.profile.Some? { JsMap.SetLookup(s.profiles, owner, d.profile.value); }
    var i := Import(s, owner, e, r);
    if i.Imported? { StoreParts(i.store); }
  }

  lemma DoSound(s: Store, op: Operation, r: Rules)
    requires StoreSound(s)
    ensures StoreSound(Do(s, op, r))
  {
    hide StoreSound, TableSound, ConfigsSound, BooksSound, JsMap.UniqueKeys, JsMap.Set, JsMap.Remove, Import, WithMonday, LedgerRuns.Do;
    StoreParts(s);
    StoreParts(Do(s, op, r));
    match op
    case Book(op) => BookSound(s.books, op);
    case SaveDraft(owner, draft) => SetSound(s.drafts, Key(owner, draft.draftId), draft, DraftId);
    case DeleteDraft(owner, id) => RemoveSound(s.drafts, Key(owner, id), DraftId);
    case SaveConfig(config) => ConfigSound(s.configs, config.owner, config);
    case ImportData(owner, envelope) => ImportSound(s, owner, envelope, r);
  }

  lemma {:induction false} EveryRunSound(profile: Option<Profile>, ops: seq<Operation>, r: Rules)
    ensures StoreSound(DoAll(New(profile), ops, r))
  {
    hide StoreSound;
    if ops == [] {
      NewSound(profile);
    } else {
      EveryRunSound(profile, ops[..|ops| - 1], r);
      DoSound(DoAll(New(profile), ops[..|ops| - 1], r), ops[|ops| - 1], r);
    }
  }

  lemma NewSound(profile: Option<Profile>)
    ensures StoreSound(New(profile))
  {
  }

  /** In every run: what is exported can be imported into an empty adapter, and exporting that one
      gives the same envelope. */
  lemma BackupOfEveryRun(profile: Option<Profile>, ops: seq<Operation>, owner: string, exportedAt: int, again: int, r: Rules)
    requires Lawful(r) && Export(DoAll(New(profile), ops, r), owner, exportedAt, r).Some?
    ensures var e := Export(DoAll(New(profile), ops, r), owner, exportedAt, r).value;
      var i := Import(Nothing(), owner, e, r);
      && i.Imported?
      && Normalized(Collected(i.store, owner, again), r) == Some(e.data.(exportedAt := again))
      && (again == exportedAt ==> Export(i.store, owner, again, r) == Some(e))
  {
    hide StoreSound, Lawful, Import, Normalized, Collected;
    EveryRunSound(profile, ops, r);
    BackupRoundTrip(DoAll(New(profile), ops, r), owner, exportedAt, again, r);
  }
}
