/** The adapter's bankroll methods in the form the adapter has them, and every run of them. */
module LedgerRuns {
  import opened Options
  import opened Ledger
  import JsMap

  class CloudAdapter {
    var accounts: Table<Account>
    var ledger: Table<Entry>
    var bets: Table<Bet>
    var events: Table<SettlementEvent>

    function Now(): Books reads this { Books(accounts, ledger, bets, events) }

    constructor ()
      ensures Now() == Books([], [], [], [])
    {
      accounts, ledger, bets, events := [], [], [], [];
    }

    method CreateBankrollAccount(owner: string, id: string, title: string, opening: int, now: int) returns (r: Result<Account>)
      modifies this`accounts
      ensures r.Done? <==> 0 < opening && JsMap.Lookup(old(accounts), Key(owner, id)).None?
      ensures r.Done? ==> r.value == Account(owner, id, title, opening, opening, false, now, now)
                          && Only(old(accounts), accounts, Key(owner, id), r.value)
      ensures r == Rejected(OpeningNotPositive) ==> opening <= 0
      ensures r.Rejected? ==> accounts == old(accounts)
      ensures (Now(), r) == CreateAccount(old(Now()), owner, id, title, opening, now)
    {
      if opening <= 0 { return Rejected(OpeningNotPositive); }
      if JsMap.Has(accounts, Key(owner, id)) { return Rejected(DuplicateAccount); }
      SetOnly(accounts, Key(owner, id), Account(owner, id, title, opening, opening, false, now, now));
      var created := Account(owner, id, title, opening, opening, false, now, now);
      accounts := JsMap.Set(accounts, Key(owner, id), created);
      return Done(created);
    }

    method CreateBankrollLedgerEntry(e: EntryInput, now: int) returns (r: Result<Entry>)
      modifies this`accounts, this`ledger
      ensures r.Done? <==> Bookable(old(accounts), old(ledger), e)
      ensures r.Done? ==> r.value == Entry(e, now) && Only(old(ledger), ledger, Key(e.owner, e.entryId), r.value)
                          && Booked(old(accounts), accounts, Key(e.owner, e.accountId), e.amount, now)
      ensures r == Rejected(AmountInvalid) ==> e.amount == 0
      ensures r == Rejected(DuplicateEntry) ==> JsMap.Has(old(ledger), Key(e.owner, e.entryId))
      ensures r == Rejected(AccountNotFound) ==> JsMap.Lookup(old(accounts), Key(e.owner, e.accountId)).None?
      ensures r == Rejected(InsufficientBalance) ==>
        e.entryType == Withdrawal
        && var a := JsMap.Lookup(old(accounts), Key(e.owner, e.accountId)); a.Some? && a.value.balance < -e.amount
      ensures r.Rejected? ==> accounts == old(accounts) && ledger == old(ledger)
      ensures (Now(), r) == CreateEntry(old(Now()), e, now)
    {
      if (e.entryType.Deposit? && e.amount <= 0) || (e.entryType.Withdrawal? && e.amount >= 0) { return Rejected(SignInvalid); }
      if e.amount == 0 { return Rejected(AmountInvalid); }
      if JsMap.Has(ledger, Key(e.owner, e.entryId)) { return Rejected(DuplicateEntry); }
      var found := JsMap.Lookup(accounts, Key(e.owner, e.accountId));
      if found.None? { return Rejected(AccountNotFound); }
      var account := found.value;
      if account.archived { return Rejected(AccountArchived); }
      if e.entryType.Withdrawal? && account.balance + e.amount < 0 { return Rejected(InsufficientBalance); }
      SetOnly(ledger, Key(e.owner, e.entryId), Entry(e, now));
      SetOnly(accounts, Key(e.owner, e.accountId), account.(balance := account.balance + e.amount, updatedAt := now));
      ledger := JsMap.Set(ledger, Key(e.owner, e.entryId), Entry(e, now));
      accounts := JsMap.Set(accounts, Key(e.owner, e.accountId), account.(balance := account.balance + e.amount, updatedAt := now));
      return Done(Entry(e, now));
    }

    method CreateBankrollTransfer(t: Transfer, now: int) returns (r: Result<(Account, Account)>)
      modifies this`accounts, this`ledger
      ensures r.Done? <==> Movable(old(accounts), old(ledger), t)
      ensures r.Done? ==> Moved(old(accounts), accounts, old(ledger), ledger, t, now)
      ensures r.Done? ==> JsMap.Lookup(accounts, Key(t.owner, t.from)) == Some(r.value.0)
                          && JsMap.Lookup(accounts, Key(t.owner, t.to)) == Some(r.value.1)
      ensures r.Rejected? ==> accounts == old(accounts) && ledger == old(ledger)
      ensures (Now(), r) == CreateTransfer(old(Now()), t, now)
    {
      hide Moved, Movable, JsMap.Set, JsMap.Lookup, JsMap.Has;
      TransferMeaning(Now(), t, now);
      if t.amount <= 0 || t.from == t.to { return Rejected(TransferInvalid); }
      var fromKey, toKey := Key(t.owner, t.from), Key(t.owner, t.to);
      var from, to := JsMap.Lookup(accounts, fromKey), JsMap.Lookup(accounts, toKey);
      if from.None? || to.None? { return Rejected(AccountNotFound); }
      if from.value.archived || to.value.archived { return Rejected(AccountArchived); }
      if from.value.balance < t.amount { return Rejected(InsufficientBalance); }
      var outKey, inKey := Key(t.owner, OutId(t.transferId)), Key(t.owner, InId(t.transferId));
      if JsMap.Has(ledger, outKey) || JsMap.Has(ledger, inKey) { return Rejected(DuplicateTransfer); }
      var debited := from.value.(balance := from.value.balance - t.amount, updatedAt := now);
      var credited := to.value.(balance := to.value.balance + t.amount, updatedAt := now);
      ledger := JsMap.Set(ledger, outKey, Entry(OutEntry(t), now));
      ledger := JsMap.Set(ledger, inKey, Entry(InEntry(t), now));
      accounts := JsMap.Set(accounts, fromKey, debited);
      accounts := JsMap.Set(accounts, toKey, credited);
      return Done((debited, credited));
    }

    method ApplyBetSettlement(s: Settlement, now: int) returns (r: Result<Settled>)
      modifies this
      ensures r.Done? <==> Settleable(old(Now()), s) || Replayable(old(Now()), s)
      ensures r.Done? && Settleable(old(Now()), s) ==>
        && Only(old(bets), bets, Key(s.record.owner, s.record.betId), s.record)
        && Only(old(events), events, Key(s.event.owner, s.event.eventId), s.event)
        && Only(old(ledger), ledger, Key(s.entry.owner, s.entry.entryId), Entry(s.entry, now))
        && Booked(old(accounts), accounts, Key(s.record.owner, s.event.accountId), s.entry.amount, now)
        && r.value.record == s.record && r.value.event == s.event && r.value.entry == Entry(s.entry, now)
        && JsMap.Lookup(accounts, Key(s.record.owner, s.event.accountId)) == Some(r.value.account)
      ensures Replayable(old(Now()), s) ==>
        && JsMap.Lookup(bets, Key(s.record.owner, s.record.betId)) == Some(r.value.record)
        && JsMap.Lookup(events, Key(s.event.owner, s.event.eventId)) == Some(r.value.event)
        && JsMap.Lookup(ledger, Key(s.entry.owner, s.entry.entryId)) == Some(r.value.entry)
        && JsMap.Lookup(accounts, Key(s.record.owner, s.event.accountId)) == Some(r.value.account)
      ensures r == Rejected(BetAlreadySettled) ==>
        && JsMap.Lookup(old(events), Key(s.event.owner, s.event.eventId)).None? && (s.event.corrects.None? || s.event.corrects == Some(""))
        && var bet := JsMap.Lookup(old(bets), Key(s.record.owner, s.record.betId)); bet.Some? && bet.value.status != BetPending
      ensures !Settleable(old(Now()), s) ==> Now() == old(Now())
      ensures (Now(), r) == ApplySettlement(old(Now()), s, now)
    {
      hide JsMap.Set, JsMap.Lookup, JsMap.Has, Only;
      var eventKey := Key(s.event.owner, s.event.eventId);
      var existing := JsMap.Lookup(events, eventKey);
      var betKey, entryKey := Key(s.record.owner, s.record.betId), Key(s.entry.owner, s.entry.entryId);
      var accountKey := Key(s.record.owner, s.event.accountId);
      var bet, account := JsMap.Lookup(bets, betKey), JsMap.Lookup(accounts, accountKey);
      if existing.Some? {
        var e := existing.value;
        if e.betId != s.event.betId || e.accountId != s.event.accountId || e.settlementType != s.event.settlementType {
          return Rejected(IdempotencyConflict);
        }
        var entry := JsMap.Lookup(ledger, entryKey);
        if bet.None? || entry.None? || account.None? { return Rejected(IncompleteState); }
        return Done(Settled(bet.value, e, entry.value, account.value));
      }
      if bet.None? { return Rejected(BetNotFound); }
      if bet.value.status != BetPending && (s.event.corrects.None? || s.event.corrects.value == "") { return Rejected(BetAlreadySettled); }
      if account.None? { return Rejected(AccountNotFound); }
      if JsMap.Has(ledger, entryKey) { return Rejected(DuplicateEntry); }
      var updated := account.value.(balance := account.value.balance + s.entry.amount, updatedAt := now);
      SetOnly(bets, betKey, s.record);
      SetOnly(events, eventKey, s.event);
      SetOnly(ledger, entryKey, Entry(s.entry, now));
      SetOnly(accounts, accountKey, updated);
      bets := JsMap.Set(bets, betKey, s.record);
      events := JsMap.Set(events, eventKey, s.event);
      ledger := JsMap.Set(ledger, entryKey, Entry(s.entry, now));
      accounts := JsMap.Set(accounts, accountKey, updated);
      return Done(Settled(s.record, s.event, Entry(s.entry, now), updated));
    }

    method CreateBetRecord(bet: Bet) returns (r: Result<Bet>)
      modifies this`bets
      ensures r.Done? <==> JsMap.Lookup(old(bets), Key(bet.owner, bet.betId)).None?
      ensures if r.Done? then r.value == bet && Only(old(bets), bets, Key(bet.owner, bet.betId), bet) else bets == old(bets)
      ensures (Now(), r) == CreateBet(old(Now()), bet)
    {
      if JsMap.Has(bets, Key(bet.owner, bet.betId)) { return Rejected(DuplicateBet); }
      SetOnly(bets, Key(bet.owner, bet.betId), bet);
      bets := JsMap.Set(bets, Key(bet.owner, bet.betId), bet);
      return Done(bet);
    }

    method UpdateBetRecord(bet: Bet) returns (r: Result<Bet>)
      modifies this`bets
      ensures r.Done? <==> JsMap.Lookup(old(bets), Key(bet.owner, bet.betId)).Some?
      ensures if r.Done? then r.value == bet && Only(old(bets), bets, Key(bet.owner, bet.betId), bet) else bets == old(bets)
      ensures (Now(), r) == UpdateBet(old(Now()), bet)
    {
      if !JsMap.Has(bets, Key(bet.owner, bet.betId)) { return Rejected(BetNotFound); }
      SetOnly(bets, Key(bet.owner, bet.betId), bet);
      bets := JsMap.Set(bets, Key(bet.owner, bet.betId), bet);
      return Done(bet);
    }

    method UpdateBankrollAccount(owner: string, id: string, title: Option<string>, archived: Option<bool>, now: int)
        returns (r: Result<Account>)
      modifies this`accounts
      ensures r.Done? <==> JsMap.Lookup(old(accounts), Key(owner, id)).Some?
      ensures r.Done? ==>
        && Only(old(accounts), accounts, Key(owner, id), r.value)
        && var a := JsMap.Lookup(old(accounts), Key(owner, id)).value;
        && r.value.title == (if title.Some? then title.value else a.title) && r.value.archived == (if archived.Some? then archived.value else a.archived)
        && r.value.balance == a.balance && r.value.opening == a.opening && r.value.updatedAt == now
        && r.value.owner == a.owner && r.value.accountId == a.accountId && r.value.createdAt == a.createdAt
      ensures r.Rejected? ==> accounts == old(accounts)
      ensures (Now(), r) == UpdateAccount(old(Now()), owner, id, title, archived, now)
    {
      var found := JsMap.Lookup(accounts, Key(owner, id));
      if found.None? { return Rejected(AccountNotFound); }
      var updated := found.value;
      if title.Some? { updated := updated.(title := title.value); }
      if archived.Some? { updated := updated.(archived := archived.value); }
      updated := updated.(updatedAt := now);
      SetOnly(accounts, Key(owner, id), updated);
      accounts := JsMap.Set(accounts, Key(owner, id), updated);
      return Done(updated);
    }
  }

  // ---------------------------------------------------------------- runs

  datatype Operation =
    | OpenAccount(owner: string, id: string, title: string, opening: int, now: int)
    | Record(entry: EntryInput, now: int)
    | Move(transfer: Transfer, now: int)
    | Settle(settlement: Settlement, now: int)
    | PlaceBet(bet: Bet)
    | ChangeBet(bet: Bet)
    | ChangeAccount(owner: string, id: string, newTitle: Option<string>, archived: Option<bool>, now: int)

  function Do(b: Books, op: Operation): Books {
    match op
    case OpenAccount(owner, id, title, opening, now) => CreateAccount(b, owner, id, title, opening, now).0
    case Record(entry, now) => CreateEntry(b, entry, now).0
    case Move(transfer, now) => CreateTransfer(b, transfer, now).0
    case Settle(settlement, now) => ApplySettlement(b, settlement, now).0
    case PlaceBet(bet) => CreateBet(b, bet).0
    case ChangeBet(bet) => UpdateBet(b, bet).0
    case ChangeAccount(owner, id, title, archived, now) => UpdateAccount(b, owner, id, title, archived, now).0
  }

  function DoAll(b: Books, ops: seq<Operation>): Books {
    if ops == [] then b else Do(DoAll(b, ops[..|ops| - 1]), ops[|ops| - 1])
  }

  function Nothing(): Books { Books([], [], [], []) }

  predicate Sound(op: Operation) { op.Settle? ==> NamesAccount(op.settlement) }

  lemma BetKeeps(b: Books, bet: Bet)
    requires Balanced(b)
    ensures Balanced(b.(bets := JsMap.Set(b.bets, Key(bet.owner, bet.betId), bet)))
  {
    hide Sum;
    JsMap.SetLookup(b.bets, Key(bet.owner, bet.betId), bet);
    var n := b.(bets := JsMap.Set(b.bets, Key(bet.owner, bet.betId), bet));
    forall k ensures BalancedAt(n, k) { assert BalancedAt(b, k); }
  }

  lemma DoKeeps(b: Books, op: Operation)
    requires Balanced(b) && Sound(op)
    ensures Balanced(Do(b, op))
  {
    hide Balanced, CreateAccount, CreateEntry, CreateTransfer, ApplySettlement, UpdateAccount;
    match op
    case OpenAccount(owner, id, title, opening, now) => CreateAccountKeeps(b, owner, id, title, opening, now);
    case Record(entry, now) => CreateEntryKeeps(b, entry, now);
    case Move(transfer, now) => TransferKeeps(b, transfer, now);
    case Settle(settlement, now) => SettlementKeeps(b, settlement, now);
    case PlaceBet(bet) => BetKeeps(b, bet);
    case ChangeBet(bet) => BetKeeps(b, bet);
    case ChangeAccount(owner, id, title, archived, now) => UpdateAccountKeeps(b, owner, id, title, archived, now);
  }

  /** In every run from an empty adapter whose settlements book on the account they credit, every
      balance is the opening plus the sum of the account's entries. */
  lemma {:induction false} EveryRunBalanced(ops: seq<Operation>)
    requires forall op :: op in ops ==> Sound(op)
    ensures Balanced(DoAll(Nothing(), ops))
  {
    hide Balanced, Sound;
    if ops == [] {
      NothingBalanced();
    } else {
      EveryRunBalanced(ops[..|ops| - 1]);
      assert ops[|ops| - 1] in ops;
      DoKeeps(DoAll(Nothing(), ops[..|ops| - 1]), ops[|ops| - 1]);
    }
  }

  lemma NothingBalanced()
    ensures Balanced(Nothing())
  {
  }

  // ---------------------------------------------------------------- settlements are applied once

  /** Everything a replay of a stored settlement needs is still there. */
  ghost predicate Recorded(b: Books, s: Settlement) {
    && Keyed(b)
    && JsMap.Lookup(b.events, Key(s.event.owner, s.event.eventId)) == Some(s.event)
    && JsMap.Has(b.bets, Key(s.record.owner, s.record.betId))
    && JsMap.Has(b.ledger, Key(s.entry.owner, s.entry.entryId))
    && JsMap.Has(b.accounts, SettledAccount(s))
  }

  /** A table with one value set keeps its keys. */
  lemma SetGrows<V>(m: Table<V>, k: Key, v: V)
    requires JsMap.UniqueKeys(m)
    ensures JsMap.UniqueKeys(JsMap.Set(m, k, v))
    ensures forall j :: JsMap.Has(m, j) ==> JsMap.Has(JsMap.Set(m, k, v), j)
    ensures JsMap.Has(JsMap.Set(m, k, v), k)
    ensures forall j :: j != k ==> JsMap.Lookup(JsMap.Set(m, k, v), j) == JsMap.Lookup(m, j)
    ensures JsMap.Lookup(JsMap.Set(m, k, v), k) == Some(v)
  {
    JsMap.SetLookup(m, k, v);
    var n := JsMap.Set(m, k, v);
    forall j ensures JsMap.Has(n, j) <==> JsMap.Has(m, j) || j == k {
      assert JsMap.Lookup(n, j).Some? <==> JsMap.Lookup(m, j).Some? || j == k;
    }
  }

  lemma SettlementRecords(b: Books, s: Settlement, now: int)
    requires Keyed(b) && JsMap.Lookup(b.events, Key(s.event.owner, s.event.eventId)).None? && ApplySettlement(b, s, now).1.Done?
    ensures Recorded(ApplySettlement(b, s, now).0, s)
  {
    hide JsMap.Set, JsMap.Lookup, JsMap.UniqueKeys, JsMap.Has;
    var r := ApplySettlement(b, s, now).1.value;
    SetGrows(b.accounts, SettledAccount(s), r.account);
    SetGrows(b.ledger, Key(s.entry.owner, s.entry.entryId), r.entry);
    SetGrows(b.bets, Key(s.record.owner, s.record.betId), s.record);
    SetGrows(b.events, Key(s.event.owner, s.event.eventId), s.event);
  }

  lemma DoKeepsRecord(b: Books, op: Operation, s: Settlement)
    requires Recorded(b, s)
    ensures Recorded(Do(b, op), s)
  {
    hide JsMap.Set, JsMap.Lookup, JsMap.UniqueKeys, JsMap.Has, OutId, InId;
    match op
    case OpenAccount(owner, id, title, opening, now) =>
      SetGrows(b.accounts, Key(owner, id), Account(owner, id, title, opening, opening, false, now, now));
    case Record(e, now) =>
      RecordKeeps(b, EntryAccount(e), Key(e.owner, e.entryId), Entry(e, now), s);
    case Move(t, now) =>
      var (n, r) := CreateTransfer(b, t, now);
      if r.Done? {
        var fromKey, toKey := Key(t.owner, t.from), Key(t.owner, t.to);
        var outKey, inKey := Key(t.owner, OutId(t.transferId)), Key(t.owner, InId(t.transferId));
        SetGrows(b.accounts, fromKey, r.value.0);
        SetGrows(JsMap.Set(b.accounts, fromKey, r.value.0), toKey, r.value.1);
        SetGrows(b.ledger, outKey, Entry(OutEntry(t), now));
        SetGrows(JsMap.Set(b.ledger, outKey, Entry(OutEntry(t), now)), inKey, Entry(InEntry(t), now));
      }
    case Settle(t, now) =>
      var (n, r) := ApplySettlement(b, t, now);
      if r.Done? {
        SetGrows(b.accounts, SettledAccount(t), r.value.account);
        SetGrows(b.ledger, Key(t.entry.owner, t.entry.entryId), r.value.entry);
        SetGrows(b.bets, Key(t.record.owner, t.record.betId), t.record);
        SetGrows(b.events, Key(t.event.owner, t.event.eventId), t.event);
      }
    case PlaceBet(bet) => SetGrows(b.bets, Key(bet.owner, bet.betId), bet);
    case ChangeBet(bet) => SetGrows(b.bets, Key(bet.owner, bet.betId), bet);
    case ChangeAccount(owner, id, title, archived, now) =>
      var (n, r) := UpdateAccount(b, owner, id, title, archived, now);
      if r.Done? { SetGrows(b.accounts, Key(owner, id), r.value); }
  }

  lemma RecordKeeps(b: Books, accountKey: Key, entryKey: Key, e: Entry, s: Settlement)
    requires Recorded(b, s) && accountKey == EntryAccount(e.input) && entryKey == Key(e.input.owner, e.input.entryId)
    ensures Recorded(CreateEntry(b, e.input, e.createdAt).0, s)
  {
    hide JsMap.Set, JsMap.Lookup, JsMap.UniqueKeys, JsMap.Has;
    var (n, r) := CreateEntry(b, e.input, e.createdAt);
    if r.Done? {
      var a := Credited(JsMap.Lookup(b.accounts, accountKey).value, e.input.amount, e.createdAt);
      SetGrows(b.accounts, accountKey, a);
      SetGrows(b.ledger, entryKey, e);
    }
  }

  lemma {:induction false} StaysRecorded(b: Books, ops: seq<Operation>, s: Settlement)
    requires Recorded(b, s)
    ensures Recorded(DoAll(b, ops), s)
  {
    hide Recorded;
    if ops != [] {
      StaysRecorded(b, ops[..|ops| - 1], s);
      DoKeepsRecord(DoAll(b, ops[..|ops| - 1]), ops[|ops| - 1], s);
    }
  }

  /** Replaying a settlement that was carried out changes nothing, whatever happened in between, and
      answers with the stored event. */
  lemma SettledOnce(b: Books, s: Settlement, now: int, ops: seq<Operation>, later: int)
    requires Keyed(b) && JsMap.Lookup(b.events, Key(s.event.owner, s.event.eventId)).None? && ApplySettlement(b, s, now).1.Done?
    ensures var b2 := DoAll(ApplySettlement(b, s, now).0, ops);
      && ApplySettlement(b2, s, later).0 == b2
      && ApplySettlement(b2, s, later).1.Done?
      && ApplySettlement(b2, s, later).1.value.event == s.event
  {
    hide JsMap.Set, JsMap.Lookup, JsMap.UniqueKeys, JsMap.Has, Keyed;
    SettlementRecords(b, s, now);
    var b1 := ApplySettlement(b, s, now).0;
    StaysRecorded(b1, ops, s);
    ReplayDone(DoAll(b1, ops), s, later);
  }

  lemma ReplayDone(b: Books, s: Settlement, now: int)
    requires Recorded(b, s)
    ensures ApplySettlement(b, s, now).0 == b && ApplySettlement(b, s, now).1.Done? && ApplySettlement(b, s, now).1.value.event == s.event
  {
  }

  // ---------------------------------------------------------------- a settled bet stays settled

  predicate BetClosed(b: Books, k: Key) {
    var bet := JsMap.Lookup(b.bets, k);
    bet.Some? && bet.value.status != BetPending
  }

  /** The operation does not put a pending record in the place of the bet. */
  predicate KeepsClosed(op: Operation, k: Key) {
    && (op.ChangeBet? && Key(op.bet.owner, op.bet.betId) == k ==> op.bet.status != BetPending)
    && (op.Settle? && Key(op.settlement.record.owner, op.settlement.record.betId) == k ==> op.settlement.record.status != BetPending)
  }

  lemma StepStaysClosed(b: Books, op: Operation, k: Key)
    requires BetClosed(b, k) && KeepsClosed(op, k)
    ensures BetClosed(Do(b, op), k)
  {
    hide JsMap.Set, JsMap.Lookup, JsMap.Has;
    match op
    case PlaceBet(bet) => JsMap.SetFound(b.bets, Key(bet.owner, bet.betId), bet, k);
    case ChangeBet(bet) => JsMap.SetFound(b.bets, Key(bet.owner, bet.betId), bet, k);
    case Settle(s, now) => JsMap.SetFound(b.bets, Key(s.record.owner, s.record.betId), s.record, k);
    case _ =>
  }

  lemma {:induction false} StaysClosed(b: Books, ops: seq<Operation>, k: Key)
    requires BetClosed(b, k) && forall op :: op in ops ==> KeepsClosed(op, k)
    ensures BetClosed(DoAll(b, ops), k)
  {
    hide BetClosed, KeepsClosed, Do;
    if ops != [] {
      StaysClosed(b, ops[..|ops| - 1], k);
      StepStaysClosed(DoAll(b, ops[..|ops| - 1]), ops[|ops| - 1], k);
    }
  }

  /** A bet that a settlement closed takes no other event that corrects nothing, after whatever operations
      that do not reopen it. */
  lemma ClosedBetRefuses(b: Books, s: Settlement, now: int, ops: seq<Operation>, t: Settlement, later: int)
    requires ApplySettlement(b, s, now).1.Done? && Settleable(b, s) && s.record.status != BetPending
    requires forall op :: op in ops ==> KeepsClosed(op, Key(s.record.owner, s.record.betId))
    requires t.record.owner == s.record.owner && t.record.betId == s.record.betId
    requires t.event.corrects.None? || t.event.corrects == Some("")
    ensures var n := DoAll(ApplySettlement(b, s, now).0, ops);
      JsMap.Lookup(n.events, Key(t.event.owner, t.event.eventId)).None? ==> ApplySettlement(n, t, later) == (n, Rejected(BetAlreadySettled))
  {
    hide JsMap.Set, JsMap.Lookup, JsMap.Has, KeepsClosed;
    JsMap.SetFound(b.bets, Key(s.record.owner, s.record.betId), s.record, Key(s.record.owner, s.record.betId));
    StaysClosed(ApplySettlement(b, s, now).0, ops, Key(s.record.owner, s.record.betId));
  }

  /** No balance is overdrawn by a manual withdrawal or a transfer, and no closed account takes an entry of
      either. */
  lemma NeverOverdrawn(b: Books, e: EntryInput, t: Transfer, now: int)
    ensures CreateEntry(b, e, now).1.Done? ==>
      var a := JsMap.Lookup(CreateEntry(b, e, now).0.accounts, Key(e.owner, e.accountId));
      a.Some? && !a.value.archived && (e.entryType == Withdrawal ==> 0 <= a.value.balance)
    ensures CreateTransfer(b, t, now).1.Done? ==>
      var n := CreateTransfer(b, t, now).0;
      var from, to := JsMap.Lookup(n.accounts, Key(t.owner, t.from)), JsMap.Lookup(n.accounts, Key(t.owner, t.to));
      from.Some? && to.Some? && !from.value.archived && !to.value.archived && 0 <= from.value.balance
  {
    TransferMeaning(b, t, now);
    hide CreateTransfer, JsMap.Set, JsMap.Has;
    var a := JsMap.Lookup(b.accounts, Key(e.owner, e.accountId));
    if a.Some? { JsMap.SetFound(b.accounts, Key(e.owner, e.accountId), Credited(a.value, e.amount, now), Key(e.owner, e.accountId)); }
  }
}
