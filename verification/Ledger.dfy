/** The bankroll operations of the in-memory persistence adapter. Points are integers (hundredths);
    a composite key is a pair. */
module Ledger {
  import opened Options
  import JsMap

  datatype Key = Key(owner: string, id: string)

  datatype Account = Account(owner: string, accountId: string, title: string, opening: int, balance: int, archived: bool,
                             createdAt: int, updatedAt: int)

  datatype EntryType = Deposit | Withdrawal | TransferIn | TransferOut | Correction | BetSettlement | BetSettlementCorrection

  /** What a caller supplies of a ledger entry. */
  datatype EntryInput = EntryInput(owner: string, entryId: string, accountId: string, entryType: EntryType, amount: int,
                                   transferId: Option<string>, note: string, occurredAt: int)

  datatype Entry = Entry(input: EntryInput, createdAt: int)

  datatype BetStatus = BetPending | BetSettled

  datatype Bet = Bet(owner: string, betId: string, status: BetStatus, content: string)

  datatype SettlementEvent = SettlementEvent(owner: string, eventId: string, betId: string, accountId: string, settlementType: string,
                                             corrects: Option<string>, content: string)

  datatype Settlement = Settlement(record: Bet, event: SettlementEvent, entry: EntryInput)

  type Table<V> = JsMap.JsMap<Key, V>

  datatype Books = Books(accounts: Table<Account>, ledger: Table<Entry>, bets: Table<Bet>, events: Table<SettlementEvent>)

  datatype Error = OpeningNotPositive | DuplicateAccount | AccountNotFound | AccountArchived | SignInvalid | AmountInvalid
                 | DuplicateEntry | InsufficientBalance | TransferInvalid | DuplicateTransfer | IdempotencyConflict
                 | IncompleteState | BetNotFound | BetAlreadySettled | DuplicateBet

  datatype Result<+T> = Rejected(error: Error) | Done(value: T)

  datatype Settled = Settled(record: Bet, event: SettlementEvent, entry: Entry, account: Account)

  function EntryAccount(e: EntryInput): Key { Key(e.owner, e.accountId) }

  // ---------------------------------------------------------------- the operations

  function CreateAccount(b: Books, owner: string, id: string, title: string, opening: int, now: int): (Books, Result<Account>) {
    if opening <= 0 then (b, Rejected(OpeningNotPositive))
    else if JsMap.Has(b.accounts, Key(owner, id)) then (b, Rejected(DuplicateAccount))
    else
      var a := Account(owner, id, title, opening, opening, false, now, now);
      (b.(accounts := JsMap.Set(b.accounts, Key(owner, id), a)), Done(a))
  }

  function Credited(a: Account, amount: int, now: int): Account { a.(balance := a.balance + amount, updatedAt := now) }

  function CreateEntry(b: Books, e: EntryInput, now: int): (Books, Result<Entry>) {
    if (e.entryType.Deposit? && e.amount <= 0) || (e.entryType.Withdrawal? && e.amount >= 0) then (b, Rejected(SignInvalid))
    else if e.amount == 0 then (b, Rejected(AmountInvalid))
    else if JsMap.Has(b.ledger, Key(e.owner, e.entryId)) then (b, Rejected(DuplicateEntry))
    else
      match JsMap.Lookup(b.accounts, EntryAccount(e))
      case None => (b, Rejected(AccountNotFound))
      case Some(a) =>
        if a.archived then (b, Rejected(AccountArchived))
        else if e.entryType.Withdrawal? && a.balance + e.amount < 0 then (b, Rejected(InsufficientBalance))
        else
          (b.(ledger := JsMap.Set(b.ledger, Key(e.owner, e.entryId), Entry(e, now)),
              accounts := JsMap.Set(b.accounts, EntryAccount(e), Credited(a, e.amount, now))),
           Done(Entry(e, now)))
  }

  datatype Transfer = Transfer(owner: string, transferId: string, from: string, to: string, amount: int, note: string, occurredAt: int)

  function OutId(transferId: string): string { "transfer:" + transferId + ":out" }
  function InId(transferId: string): string { "transfer:" + transferId + ":in" }

  function OutEntry(t: Transfer): EntryInput {
    EntryInput(t.owner, OutId(t.transferId), t.from, TransferOut, -t.amount, Some(t.transferId), t.note, t.occurredAt)
  }

  function InEntry(t: Transfer): EntryInput {
    EntryInput(t.owner, InId(t.transferId), t.to, TransferIn, t.amount, Some(t.transferId), t.note, t.occurredAt)
  }

  function CreateTransfer(b: Books, t: Transfer, now: int): (Books, Result<(Account, Account)>) {
    var fromKey, toKey := Key(t.owner, t.from), Key(t.owner, t.to);
    if t.amount <= 0 || t.from == t.to then (b, Rejected(TransferInvalid))
    else
      var from, to := JsMap.Lookup(b.accounts, fromKey), JsMap.Lookup(b.accounts, toKey);
      if from.None? || to.None? then (b, Rejected(AccountNotFound))
      else if from.value.archived || to.value.archived then (b, Rejected(AccountArchived))
      else if from.value.balance < t.amount then (b, Rejected(InsufficientBalance))
      else if JsMap.Has(b.ledger, Key(t.owner, OutId(t.transferId))) || JsMap.Has(b.ledger, Key(t.owner, InId(t.transferId))) then
        (b, Rejected(DuplicateTransfer))
      else
        var debited, credited := Credited(from.value, -t.amount, now), Credited(to.value, t.amount, now);
        (b.(ledger := JsMap.Set(JsMap.Set(b.ledger, Key(t.owner, OutId(t.transferId)), Entry(OutEntry(t), now)),
                                Key(t.owner, InId(t.transferId)), Entry(InEntry(t), now)),
            accounts := JsMap.Set(JsMap.Set(b.accounts, fromKey, debited), toKey, credited)),
         Done((debited, credited)))
  }

  function SettledAccount(s: Settlement): Key { Key(s.record.owner, s.event.accountId) }

  /** What a settlement whose event is already stored returns: the stored data, or a refusal. */
  function Replay(b: Books, s: Settlement, stored: SettlementEvent): Result<Settled> {
    if stored.betId != s.event.betId || stored.accountId != s.event.accountId || stored.settlementType != s.event.settlementType then
      Rejected(IdempotencyConflict)
    else
      var record := JsMap.Lookup(b.bets, Key(s.record.owner, s.record.betId));
      var entry := JsMap.Lookup(b.ledger, Key(s.entry.owner, s.entry.entryId));
      var account := JsMap.Lookup(b.accounts, SettledAccount(s));
      if record.None? || entry.None? || account.None? then Rejected(IncompleteState)
      else Done(Settled(record.value, stored, entry.value, account.value))
  }

  function ApplySettlement(b: Books, s: Settlement, now: int): (Books, Result<Settled>) {
    var eventKey := Key(s.event.owner, s.event.eventId);
    var stored := JsMap.Lookup(b.events, eventKey);
    if stored.Some? then (b, Replay(b, s, stored.value))
    else
      var betKey, entryKey := Key(s.record.owner, s.record.betId), Key(s.entry.owner, s.entry.entryId);
      var bet := JsMap.Lookup(b.bets, betKey);
      if bet.None? then (b, Rejected(BetNotFound))
      else if !bet.value.status.BetPending? && (s.event.corrects.None? || s.event.corrects.value == "") then (b, Rejected(BetAlreadySettled))
      else
        var account := JsMap.Lookup(b.accounts, SettledAccount(s));
        if account.None? then (b, Rejected(AccountNotFound))
        else if JsMap.Has(b.ledger, entryKey) then (b, Rejected(DuplicateEntry))
        else
          var a := Credited(account.value, s.entry.amount, now);
          (Books(JsMap.Set(b.accounts, SettledAccount(s), a), JsMap.Set(b.ledger, entryKey, Entry(s.entry, now)),
                 JsMap.Set(b.bets, betKey, s.record), JsMap.Set(b.events, eventKey, s.event)),
           Done(Settled(s.record, s.event, Entry(s.entry, now), a)))
  }

  function CreateBet(b: Books, bet: Bet): (Books, Result<Bet>) {
    if JsMap.Has(b.bets, Key(bet.owner, bet.betId)) then (b, Rejected(DuplicateBet))
    else (b.(bets := JsMap.Set(b.bets, Key(bet.owner, bet.betId), bet)), Done(bet))
  }

  function UpdateBet(b: Books, bet: Bet): (Books, Result<Bet>) {
    if !JsMap.Has(b.bets, Key(bet.owner, bet.betId)) then (b, Rejected(BetNotFound))
    else (b.(bets := JsMap.Set(b.bets, Key(bet.owner, bet.betId), bet)), Done(bet))
  }

  function UpdateAccount(b: Books, owner: string, id: string, title: Option<string>, archived: Option<bool>, now: int): (Books, Result<Account>) {
    match JsMap.Lookup(b.accounts, Key(owner, id))
    case None => (b, Rejected(AccountNotFound))
    case Some(a) =>
      var u := a.(title := if title.Some? then title.value else a.title, archived := if archived.Some? then archived.value else a.archived,
                  updatedAt := now);
      (b.(accounts := JsMap.Set(b.accounts, Key(owner, id), u)), Done(u))
  }

  // ---------------------------------------------------------------- what an operation leaves

  /** A table that holds one value more or anew, and is otherwise as before. */
  ghost predicate Only<V>(before: Table<V>, after: Table<V>, k: Key, v: V) {
    forall j :: JsMap.Lookup(after, j) == if j == k then Some(v) else JsMap.Lookup(before, j)
  }

  lemma SetOnly<V>(m: Table<V>, k: Key, v: V)
    ensures Only(m, JsMap.Set(m, k, v), k, v)
  {
    forall j ensures JsMap.Lookup(JsMap.Set(m, k, v), j) == if j == k then Some(v) else JsMap.Lookup(m, j) { JsMap.SetFound(m, k, v, j); }
  }

  /** An amount of the right sign, a new entry id, and an open account that a withdrawal does not overdraw. */
  ghost predicate Bookable(accounts: Table<Account>, ledger: Table<Entry>, e: EntryInput) {
    && e.amount != 0 && (e.entryType == Deposit ==> 0 < e.amount) && (e.entryType == Withdrawal ==> e.amount < 0)
    && JsMap.Lookup(ledger, Key(e.owner, e.entryId)).None?
    && match JsMap.Lookup(accounts, Key(e.owner, e.accountId))
       case None => false
       case Some(a) => !a.archived && (e.entryType == Withdrawal ==> 0 <= a.balance + e.amount)
  }

  /** The account after an amount was booked on it. */
  ghost predicate Booked(before: Table<Account>, after: Table<Account>, k: Key, amount: int, now: int) {
    var a := JsMap.Lookup(before, k);
    a.Some? && Only(before, after, k, Account(a.value.owner, a.value.accountId, a.value.title, a.value.opening, a.value.balance + amount,
                                              a.value.archived, a.value.createdAt, now))
  }

  /** A positive amount between two open accounts, the first of which has it, under a new transfer id. */
  ghost predicate Movable(accounts: Table<Account>, ledger: Table<Entry>, t: Transfer) {
    && 0 < t.amount && t.from != t.to
    && JsMap.Lookup(ledger, Key(t.owner, "transfer:" + t.transferId + ":out")).None?
    && JsMap.Lookup(ledger, Key(t.owner, "transfer:" + t.transferId + ":in")).None?
    && var from, to := JsMap.Lookup(accounts, Key(t.owner, t.from)), JsMap.Lookup(accounts, Key(t.owner, t.to));
    from.Some? && to.Some? && !from.value.archived && !to.value.archived && t.amount <= from.value.balance
  }

  /** After a transfer: each account changed by the amount, two entries of opposite sign, nothing else. */
  ghost predicate Moved(accounts: Table<Account>, after: Table<Account>, ledger: Table<Entry>, booked: Table<Entry>, t: Transfer, now: int) {
    var out, into := Key(t.owner, "transfer:" + t.transferId + ":out"), Key(t.owner, "transfer:" + t.transferId + ":in");
    var fromKey, toKey := Key(t.owner, t.from), Key(t.owner, t.to);
    var from, to := JsMap.Lookup(accounts, fromKey), JsMap.Lookup(accounts, toKey);
    && from.Some? && to.Some?
    && (forall k :: JsMap.Lookup(after, k) ==
          if k == fromKey then Some(from.value.(balance := from.value.balance - t.amount, updatedAt := now))
          else if k == toKey then Some(to.value.(balance := to.value.balance + t.amount, updatedAt := now))
          else JsMap.Lookup(accounts, k))
    && (forall k :: JsMap.Lookup(booked, k) ==
          if k == into then Some(Entry(EntryInput(t.owner, into.id, t.to, TransferIn, t.amount, Some(t.transferId), t.note, t.occurredAt), now))
          else if k == out then Some(Entry(EntryInput(t.owner, out.id, t.from, TransferOut, -t.amount, Some(t.transferId), t.note, t.occurredAt), now))
          else JsMap.Lookup(ledger, k))
  }

  lemma TransferMoved(b: Books, t: Transfer, now: int)
    requires CreateTransfer(b, t, now).1.Done?
    ensures var n := CreateTransfer(b, t, now).0; Moved(b.accounts, n.accounts, b.ledger, n.ledger, t, now)
  {
    var fromKey, toKey := Key(t.owner, t.from), Key(t.owner, t.to);
    var out, into := Key(t.owner, OutId(t.transferId)), Key(t.owner, InId(t.transferId));
    var from, to := JsMap.Lookup(b.accounts, fromKey).value, JsMap.Lookup(b.accounts, toKey).value;
    SetOnly(b.accounts, fromKey, Credited(from, -t.amount, now));
    SetOnly(JsMap.Set(b.accounts, fromKey, Credited(from, -t.amount, now)), toKey, Credited(to, t.amount, now));
    SetOnly(b.ledger, out, Entry(OutEntry(t), now));
    SetOnly(JsMap.Set(b.ledger, out, Entry(OutEntry(t), now)), into, Entry(InEntry(t), now));
    hide JsMap.Set, JsMap.Lookup, JsMap.Has;
  }

  lemma TransferMeaning(b: Books, t: Transfer, now: int)
    ensures var (n, r) := CreateTransfer(b, t, now);
      && (r.Done? <==> Movable(b.accounts, b.ledger, t))
      && (r.Done? ==> Moved(b.accounts, n.accounts, b.ledger, n.ledger, t, now)
                      && JsMap.Lookup(n.accounts, Key(t.owner, t.from)) == Some(r.value.0)
                      && JsMap.Lookup(n.accounts, Key(t.owner, t.to)) == Some(r.value.1))
  {
    if CreateTransfer(b, t, now).1.Done? { TransferMoved(b, t, now); }
    hide JsMap.Set, JsMap.Lookup, JsMap.Has;
  }

  /** The event is new, the bet is open or the event corrects another one, the account is there, the entry is new. */
  ghost predicate Settleable(b: Books, s: Settlement) {
    && JsMap.Lookup(b.events, Key(s.event.owner, s.event.eventId)).None?
    && JsMap.Lookup(b.ledger, Key(s.entry.owner, s.entry.entryId)).None?
    && JsMap.Lookup(b.accounts, Key(s.record.owner, s.event.accountId)).Some?
    && match JsMap.Lookup(b.bets, Key(s.record.owner, s.record.betId))
       case None => false
       case Some(bet) => bet.status == BetPending || (s.event.corrects.Some? && s.event.corrects != Some(""))
  }

  /** The event is stored already, about the same bet, account and kind, with all that belongs to it. */
  ghost predicate Replayable(b: Books, s: Settlement) {
    && JsMap.Lookup(b.bets, Key(s.record.owner, s.record.betId)).Some? && JsMap.Lookup(b.ledger, Key(s.entry.owner, s.entry.entryId)).Some?
    && JsMap.Lookup(b.accounts, Key(s.record.owner, s.event.accountId)).Some?
    && match JsMap.Lookup(b.events, Key(s.event.owner, s.event.eventId))
       case None => false
       case Some(e) => e.betId == s.event.betId && e.accountId == s.event.accountId && e.settlementType == s.event.settlementType
  }

  // ---------------------------------------------------------------- balances

  /** The sum of the entries of an account. */
  function Sum(ledger: Table<Entry>, account: Key): int {
    if ledger == [] then 0
    else
      var e := ledger[|ledger| - 1].value.input;
      Sum(ledger[..|ledger| - 1], account) + if EntryAccount(e) == account then e.amount else 0
  }

  function Total(accounts: Table<Account>): int {
    if accounts == [] then 0 else Total(accounts[..|accounts| - 1]) + accounts[|accounts| - 1].value.balance
  }

  /** The balance of an account is its opening plus its entries; entries name existing accounts,
      or cancel out. */
  predicate BalancedAt(b: Books, k: Key) {
    match JsMap.Lookup(b.accounts, k)
    case Some(a) => a.balance == a.opening + Sum(b.ledger, k)
    case None => Sum(b.ledger, k) == 0
  }

  ghost predicate Keyed(b: Books) {
    && JsMap.UniqueKeys(b.accounts) && JsMap.UniqueKeys(b.ledger) && JsMap.UniqueKeys(b.bets) && JsMap.UniqueKeys(b.events)
  }

  ghost predicate Balanced(b: Books) { Keyed(b) && forall k :: BalancedAt(b, k) }

  lemma SumSet(ledger: Table<Entry>, k: Key, e: Entry, account: Key)
    requires !JsMap.Has(ledger, k)
    ensures Sum(JsMap.Set(ledger, k, e), account) == Sum(ledger, account) + if EntryAccount(e.input) == account then e.input.amount else 0
  {
    JsMap.SetFresh(ledger, k, e);
    assert (ledger + [JsMap.Entry(k, e)])[..|ledger|] == ledger;
  }

  lemma {:induction false} TotalReplaced(accounts: Table<Account>, i: nat, a: JsMap.Entry<Key, Account>)
    requires i < |accounts|
    ensures Total(accounts[i := a]) == Total(accounts) - accounts[i].value.balance + a.value.balance
  {
    var n := |accounts| - 1;
    assert accounts[i := a][..n] == if i < n then accounts[..n][i := a] else accounts[..n];
    if i < n { TotalReplaced(accounts[..n], i, a); }
  }

  lemma TotalSet(accounts: Table<Account>, k: Key, a: Account)
    requires JsMap.UniqueKeys(accounts) && JsMap.Has(accounts, k)
    ensures Total(JsMap.Set(accounts, k, a)) == Total(accounts) - JsMap.Lookup(accounts, k).value.balance + a.balance
  {
    var i := JsMap.LookupIndex(accounts, k);
    JsMap.SetAt(accounts, k, a, i);
    TotalReplaced(accounts, i, JsMap.Entry(k, a));
  }

  lemma CreateAccountKeeps(b: Books, owner: string, id: string, title: string, opening: int, now: int)
    requires Balanced(b)
    ensures Balanced(CreateAccount(b, owner, id, title, opening, now).0)
  {
    hide Sum, JsMap.Set, JsMap.Lookup, JsMap.UniqueKeys;
    var (n, r) := CreateAccount(b, owner, id, title, opening, now);
    if r.Done? {
      JsMap.SetLookup(b.accounts, Key(owner, id), r.value);
      forall k ensures BalancedAt(n, k) { assert BalancedAt(b, k); }
    }
  }

  lemma CreateEntryKeeps(b: Books, e: EntryInput, now: int)
    requires Balanced(b)
    ensures Balanced(CreateEntry(b, e, now).0)
  {
    hide Sum, JsMap.Set, JsMap.Lookup, JsMap.UniqueKeys;
    var (n, r) := CreateEntry(b, e, now);
    if r.Done? {
      var a := Credited(JsMap.Lookup(b.accounts, EntryAccount(e)).value, e.amount, now);
      JsMap.SetLookup(b.accounts, EntryAccount(e), a);
      JsMap.SetLookup(b.ledger, Key(e.owner, e.entryId), r.value);
      forall k ensures BalancedAt(n, k) {
        assert BalancedAt(b, k);
        SumSet(b.ledger, Key(e.owner, e.entryId), r.value, k);
      }
    }
  }

  /** The two entry ids of a transfer differ. */
  lemma TransferIds(id: string)
    ensures OutId(id) != InId(id)
  {
    assert |OutId(id)| == |InId(id)| + 1;
  }

  lemma TransferKeeps(b: Books, t: Transfer, now: int)
    requires Balanced(b)
    ensures Balanced(CreateTransfer(b, t, now).0)
    ensures Total(CreateTransfer(b, t, now).0.accounts) == Total(b.accounts)
  {
    hide Sum, Total, JsMap.Set, JsMap.Lookup, JsMap.UniqueKeys, OutId, InId;
    var (n, r) := CreateTransfer(b, t, now);
    if r.Done? {
      TransferIds(t.transferId);
      var fromKey, toKey := Key(t.owner, t.from), Key(t.owner, t.to);
      var outKey, inKey := Key(t.owner, OutId(t.transferId)), Key(t.owner, InId(t.transferId));
      var out, in_ := Entry(OutEntry(t), now), Entry(InEntry(t), now);
      JsMap.SetLookup(b.accounts, fromKey, r.value.0);
      var accounts := JsMap.Set(b.accounts, fromKey, r.value.0);
      assert JsMap.Lookup(accounts, toKey) == JsMap.Lookup(b.accounts, toKey);
      JsMap.SetLookup(accounts, toKey, r.value.1);
      TotalSet(b.accounts, fromKey, r.value.0);
      TotalSet(accounts, toKey, r.value.1);
      JsMap.SetLookup(b.ledger, outKey, out);
      var ledger := JsMap.Set(b.ledger, outKey, out);
      assert JsMap.Lookup(ledger, inKey) == JsMap.Lookup(b.ledger, inKey);
      JsMap.SetLookup(ledger, inKey, in_);
      forall k ensures BalancedAt(n, k) {
        assert BalancedAt(b, k);
        SumSet(b.ledger, outKey, out, k);
        SumSet(ledger, inKey, in_, k);
      }
    }
  }

  function BalanceOf(b: Books, k: Key): Option<int> {
    match JsMap.Lookup(b.accounts, k) case Some(a) => Some(a.balance) case None => None
  }

  /** A transfer takes its amount from the one account and gives it to the other, touches no third,
      and books one entry on each side. */
  lemma TransferMoves(b: Books, t: Transfer, now: int)
    requires Keyed(b) && CreateTransfer(b, t, now).1.Done?
    ensures var n := CreateTransfer(b, t, now).0;
      var from, to := Key(t.owner, t.from), Key(t.owner, t.to);
      && (forall k :: BalanceOf(n, k) == if k == from then Some(BalanceOf(b, from).value - t.amount)
                                         else if k == to then Some(BalanceOf(b, to).value + t.amount) else BalanceOf(b, k))
      && t.amount <= BalanceOf(b, from).value
      && (forall k :: Sum(n.ledger, k) == Sum(b.ledger, k) + if k == from then -t.amount else if k == to then t.amount else 0)
  {
    hide Sum, JsMap.Set, JsMap.Lookup, JsMap.UniqueKeys, OutId, InId;
    var (n, r) := CreateTransfer(b, t, now);
    TransferIds(t.transferId);
    var fromKey, toKey := Key(t.owner, t.from), Key(t.owner, t.to);
    var outKey, inKey := Key(t.owner, OutId(t.transferId)), Key(t.owner, InId(t.transferId));
    JsMap.SetLookup(b.accounts, fromKey, r.value.0);
    JsMap.SetLookup(JsMap.Set(b.accounts, fromKey, r.value.0), toKey, r.value.1);
    JsMap.SetLookup(b.ledger, outKey, Entry(OutEntry(t), now));
    var ledger := JsMap.Set(b.ledger, outKey, Entry(OutEntry(t), now));
    assert JsMap.Lookup(ledger, inKey) == JsMap.Lookup(b.ledger, inKey);
    forall k ensures Sum(n.ledger, k) == Sum(b.ledger, k) + if k == fromKey then -t.amount else if k == toKey then t.amount else 0 {
      SumSet(b.ledger, outKey, Entry(OutEntry(t), now), k);
      SumSet(ledger, inKey, Entry(InEntry(t), now), k);
    }
  }

  /** The entry of a settlement is booked on the account the settlement credits. */
  predicate NamesAccount(s: Settlement) { EntryAccount(s.entry) == SettledAccount(s) || s.entry.amount == 0 }

  /** A settlement that is carried out keeps the balances right exactly when its entry names the
      account of its event (or moves nothing). */
  lemma SettlementKeepsIff(b: Books, s: Settlement, now: int)
    requires Balanced(b)
    requires JsMap.Lookup(b.events, Key(s.event.owner, s.event.eventId)).None? && ApplySettlement(b, s, now).1.Done?
    ensures Balanced(ApplySettlement(b, s, now).0) <==> NamesAccount(s)
  {
    hide Sum, JsMap.Set, JsMap.Lookup, JsMap.UniqueKeys;
    var (n, r) := ApplySettlement(b, s, now);
    var betKey, entryKey := Key(s.record.owner, s.record.betId), Key(s.entry.owner, s.entry.entryId);
    JsMap.SetLookup(b.accounts, SettledAccount(s), r.value.account);
    JsMap.SetLookup(b.ledger, entryKey, r.value.entry);
    JsMap.SetLookup(b.bets, betKey, s.record);
    JsMap.SetLookup(b.events, Key(s.event.owner, s.event.eventId), s.event);
    assert Keyed(n);
    forall k ensures BalancedAt(n, k) <==> NamesAccount(s) || (k != SettledAccount(s) && k != EntryAccount(s.entry)) {
      assert BalancedAt(b, k);
      SumSet(b.ledger, entryKey, r.value.entry, k);
    }
    assert BalancedAt(n, SettledAccount(s)) <==> NamesAccount(s);
  }

  lemma SettlementKeeps(b: Books, s: Settlement, now: int)
    requires Balanced(b) && NamesAccount(s)
    ensures Balanced(ApplySettlement(b, s, now).0)
  {
    hide Balanced, NamesAccount;
    if ApplySettlement(b, s, now).0 != b { SettlementKeepsIff(b, s, now); }
  }

  lemma UpdateAccountKeeps(b: Books, owner: string, id: string, title: Option<string>, archived: Option<bool>, now: int)
    requires Balanced(b)
    ensures Balanced(UpdateAccount(b, owner, id, title, archived, now).0)
  {
    hide Sum, JsMap.Set, JsMap.Lookup, JsMap.UniqueKeys;
    var (n, r) := UpdateAccount(b, owner, id, title, archived, now);
    if r.Done? {
      JsMap.SetLookup(b.accounts, Key(owner, id), r.value);
      forall k ensures BalancedAt(n, k) { assert BalancedAt(b, k); }
    }
  }
}
