/** The snapshot file: what saving prints, what loading reads, and that the one undoes the other
    whatever order the lines come in. */
module Persistence {
  import opened Types
  import opened Text
  import opened Rounding
  import opened Amounts
  import opened Extraction
  import opened Accounts
  import opened MapOrder
  import opened Portfolios
  import Books
  import M = EngineModel
  import MatchingEngine

  datatype Entry =
    | AccountEntry(record: AccountRecord)
    | CashEntry(client: ClientId, cash: real)
    | HoldingEntry(client: ClientId, symbol: Symbol, quantity: Quantity)
    | PriceEntry(symbol: Symbol, price: Price)

  // ----- one line

  function EntryWords(e: Entry): seq<string> {
    match e
    case AccountEntry(r) => ["ACCOUNT", r.username, PrintInt(r.account.client), r.account.salt, r.account.hash]
    case CashEntry(c, cash) => ["CASH", PrintInt(c), ShowAmount(cash)]
    case HoldingEntry(c, s, q) => ["HOLDING", PrintInt(c), s, PrintInt(q)]
    case PriceEntry(s, p) => ["PRICE", s, ShowAmount(p)]
  }

  function PrintEntry(e: Entry): string { Join(EntryWords(e)) }

  /** The lines of a snapshot, as they are written. */
  lemma LinesAsWritten(e: Entry)
    ensures PrintEntry(e) == match e
      case AccountEntry(r) =>
        "ACCOUNT " + r.username + " " + PrintInt(r.account.client) + " " + r.account.salt + " " + r.account.hash
      case CashEntry(c, cash) => "CASH " + PrintInt(c) + " " + ShowAmount(cash)
      case HoldingEntry(c, s, q) => "HOLDING " + PrintInt(c) + " " + s + " " + PrintInt(q)
      case PriceEntry(s, p) => "PRICE " + s + " " + ShowAmount(p)
  {
    match e
    case AccountEntry(r) => AccountLine(r);
    case CashEntry(c, cash) => CashLine(c, cash);
    case HoldingEntry(c, s, q) => HoldingLine(c, s, q);
    case PriceEntry(s, p) => PriceLine(s, p);
  }

  lemma AccountLine(r: AccountRecord)
    ensures PrintEntry(AccountEntry(r)) ==
      "ACCOUNT " + r.username + " " + PrintInt(r.account.client) + " " + r.account.salt + " " + r.account.hash
  {
    JoinFive("ACCOUNT", r.username, PrintInt(r.account.client), r.account.salt, r.account.hash);
  }

  lemma CashLine(c: ClientId, cash: real)
    ensures PrintEntry(CashEntry(c, cash)) == "CASH " + PrintInt(c) + " " + ShowAmount(cash)
  {
    JoinThree("CASH", PrintInt(c), ShowAmount(cash));
  }

  lemma HoldingLine(c: ClientId, s: Symbol, q: Quantity)
    ensures PrintEntry(HoldingEntry(c, s, q)) == "HOLDING " + PrintInt(c) + " " + s + " " + PrintInt(q)
  {
    JoinFour("HOLDING", PrintInt(c), s, PrintInt(q));
  }

  lemma PriceLine(s: Symbol, p: Price)
    ensures PrintEntry(PriceEntry(s, p)) == "PRICE " + s + " " + ShowAmount(p)
  {
    JoinThree("PRICE", s, ShowAmount(p));
  }

  lemma JoinThree(tag: string, a: string, b: string)
    ensures Join([tag, a, b]) == tag + " " + a + " " + b
  {
    JoinTwo(a, b);
    assert [tag, a, b][1..] == [a, b];
  }

  lemma JoinFour(tag: string, a: string, b: string, c: string)
    ensures Join([tag, a, b, c]) == tag + " " + a + " " + b + " " + c
  {
    JoinThree(a, b, c);
    assert [tag, a, b, c][1..] == [a, b, c];
  }

  lemma JoinFive(tag: string, a: string, b: string, c: string, d: string)
    ensures Join([tag, a, b, c, d]) == tag + " " + a + " " + b + " " + c + " " + d
  {
    JoinFour(a, b, c, d);
    assert [tag, a, b, c, d][1..] == [a, b, c, d];
  }

  /** The text fields stay empty once nothing more can be taken; without an id there is no account. */
  function TakeAccount(fields: Source): Option<Entry> {
    var (username, rest) := TakeWord(fields);
    match TakeNumber(rest, ScanInt)
    case Unset => None
    case Taken(client, rest) =>
      var (salt, rest) := TakeWord(rest);
      Some(AccountEntry(AccountRecord(username, Account(client, salt, TakeWord(rest).0))))
  }

  function TakeCash(fields: Source): Option<Entry> {
    match TakeNumber(fields, ScanInt)
    case Unset => None
    case Taken(client, rest) =>
      match TakeNumber(rest, ScanAmount)
      case Unset => None
      case Taken(cash, _) => Some(CashEntry(client, cash))
  }

  function TakeHolding(fields: Source): Option<Entry> {
    match TakeNumber(fields, ScanInt)
    case Unset => None
    case Taken(client, rest) =>
      var (symbol, rest) := TakeWord(rest);
      match TakeNumber(rest, ScanInt)
      case Unset => None
      case Taken(quantity, _) => Some(HoldingEntry(client, symbol, quantity))
  }

  function TakePrice(fields: Source): Option<Entry> {
    var (symbol, rest) := TakeWord(fields);
    match TakeNumber(rest, ScanAmount)
    case Unset => None
    case Taken(price, _) => Some(PriceEntry(symbol, price))
  }

  /** A tag nobody knows is ignored. So is a line that leaves a number unset, to which the original
      gives no value either. */
  function TakeEntry(tag: string, fields: Source): Option<Entry> {
    if tag == "ACCOUNT" then TakeAccount(fields)
    else if tag == "CASH" then TakeCash(fields)
    else if tag == "HOLDING" then TakeHolding(fields)
    else if tag == "PRICE" then TakePrice(fields)
    else None
  }

  function ReadWords(w: seq<string>): Option<Entry> { if w == [] then None else TakeEntry(w[0], Left(w[1..])) }

  function ReadEntry(line: string): Option<Entry> { ReadWords(Words(line)) }

  ghost predicate EmptyOrWord(w: string) { w == "" || IsWord(w) }

  /** Names without white space in them. Of an account the last fields may be empty. */
  ghost predicate WellNamed(e: Entry) {
    match e
    case AccountEntry(r) =>
      IsWord(r.username) && EmptyOrWord(r.account.salt) && EmptyOrWord(r.account.hash) &&
      (r.account.salt == "" ==> r.account.hash == "")
    case CashEntry(_, _) => true
    case HoldingEntry(_, s, _) => IsWord(s)
    case PriceEntry(s, _) => IsWord(s)
  }

  /** The entry with its amount as it is read back. */
  function Reprinted(e: Entry): Entry {
    match e
    case CashEntry(c, cash) => CashEntry(c, Reread(cash).value)
    case PriceEntry(s, p) => PriceEntry(s, Reread(p).value)
    case _ => e
  }

  /** Every amount in it is a double, as every amount of the original is. */
  ghost predicate HoldsDoubles(e: Entry) {
    match e
    case CashEntry(_, cash) => IsDouble(cash)
    case PriceEntry(_, p) => IsDouble(p)
    case _ => true
  }

  ghost predicate Readable(e: Entry) { WellNamed(e) && HoldsDoubles(e) }

  lemma TagsAreWords()
    ensures IsWord("ACCOUNT") && IsWord("CASH") && IsWord("HOLDING") && IsWord("PRICE")
  {}

  lemma TakesInt(w: string, n: int, rest: seq<string>)
    requires ScanInt(w) == Scanned(n, |w|)
    ensures TakeNumber(Left([w] + rest), ScanInt) == Taken(n, Left(rest))
  {
    assert ([w] + rest)[1..] == rest;
  }

  lemma TakesAmount(w: string)
    ensures TakeNumber(Left([w]), ScanAmount).Taken? && TakeNumber(Left([w]), ScanAmount).value == ScanAmount(w).value
  {}

  lemma TakesWord(w: string, rest: seq<string>)
    ensures TakeWord(Left([w] + rest)) == (w, Left(rest))
  {
    assert ([w] + rest)[1..] == rest;
  }

  lemma AccountTaken(username: string, id: string, client: ClientId, salt: string, hash: string)
    requires ScanInt(id) == Scanned(client, |id|) && (salt == "" ==> hash == "")
    ensures
      TakeAccount(Left([username] + ([id] + NonEmpty([salt, hash])))) ==
      Some(AccountEntry(AccountRecord(username, Account(client, salt, hash))))
  {
    var secrets := NonEmpty([salt, hash]);
    SecretsTaken(salt, hash);
    TakesWord(username, [id] + secrets);
    TakesInt(id, client, secrets);
  }

  lemma SecretsTaken(salt: string, hash: string)
    requires salt == "" ==> hash == ""
    ensures
      var (s, rest) := TakeWord(Left(NonEmpty([salt, hash])));
      s == salt && TakeWord(rest).0 == hash
  {
    assert [salt, hash][1..] == [hash] && [hash][1..] == [] && NonEmpty([]) == [];
    assert NonEmpty([hash]) == if hash == "" then [] else [hash];
    if salt != "" { assert NonEmpty([salt, hash]) == [salt] + NonEmpty([hash]); }
  }

  lemma CashTaken(id: string, client: ClientId, amount: string)
    requires ScanInt(id) == Scanned(client, |id|)
    ensures TakeCash(Left([id, amount])) == Some(CashEntry(client, ScanAmount(amount).value))
  {
    assert [id, amount] == [id] + [amount];
    TakesInt(id, client, [amount]);
    TakesAmount(amount);
  }

  lemma HoldingTaken(id: string, client: ClientId, symbol: Symbol, number: string, quantity: Quantity)
    requires ScanInt(id) == Scanned(client, |id|) && ScanInt(number) == Scanned(quantity, |number|)
    ensures TakeHolding(Left([id, symbol, number])) == Some(HoldingEntry(client, symbol, quantity))
  {
    assert [id, symbol, number] == [id] + ([symbol] + ([number] + []));
    TakesInt(id, client, [symbol] + ([number] + []));
    TakesWord(symbol, [number] + []);
    TakesInt(number, quantity, []);
  }

  lemma PriceTaken(symbol: Symbol, amount: string)
    ensures TakePrice(Left([symbol, amount])) == Some(PriceEntry(symbol, ScanAmount(amount).value))
  {
    assert [symbol, amount] == [symbol] + [amount];
    TakesWord(symbol, [amount]);
    TakesAmount(amount);
  }

  /** The fields of a line after its tag. */
  function Fields(e: Entry): seq<string> { EntryWords(e)[1..] }

  lemma AccountReadsBack(r: AccountRecord, id: string)
    requires WellNamed(AccountEntry(r)) && id == PrintInt(r.account.client)
    ensures TakeAccount(Left(NonEmpty(Fields(AccountEntry(r))))) == Some(AccountEntry(r))
  {
    IntRoundTrip(r.account.client);
    AccountTaken(r.username, id, r.account.client, r.account.salt, r.account.hash);
    AccountFields(r.username, id, r.account.salt, r.account.hash);
    assert Fields(AccountEntry(r)) == [r.username, id, r.account.salt, r.account.hash];
  }

  lemma AccountFields(username: string, id: string, salt: string, hash: string)
    requires username != "" && id != ""
    ensures NonEmpty([username, id, salt, hash]) == [username] + ([id] + NonEmpty([salt, hash]))
  {
    assert [username, id, salt, hash] == [username] + ([id] + [salt, hash]);
    NonEmptyCons(username, [id] + [salt, hash]);
    NonEmptyCons(id, [salt, hash]);
  }

  lemma NonEmptyCons(w: string, rest: seq<string>)
    requires w != ""
    ensures NonEmpty([w] + rest) == [w] + NonEmpty(rest)
  {
    assert ([w] + rest)[1..] == rest;
  }

  lemma {:induction false} AllNonEmpty(words: seq<string>)
    requires forall w :: w in words ==> w != ""
    ensures NonEmpty(words) == words
  {
    if words != [] {
      assert words[0] in words && forall w :: w in words[1..] ==> w in words;
      AllNonEmpty(words[1..]);
    }
  }

  lemma TagsDecide(fields: Source)
    ensures TakeEntry("ACCOUNT", fields) == TakeAccount(fields) && TakeEntry("CASH", fields) == TakeCash(fields)
    ensures TakeEntry("HOLDING", fields) == TakeHolding(fields) && TakeEntry("PRICE", fields) == TakePrice(fields)
  {
    assert "CASH"[0] != "ACCOUNT"[0] && "HOLDING"[0] != "ACCOUNT"[0] && "PRICE"[0] != "ACCOUNT"[0];
    assert "HOLDING"[0] != "CASH"[0] && "PRICE"[0] != "CASH"[0] && "PRICE"[0] != "HOLDING"[0];
  }

  lemma OthersReadBack(e: Entry)
    requires !e.AccountEntry?
    ensures TakeEntry(EntryWords(e)[0], Left(Fields(e))) == Some(Reprinted(e))
  {
    TagsDecide(Left(Fields(e)));
    match e {
      case CashEntry(c, cash) =>
        IntRoundTrip(c);
        CashTaken(PrintInt(c), c, ShowAmount(cash));
        assert Fields(e) == [PrintInt(c), ShowAmount(cash)];
      case HoldingEntry(c, s, q) =>
        IntRoundTrip(c);
        IntRoundTrip(q);
        HoldingTaken(PrintInt(c), c, s, PrintInt(q), q);
        assert Fields(e) == [PrintInt(c), s, PrintInt(q)];
      case PriceEntry(s, p) =>
        PriceTaken(s, ShowAmount(p));
        assert Fields(e) == [s, ShowAmount(p)];
    }
  }

  lemma EntryWordsAreWords(e: Entry)
    requires WellNamed(e)
    ensures forall w :: w in EntryWords(e) ==> EmptyOrWord(w)
    ensures !e.AccountEntry? ==> forall w :: w in EntryWords(e) ==> w != ""
  {
    TagsAreWords();
    match e {
      case AccountEntry(r) => IntIsWord(r.account.client);
      case CashEntry(c, cash) =>
        IntIsWord(c);
        AmountIsWord(cash);
      case HoldingEntry(c, s, q) =>
        IntIsWord(c);
        IntIsWord(q);
      case PriceEntry(s, p) => AmountIsWord(p);
    }
  }

  lemma IntIsWord(n: int)
    ensures IsWord(PrintInt(n))
  {
    IntRoundTrip(n);
  }

  lemma WordsReadBack(e: Entry)
    requires WellNamed(e)
    ensures ReadWords(NonEmpty(EntryWords(e))) == Some(Reprinted(e))
  {
    if e.AccountEntry? {
      AccountReadsBack(e.record, PrintInt(e.record.account.client));
      NonEmptyCons("ACCOUNT", Fields(e));
      assert EntryWords(e) == ["ACCOUNT"] + Fields(e);
      TagsDecide(Left(NonEmpty(Fields(e))));
    } else {
      EntryWordsAreWords(e);
      AllNonEmpty(EntryWords(e));
      OthersReadBack(e);
    }
  }

  /** A line whose names are words is read as the entry it was printed from, with amounts as near as
      seventeen digits bring them. */
  lemma LineReadsBack(e: Entry)
    requires WellNamed(e)
    ensures ReadEntry(PrintEntry(e)) == Some(Reprinted(e)) && '\n' !in PrintEntry(e)
  {
    EntryWordsAreWords(e);
    WordsRoundTrip(EntryWords(e));
    JoinStaysOnItsLine(EntryWords(e));
    WordsReadBack(e);
  }

  lemma ReprintedIsSame(e: Entry)
    ensures Reprinted(e) == e <==> HoldsDoubles(e)
  {
    match e {
      case CashEntry(_, cash) => AmountRoundTrip(cash);
      case PriceEntry(_, p) => AmountRoundTrip(p);
      case _ =>
    }
  }

  /** Whatever the line, the names read from it are words. */
  lemma ReadIsWellNamed(line: string)
    ensures ReadEntry(line).Some? ==> WellNamed(ReadEntry(line).value)
  {
    WordsAreWords(line);
    WordsAreWellNamed(Words(line));
  }

  ghost predicate WordsLeft(s: Source) { s.Left? ==> forall w :: w in s.words ==> IsWord(w) }

  lemma TakenWordIsWord(s: Source)
    requires WordsLeft(s)
    ensures EmptyOrWord(TakeWord(s).0) && WordsLeft(TakeWord(s).1) && (TakeWord(s).0 == "" ==> TakeWord(s).1 == Failed)
  {
    if s.Left? && s.words != [] { assert s.words[0] in s.words && forall w :: w in s.words[1..] ==> w in s.words; }
  }

  lemma WordsLeftByNumber<T>(s: Source, scan: string -> Scanned<T>)
    requires WordsLeft(s)
    ensures TakeNumber(s, scan).Taken? ==> WordsLeft(TakeNumber(s, scan).rest)
  {
    if s.Left? && s.words != [] {
      var w := s.words[0];
      assert w in s.words && forall v :: v in s.words[1..] ==> v in s.words;
      assert forall k :: 0 <= k < |w| ==> IsWord(w[k..]);
    }
  }

  lemma WordsAreWellNamed(words: seq<string>)
    requires forall w :: w in words ==> IsWord(w)
    ensures ReadWords(words).Some? ==> WellNamed(ReadWords(words).value)
  {
    if words != [] {
      var fields := Left(words[1..]);
      TakenAccountIsWellNamed(fields);
      TakenHoldingIsWellNamed(fields);
      TakenPriceIsWellNamed(fields);
      TagDecides(words[0], fields);
    }
  }

  /** Whatever the tag, an entry is taken in one of four ways. */
  lemma TagDecides(tag: string, fields: Source)
    ensures
      var e := TakeEntry(tag, fields);
      e == None || e == TakeAccount(fields) || e == TakeCash(fields) || e == TakeHolding(fields) ||
      e == TakePrice(fields)
  {}

  lemma TakenPriceIsWellNamed(fields: Source)
    requires WordsLeft(fields)
    ensures TakePrice(fields).Some? ==> WellNamed(TakePrice(fields).value)
  {
    TakenWordIsWord(fields);
  }

  lemma TakenAccountIsWellNamed(fields: Source)
    requires WordsLeft(fields)
    ensures TakeAccount(fields).Some? ==> WellNamed(TakeAccount(fields).value)
  {
    var (username, rest) := TakeWord(fields);
    TakenWordIsWord(fields);
    WordsLeftByNumber(rest, ScanInt);
    match TakeNumber(rest, ScanInt)
    case Unset =>
    case Taken(client, rest) =>
      TakenWordIsWord(rest);
      TakenWordIsWord(TakeWord(rest).1);
  }

  lemma TakenHoldingIsWellNamed(fields: Source)
    requires WordsLeft(fields)
    ensures TakeHolding(fields).Some? ==> WellNamed(TakeHolding(fields).value)
  {
    WordsLeftByNumber(fields, ScanInt);
    match TakeNumber(fields, ScanInt)
    case Unset =>
    case Taken(client, rest) => TakenWordIsWord(rest);
  }

  /** An entry is read back from its line if and only if its names are words and its amount is a double. */
  lemma EntryRoundTrip(e: Entry)
    ensures ReadEntry(PrintEntry(e)) == Some(e) <==> Readable(e)
  {
    ReadIsWellNamed(PrintEntry(e));
    if WellNamed(e) {
      LineReadsBack(e);
      ReprintedIsSame(e);
    }
  }

  // ----- the file

  function Printed(entries: seq<Entry>): (lines: seq<string>)
    ensures |lines| == |entries|
  {
    if entries == [] then [] else Printed(entries[..|entries| - 1]) + [PrintEntry(entries[|entries| - 1])]
  }

  function ReadLines(lines: seq<string>): seq<Entry>
    decreases lines, 1
  {
    if lines == [] then [] else ReadThroughLast(lines)
  }

  function ReadThroughLast(lines: seq<string>): seq<Entry>
    requires lines != []
    decreases lines, 0
  {
    var e := ReadEntry(lines[|lines| - 1]);
    ReadLines(lines[..|lines| - 1]) + if e.Some? then [e.value] else []
  }

  function File(entries: seq<Entry>): string { Unlines(Printed(entries)) }

  function AllReprinted(entries: seq<Entry>): (again: seq<Entry>)
    ensures |again| == |entries|
  {
    if entries == [] then []
    else AllReprinted(entries[..|entries| - 1]) + [Reprinted(entries[|entries| - 1])]
  }

  lemma OneMoreLine(lines: seq<string>, e: Entry)
    requires WellNamed(e)
    ensures ReadLines(lines + [PrintEntry(e)]) == ReadLines(lines) + [Reprinted(e)] && '\n' !in PrintEntry(e)
  {
    LineReadsBack(e);
    assert (lines + [PrintEntry(e)])[..|lines|] == lines;
  }

  lemma {:induction false} LinesReadBack(entries: seq<Entry>)
    requires forall e :: e in entries ==> WellNamed(e)
    ensures ReadLines(Printed(entries)) == AllReprinted(entries)
    ensures forall line :: line in Printed(entries) ==> '\n' !in line
  {
    if entries != [] {
      var k := |entries| - 1;
      LinesReadBack(entries[..k]);
      OneMoreLine(Printed(entries[..k]), entries[k]);
    }
  }

  ghost predicate AllDoubles(entries: seq<Entry>) { forall e :: e in entries ==> HoldsDoubles(e) }

  lemma LastHoldsDoubles(entries: seq<Entry>)
    requires entries != []
    ensures AllDoubles(entries) <==> AllDoubles(entries[..|entries| - 1]) && HoldsDoubles(entries[|entries| - 1])
  {
    assert entries == entries[..|entries| - 1] + [entries[|entries| - 1]];
  }

  lemma LastIsSame(again: seq<Entry>, entries: seq<Entry>, last: Entry)
    requires entries != [] && |again| == |entries| - 1
    ensures again + [last] == entries <==> again == entries[..|entries| - 1] && last == entries[|entries| - 1]
  {
    assert entries == entries[..|entries| - 1] + [entries[|entries| - 1]];
    assert (again + [last])[..|again|] == again && (again + [last])[|again|] == last;
  }

  lemma {:induction false} AllReprintedIsSame(entries: seq<Entry>)
    ensures AllReprinted(entries) == entries <==> AllDoubles(entries)
  {
    if entries != [] {
      var init, last := entries[..|entries| - 1], entries[|entries| - 1];
      AllReprintedIsSame(init);
      ReprintedIsSame(last);
      LastHoldsDoubles(entries);
      LastIsSame(AllReprinted(init), entries, Reprinted(last));
    }
  }

  lemma {:induction false} ReadAreWellNamed(lines: seq<string>)
    ensures forall e :: e in ReadLines(lines) ==> WellNamed(e)
  {
    if lines != [] {
      ReadAreWellNamed(lines[..|lines| - 1]);
      ReadIsWellNamed(lines[|lines| - 1]);
    }
  }

  /** A file is read back as the entries printed to it, in their order, if and only if every name is a
      word and every amount a double. */
  lemma FileRoundTrip(entries: seq<Entry>)
    ensures ReadLines(Lines(File(entries))) == entries <==> forall e :: e in entries ==> Readable(e)
  {
    ReadAreWellNamed(Lines(File(entries)));
    if forall e :: e in entries ==> WellNamed(e) {
      LinesReadBack(entries);
      LinesRoundTrip(Printed(entries));
      AllReprintedIsSame(entries);
    }
  }

  // ----- what loading does with the entries

  /** Later entries win. */
  function Collect<K, V>(entries: seq<Entry>, pick: Entry -> Option<(K, V)>): map<K, V> {
    if entries == [] then map[]
    else
      var before, last := Collect(entries[..|entries| - 1], pick), pick(entries[|entries| - 1]);
      if last.Some? then before[last.value.0 := last.value.1] else before
  }

  function PickAccount(e: Entry): Option<(string, Account)> {
    if e.AccountEntry? then Some((e.record.username, e.record.account)) else None
  }

  function PickCash(e: Entry): Option<(ClientId, real)> { if e.CashEntry? then Some((e.client, e.cash)) else None }

  function PickPrice(e: Entry): Option<(Symbol, Price)> { if e.PriceEntry? then Some((e.symbol, e.price)) else None }

  function NextIdAfter(entries: seq<Entry>, next: ClientId): ClientId {
    if entries == [] then next
    else
      var before, e := NextIdAfter(entries[..|entries| - 1], next), entries[|entries| - 1];
      if e.AccountEntry? then NextAfter(before, e.record.account.client) else before
  }

  /** Clients that are not there yet get their cash. */
  function OpenAccounts(ps: PortfolioMap, cash: map<ClientId, real>): PortfolioMap {
    map c | c in ps.Keys + cash.Keys :: if c in ps then ps[c] else Portfolio(cash[c], map[])
  }

  function GrantOne(ps: PortfolioMap, e: Entry): PortfolioMap {
    if e.HoldingEntry? then Grant(EnsureClient(ps, e.client, 0.0), e.client, e.symbol, e.quantity) else ps
  }

  function GrantAll(ps: PortfolioMap, entries: seq<Entry>): PortfolioMap {
    if entries == [] then ps else GrantOne(GrantAll(ps, entries[..|entries| - 1]), entries[|entries| - 1])
  }

  /** A symbol that is not there yet gets an empty book. */
  function WithBooks(books: map<Symbol, Books.Book>, symbols: set<Symbol>): map<Symbol, Books.Book> {
    map s | s in books.Keys + symbols :: if s in books then books[s] else Books.Book([], [])
  }

  function RegisterAll(e: M.Engine, prices: map<Symbol, Price>): M.Engine {
    e.(books := WithBooks(e.books, prices.Keys), lastPrices := e.lastPrices + prices)
  }

  /** First the cash, then the holdings, then the prices, wherever their lines stood. */
  function Restored(e: M.Engine, entries: seq<Entry>): M.Engine {
    var seeded := OpenAccounts(e.portfolios, Collect(entries, PickCash));
    RegisterAll(e.(portfolios := GrantAll(seeded, entries)), Collect(entries, PickPrice))
  }

  // ----- what a snapshot holds

  ghost predicate IsEntryOf(e: Entry, accounts: map<string, Account>, ps: PortfolioMap, prices: map<Symbol, Price>) {
    match e
    case AccountEntry(r) => r.username in accounts && accounts[r.username] == r.account
    case CashEntry(c, cash) => c in ps && ps[c].cash == cash
    case HoldingEntry(c, s, q) => c in ps && s in ps[c].holdings && ps[c].holdings[s] == q && q != 0
    case PriceEntry(s, p) => s in prices && prices[s] == p
  }

  /** The entries are all there is to save, each of them once, in any order. */
  ghost predicate IsSnapshot(
      entries: seq<Entry>, accounts: map<string, Account>, ps: PortfolioMap, prices: map<Symbol, Price>)
  {
    (forall e :: e in entries <==> IsEntryOf(e, accounts, ps, prices)) &&
    (forall e :: multiset(entries)[e] <= 1)
  }

  lemma PermutedSnapshot(
      a: seq<Entry>, b: seq<Entry>, accounts: map<string, Account>, ps: PortfolioMap, prices: map<Symbol, Price>)
    requires IsSnapshot(a, accounts, ps, prices) && multiset(a) == multiset(b)
    ensures IsSnapshot(b, accounts, ps, prices)
  {
    forall e ensures e in a <==> e in b {
      assert e in multiset(a) <==> e in multiset(b);
    }
  }

  lemma {:induction false} CollectSound<K, V>(entries: seq<Entry>, pick: Entry -> Option<(K, V)>, all: map<K, V>)
    requires forall e :: e in entries && pick(e).Some? ==>
      pick(e).value.0 in all && all[pick(e).value.0] == pick(e).value.1
    ensures forall k :: k in Collect(entries, pick) ==> k in all && Collect(entries, pick)[k] == all[k]
    ensures forall e :: e in entries && pick(e).Some? ==> pick(e).value.0 in Collect(entries, pick)
  {
    if entries != [] {
      CollectSound(entries[..|entries| - 1], pick, all);
      assert entries == entries[..|entries| - 1] + [entries[|entries| - 1]];
    }
  }

  lemma CollectsAll<K, V>(entries: seq<Entry>, pick: Entry -> Option<(K, V)>, all: map<K, V>)
    requires forall e :: e in entries && pick(e).Some? ==>
      pick(e).value.0 in all && all[pick(e).value.0] == pick(e).value.1
    requires forall k :: k in all ==> exists e :: e in entries && pick(e) == Some((k, all[k]))
    ensures Collect(entries, pick) == all
  {
    CollectSound(entries, pick, all);
    forall k | k in all ensures k in Collect(entries, pick) {
      var e :| e in entries && pick(e) == Some((k, all[k]));
    }
  }

  // ----- holdings

  function GrantedTo(entries: seq<Entry>, c: ClientId, s: Symbol): Quantity {
    if entries == [] then 0
    else
      var e := entries[|entries| - 1];
      GrantedTo(entries[..|entries| - 1], c, s) +
      if e.HoldingEntry? && e.client == c && e.symbol == s then e.quantity else 0
  }

  lemma {:induction false} GrantsAddUp(ps: PortfolioMap, entries: seq<Entry>, c: ClientId, s: Symbol)
    ensures Shares(GrantAll(ps, entries), c, s) == Shares(ps, c, s) + GrantedTo(entries, c, s)
    ensures Cash(GrantAll(ps, entries), c) == Cash(ps, c)
    ensures c in GrantAll(ps, entries) <==> c in ps || exists e :: e in entries && e.HoldingEntry? && e.client == c
  {
    if entries != [] {
      var init, last := entries[..|entries| - 1], entries[|entries| - 1];
      GrantsAddUp(ps, init, c, s);
      assert entries == init + [last];
    }
  }

  /** Each holding is there once, so what is granted in all is the holding. */
  lemma {:induction false} GrantedIsHeld(entries: seq<Entry>, c: ClientId, s: Symbol, held: Quantity)
    requires forall e :: multiset(entries)[e] <= 1
    requires forall e :: e in entries && e.HoldingEntry? && e.client == c && e.symbol == s ==> e.quantity == held
    ensures GrantedTo(entries, c, s) == if HoldingEntry(c, s, held) in entries then held else 0
  {
    if entries != [] {
      var init, last := entries[..|entries| - 1], entries[|entries| - 1];
      assert entries == init + [last];
      assert multiset(entries) == multiset(init) + multiset{last};
      assert last !in init by { assert multiset(entries)[last] <= 1; }
      forall e ensures multiset(init)[e] <= 1 { assert multiset(entries)[e] <= 1; }
      GrantedIsHeld(init, c, s, held);
    }
  }

  lemma {:induction false} NextIdIsAbove(entries: seq<Entry>, next: ClientId)
    ensures next <= NextIdAfter(entries, next)
    ensures forall e :: e in entries && e.AccountEntry? ==> e.record.account.client < NextIdAfter(entries, next)
  {
    if entries != [] {
      NextIdIsAbove(entries[..|entries| - 1], next);
      assert entries == entries[..|entries| - 1] + [entries[|entries| - 1]];
    }
  }

  // ----- the round trip

  const FRESH_ENGINE := M.Engine(map[], map[], map[], map[], {}, 1)

  /** A snapshot restored into a fresh directory: the same accounts, and the next id above all of theirs. */
  lemma AccountsComeBack(
      entries: seq<Entry>, accounts: map<string, Account>, ps: PortfolioMap, prices: map<Symbol, Price>)
    requires IsSnapshot(entries, accounts, ps, prices)
    ensures Collect(entries, PickAccount) == accounts && IdsBelow(accounts, NextIdAfter(entries, 1))
  {
    forall name | name in accounts
      ensures exists e :: e in entries && PickAccount(e) == Some((name, accounts[name]))
    {
      assert PickAccount(AccountEntry(AccountRecord(name, accounts[name]))) == Some((name, accounts[name]));
    }
    CollectsAll(entries, PickAccount, accounts);
    NextIdIsAbove(entries, 1);
    forall name | name in accounts ensures accounts[name].client < NextIdAfter(entries, 1) {
      assert AccountEntry(AccountRecord(name, accounts[name])) in entries;
    }
  }

  lemma CashAndPricesComeBack(
      entries: seq<Entry>, accounts: map<string, Account>, ps: PortfolioMap, prices: map<Symbol, Price>)
    requires IsSnapshot(entries, accounts, ps, prices)
    ensures Collect(entries, PickCash) == map c | c in ps :: ps[c].cash
    ensures Collect(entries, PickPrice) == prices
  {
    var cash := map c | c in ps :: ps[c].cash;
    forall c | c in cash ensures exists e :: e in entries && PickCash(e) == Some((c, cash[c])) {
      assert PickCash(CashEntry(c, cash[c])) == Some((c, cash[c]));
    }
    CollectsAll(entries, PickCash, cash);
    forall s | s in prices ensures exists e :: e in entries && PickPrice(e) == Some((s, prices[s])) {
      assert PickPrice(PriceEntry(s, prices[s])) == Some((s, prices[s]));
    }
    CollectsAll(entries, PickPrice, prices);
  }

  /** Restored into a fresh engine: the same clients, cash, holdings and prices. */
  lemma EngineComesBack(
      entries: seq<Entry>, accounts: map<string, Account>, ps: PortfolioMap, prices: map<Symbol, Price>)
    requires IsSnapshot(entries, accounts, ps, prices)
    ensures
      var restored := Restored(FRESH_ENGINE, entries);
      restored.lastPrices == prices && restored.portfolios.Keys == ps.Keys &&
      (forall c :: Cash(restored.portfolios, c) == Cash(ps, c)) &&
      (forall c, s :: Shares(restored.portfolios, c, s) == Shares(ps, c, s))
  {
    CashAndPricesComeBack(entries, accounts, ps, prices);
    var seeded := OpenAccounts(map[], Collect(entries, PickCash));
    var after := Restored(FRESH_ENGINE, entries).portfolios;
    assert after == GrantAll(seeded, entries);
    forall c ensures c in after <==> c in ps { GrantsAddUp(seeded, entries, c, ""); }
    forall c ensures Cash(after, c) == Cash(ps, c) { GrantsAddUp(seeded, entries, c, ""); }
    assert after.Keys == ps.Keys by {
      assert forall c :: c in after.Keys <==> c in after;
      assert forall c :: c in after <==> c in ps;
    }
    forall c, s ensures Shares(after, c, s) == Shares(ps, c, s) {
      GrantsAddUp(seeded, entries, c, s);
      GrantedIsHeld(entries, c, s, Shares(ps, c, s));
    }
  }

  /** Every name to be printed is a word, and every amount a double. */
  ghost predicate AllReadable(accounts: map<string, Account>, ps: PortfolioMap, prices: map<Symbol, Price>) {
    forall e :: IsEntryOf(e, accounts, ps, prices) ==> Readable(e)
  }

  /** What a saved file reads back as is all that was saved if and only if every name saved is a word
      and every amount a double. */
  lemma SavedIsReadBack(
      entries: seq<Entry>, accounts: map<string, Account>, ps: PortfolioMap, prices: map<Symbol, Price>)
    requires IsSnapshot(entries, accounts, ps, prices)
    ensures IsSnapshot(ReadLines(Lines(File(entries))), accounts, ps, prices) <==> AllReadable(accounts, ps, prices)
  {
    var read := ReadLines(Lines(File(entries)));
    FileRoundTrip(entries);
    if IsSnapshot(read, accounts, ps, prices) {
      ReadAreWellNamed(Lines(File(entries)));
      assert forall e :: e in entries ==> e in read;
      LinesReadBack(entries);
      LinesRoundTrip(Printed(entries));
      forall e | IsEntryOf(e, accounts, ps, prices) ensures Readable(e) {
        ReprintedIsIn(entries, e);
        SameEntry(e, accounts, ps, prices);
      }
    }
  }

  lemma {:induction false} ReprintedIsIn(entries: seq<Entry>, e: Entry)
    requires e in entries
    ensures Reprinted(e) in AllReprinted(entries)
  {
    var init, last := entries[..|entries| - 1], entries[|entries| - 1];
    assert entries == init + [last];
    if e in init { ReprintedIsIn(init, e); }
  }

  /** A client has one cash amount and a symbol one price. */
  lemma SameEntry(e: Entry, accounts: map<string, Account>, ps: PortfolioMap, prices: map<Symbol, Price>)
    requires IsEntryOf(e, accounts, ps, prices) && IsEntryOf(Reprinted(e), accounts, ps, prices)
    ensures HoldsDoubles(e)
  {
    assert Reprinted(e) == e;
    ReprintedIsSame(e);
  }

  // ----- what must hold of the contents

  /** Names without white space in them. A salt or a hash may be empty, a salt only together with its hash. */
  ghost predicate NamesAreWords(accounts: map<string, Account>, ps: PortfolioMap, prices: map<Symbol, Price>) {
    (forall name :: name in accounts ==> WellNamed(AccountEntry(AccountRecord(name, accounts[name])))) &&
    (forall c, s :: c in ps && s in ps[c].holdings && ps[c].holdings[s] != 0 ==> IsWord(s)) &&
    (forall s :: s in prices ==> IsWord(s))
  }

  ghost predicate AmountsAreDoubles(ps: PortfolioMap, prices: map<Symbol, Price>) {
    (forall c :: c in ps ==> IsDouble(ps[c].cash)) && (forall s :: s in prices ==> IsDouble(prices[s]))
  }

  /** Being readable, said of what is saved and not of the entries. */
  lemma ReadableContents(accounts: map<string, Account>, ps: PortfolioMap, prices: map<Symbol, Price>)
    ensures AllReadable(accounts, ps, prices) <==> NamesAreWords(accounts, ps, prices) && AmountsAreDoubles(ps, prices)
  {
    if AllReadable(accounts, ps, prices) {
      forall name | name in accounts ensures WellNamed(AccountEntry(AccountRecord(name, accounts[name]))) {
        assert IsEntryOf(AccountEntry(AccountRecord(name, accounts[name])), accounts, ps, prices);
      }
      forall c | c in ps ensures IsDouble(ps[c].cash) {
        assert IsEntryOf(CashEntry(c, ps[c].cash), accounts, ps, prices);
      }
      forall c, s | c in ps && s in ps[c].holdings && ps[c].holdings[s] != 0 ensures IsWord(s) {
        assert IsEntryOf(HoldingEntry(c, s, ps[c].holdings[s]), accounts, ps, prices);
      }
      forall s | s in prices ensures IsWord(s) && IsDouble(prices[s]) {
        assert IsEntryOf(PriceEntry(s, prices[s]), accounts, ps, prices);
      }
    }
  }

  /** A whole amount below 2^53. */
  predicate IsWhole(x: real) { x == x.Floor as real && -9_007_199_254_740_992 < x.Floor < 9_007_199_254_740_992 }

  /** Whole amounts are always readable. */
  lemma WholeAmountsAreReadable(accounts: map<string, Account>, ps: PortfolioMap, prices: map<Symbol, Price>)
    requires NamesAreWords(accounts, ps, prices)
    requires (forall c :: c in ps ==> IsWhole(ps[c].cash)) && forall s :: s in prices ==> IsWhole(prices[s])
    ensures AllReadable(accounts, ps, prices)
  {
    forall x | IsWhole(x) ensures IsDouble(x) { WholeIsDouble(x.Floor); }
    ReadableContents(accounts, ps, prices);
  }

  // ----- what any file can restore

  /** Whatever the line, the amounts read from it are doubles. */
  lemma ReadHoldsDoubles(line: string)
    ensures ReadEntry(line).Some? ==> HoldsDoubles(ReadEntry(line).value)
  {
    forall s ensures IsDouble(ScanAmount(s).value) { ScannedIsDouble(s); }
  }

  lemma {:induction false} ReadAreReadable(lines: seq<string>)
    ensures forall e :: e in ReadLines(lines) ==> Readable(e)
  {
    if lines != [] {
      ReadAreReadable(lines[..|lines| - 1]);
      ReadIsWellNamed(lines[|lines| - 1]);
      ReadHoldsDoubles(lines[|lines| - 1]);
    }
  }

  /** What was collected was picked from some entry. */
  lemma {:induction false} CollectedFrom<K, V>(entries: seq<Entry>, pick: Entry -> Option<(K, V)>, k: K)
    returns (e: Entry)
    requires k in Collect(entries, pick)
    ensures e in entries && pick(e) == Some((k, Collect(entries, pick)[k]))
  {
    var last := entries[|entries| - 1];
    if pick(last).Some? && pick(last).value.0 == k {
      e := last;
    } else {
      e := CollectedFrom(entries[..|entries| - 1], pick, k);
    }
  }

  lemma {:induction false} GrantedFrom(entries: seq<Entry>, c: ClientId, s: Symbol) returns (e: Entry)
    requires GrantedTo(entries, c, s) != 0
    ensures e in entries && e.HoldingEntry? && e.symbol == s
  {
    var last := entries[|entries| - 1];
    if last.HoldingEntry? && last.client == c && last.symbol == s {
      e := last;
    } else {
      e := GrantedFrom(entries[..|entries| - 1], c, s);
    }
  }

  /** Read into a fresh directory and a fresh engine, the entries restore the accounts, with the next id
      above all of theirs, and the clients with their cash, holdings and the prices. */
  ghost predicate Restores(
      read: seq<Entry>, accounts: map<string, Account>, ps: PortfolioMap, prices: map<Symbol, Price>)
  {
    var restored := Restored(FRESH_ENGINE, read);
    Collect(read, PickAccount) == accounts && IdsBelow(accounts, NextIdAfter(read, 1)) &&
    restored.lastPrices == prices && restored.portfolios.Keys == ps.Keys &&
    (forall c :: Cash(restored.portfolios, c) == Cash(ps, c)) &&
    (forall c, s :: Shares(restored.portfolios, c, s) == Shares(ps, c, s))
  }

  lemma RestoredNames(read: seq<Entry>, accounts: map<string, Account>, ps: PortfolioMap, prices: map<Symbol, Price>)
    requires Restores(read, accounts, ps, prices) && forall e :: e in read ==> Readable(e)
    ensures NamesAreWords(accounts, ps, prices)
  {
    forall name | name in accounts ensures WellNamed(AccountEntry(AccountRecord(name, accounts[name]))) {
      var e := CollectedFrom(read, PickAccount, name);
      assert e == AccountEntry(AccountRecord(name, accounts[name]));
    }
    forall c, s | c in ps && s in ps[c].holdings && ps[c].holdings[s] != 0 ensures IsWord(s) {
      var seeded := OpenAccounts(map[], Collect(read, PickCash));
      GrantsAddUp(seeded, read, c, s);
      assert Shares(Restored(FRESH_ENGINE, read).portfolios, c, s) == Shares(ps, c, s) != 0;
      var e := GrantedFrom(read, c, s);
    }
    forall s | s in prices ensures IsWord(s) { var e := CollectedFrom(read, PickPrice, s); }
  }

  lemma RestoredAmounts(read: seq<Entry>, accounts: map<string, Account>, ps: PortfolioMap, prices: map<Symbol, Price>)
    requires Restores(read, accounts, ps, prices) && forall e :: e in read ==> Readable(e)
    ensures AmountsAreDoubles(ps, prices)
  {
    forall c | c in ps ensures IsDouble(ps[c].cash) {
      var cash := Collect(read, PickCash);
      GrantsAddUp(OpenAccounts(map[], cash), read, c, "");
      assert Cash(Restored(FRESH_ENGINE, read).portfolios, c) == Cash(ps, c);
      if c in cash { var e := CollectedFrom(read, PickCash, c); }
    }
    forall s | s in prices ensures IsDouble(prices[s]) { var e := CollectedFrom(read, PickPrice, s); }
  }

  /** Saving, shuffling the lines of the file in any way, and loading them into a fresh directory and
      engine restores everything if and only if every name is a word and every amount a double. */
  lemma SnapshotRoundTrip(
      entries: seq<Entry>, shuffled: seq<Entry>,
      accounts: map<string, Account>, ps: PortfolioMap, prices: map<Symbol, Price>)
    requires IsSnapshot(entries, accounts, ps, prices) && multiset(shuffled) == multiset(entries)
    ensures Restores(ReadLines(Lines(File(shuffled))), accounts, ps, prices) <==> AllReadable(accounts, ps, prices)
  {
    var read := ReadLines(Lines(File(shuffled)));
    if AllReadable(accounts, ps, prices) {
      PermutedSnapshot(entries, shuffled, accounts, ps, prices);
      SavedIsReadBack(shuffled, accounts, ps, prices);
      AccountsComeBack(read, accounts, ps, prices);
      EngineComesBack(read, accounts, ps, prices);
    }
    if Restores(read, accounts, ps, prices) {
      ReadAreReadable(Lines(File(shuffled)));
      RestoredNames(read, accounts, ps, prices);
      RestoredAmounts(read, accounts, ps, prices);
      ReadableContents(accounts, ps, prices);
    }
  }

  lemma JoinTwo(a: string, b: string)
    ensures Join([a, b]) == a + " " + b
  {
    assert [a, b][1..] == [b];
  }

  lemma SpaceSeparates(tag: string, a: string, b: string, w: string)
    ensures Join([tag, a + " " + b, w]) == Join([tag, a, b, w])
  {
    assert [tag, a + " " + b, w][1..] == [a + " " + b, w];
    assert [tag, a, b, w][1..] == [a, b, w] && [a, b, w][1..] == [b, w];
    JoinTwo(a + " " + b, w);
    JoinTwo(b, w);
    assert a + " " + b + " " + w == a + " " + (b + " " + w);
  }

  lemma FourWords(tag: string, a: string, b: string, w: string)
    requires IsWord(tag) && IsWord(a) && IsWord(b) && IsWord(w)
    ensures ReadEntry(Join([tag, a, b, w])) == TakeEntry(tag, Left([a, b, w]))
  {
    WordsRoundTrip([tag, a, b, w]);
    AllNonEmpty([tag, a, b, w]);
    assert [tag, a, b, w][1..] == [a, b, w];
  }

  lemma PriceTakenFirst(symbol: Symbol, w: string, more: string)
    ensures TakePrice(Left([symbol, w, more])) == Some(PriceEntry(symbol, ScanAmount(w).value))
  {
    assert [symbol, w, more] == [symbol] + [w, more];
    TakesWord(symbol, [w, more]);
  }

  lemma ReadAsPrice(symbol: Symbol, w: string, more: string)
    requires IsWord(symbol) && IsWord(w) && IsWord(more)
    ensures ReadEntry(Join(["PRICE", symbol, w, more])) == Some(PriceEntry(symbol, ScanAmount(w).value))
  {
    TagsAreWords();
    FourWords("PRICE", symbol, w, more);
    PriceTakenFirst(symbol, w, more);
    TagsDecide(Left([symbol, w, more]));
  }

  /** A symbol of two words: the first is read as the symbol and the second as the price. */
  lemma SpaceIsMisread(a: string, b: string, p: Price)
    requires IsWord(a) && IsWord(b)
    ensures ReadEntry(PrintEntry(PriceEntry(a + " " + b, p))) == Some(PriceEntry(a, ScanAmount(b).value))
  {
    AmountIsWord(p);
    SpaceSeparates("PRICE", a, b, ShowAmount(p));
    ReadAsPrice(a, b, ShowAmount(p));
  }

  /** Whatever the price of `A B`, its line says that `A` is at nothing. */
  lemma NameWithSpaceIsMisread(p: Price)
    ensures ReadEntry(PrintEntry(PriceEntry("A B", p))) == Some(PriceEntry("A", 0.0))
  {
    assert "A" + " " + "B" == "A B";
    assert IsWord("A") && IsWord("B");
    SpaceIsMisread("A", "B", p);
  }

  // ----- saving

  /** Two snapshots of different things together are a snapshot of both. */
  lemma SnapshotsJoin(
      a: seq<Entry>, b: seq<Entry>,
      accountsA: map<string, Account>, psA: PortfolioMap, pricesA: map<Symbol, Price>,
      accountsB: map<string, Account>, psB: PortfolioMap, pricesB: map<Symbol, Price>)
    requires IsSnapshot(a, accountsA, psA, pricesA) && IsSnapshot(b, accountsB, psB, pricesB)
    requires accountsA.Keys !! accountsB.Keys && psA.Keys !! psB.Keys && pricesA.Keys !! pricesB.Keys
    ensures IsSnapshot(a + b, accountsA + accountsB, psA + psB, pricesA + pricesB)
  {
    forall e
      ensures e in a + b <==> IsEntryOf(e, accountsA + accountsB, psA + psB, pricesA + pricesB)
      ensures multiset(a + b)[e] <= 1
    {
      assert e in a + b <==> e in a || e in b;
      assert !(IsEntryOf(e, accountsA, psA, pricesA) && IsEntryOf(e, accountsB, psB, pricesB));
      assert multiset(a + b)[e] == multiset(a)[e] + multiset(b)[e];
      assert e in a <==> e in multiset(a);
      assert e in b <==> e in multiset(b);
    }
  }

  lemma PrintedAppend(entries: seq<Entry>, e: Entry)
    ensures File(entries + [e]) == File(entries) + PrintEntry(e) + "\n"
  {
    assert (entries + [e])[..|entries|] == entries;
    UnlinesAppend(Printed(entries), PrintEntry(e));
  }

  method Write(out: string, ghost written: seq<Entry>, e: Entry) returns (out': string)
    requires out == File(written)
    ensures out' == File(written + [e])
  {
    PrintedAppend(written, e);
    out' := out + PrintEntry(e) + "\n";
  }

  // ----- the lines of each section

  lemma CashAlone(c: ClientId, cash: real)
    ensures IsSnapshot([CashEntry(c, cash)], map[], map[c := Portfolio(cash, map[])], map[])
  {}

  lemma JoinHolding(entries: seq<Entry>, c: ClientId, cash: real, done: map<Symbol, Quantity>, s: Symbol, q: Quantity)
    requires IsSnapshot(entries, map[], map[c := Portfolio(cash, done)], map[]) && s !in done
    ensures IsSnapshot(
      if q != 0 then entries + [HoldingEntry(c, s, q)] else entries,
      map[], map[c := Portfolio(cash, done[s := q])], map[])
  {
    var e := HoldingEntry(c, s, q);
    assert e !in entries;
    var more := if q != 0 then entries + [e] else entries;
    forall x
      ensures x in more <==> IsEntryOf(x, map[], map[c := Portfolio(cash, done[s := q])], map[])
      ensures multiset(more)[x] <= 1
    {
      assert x in more <==> x in entries || (q != 0 && x == e);
    }
  }

  lemma JoinPortfolio(
      entries: seq<Entry>, more: seq<Entry>,
      accounts: map<string, Account>, saved: PortfolioMap, c: ClientId, p: Portfolio)
    requires IsSnapshot(entries, accounts, saved, map[]) && IsSnapshot(more, map[], map[c := p], map[]) && c !in saved
    ensures IsSnapshot(entries + more, accounts, saved[c := p], map[])
  {
    SnapshotsJoin(entries, more, accounts, saved, map[], map[], map[c := p], map[]);
    assert accounts + map[] == accounts && saved + map[c := p] == saved[c := p];
  }

  lemma JoinPrice(
      entries: seq<Entry>, accounts: map<string, Account>, ps: PortfolioMap, priced: map<Symbol, Price>,
      s: Symbol, p: Price)
    requires IsSnapshot(entries, accounts, ps, priced) && s !in priced
    ensures IsSnapshot(entries + [PriceEntry(s, p)], accounts, ps, priced[s := p])
  {
    assert IsSnapshot([PriceEntry(s, p)], map[], map[], map[s := p]);
    SnapshotsJoin(entries, [PriceEntry(s, p)], accounts, ps, priced, map[], map[], map[s := p]);
    assert accounts + map[] == accounts && ps + map[] == ps && priced + map[s := p] == priced[s := p];
  }

  lemma JoinAccount(entries: seq<Entry>, done: map<string, Account>, r: AccountRecord)
    requires IsSnapshot(entries, done, map[], map[]) && r.username !in done
    ensures IsSnapshot(entries + [AccountEntry(r)], done[r.username := r.account], map[], map[])
  {
    var one := map[r.username := r.account];
    assert IsSnapshot([AccountEntry(r)], one, map[], map[]);
    SnapshotsJoin(entries, [AccountEntry(r)], done, map[], map[], one, map[], map[]);
    assert done + one == done[r.username := r.account];
  }

  /** So far the cash and these holdings of a client have been written. */
  ghost predicate HoldingsWritten(entries: seq<Entry>, c: ClientId, p: Portfolio, symbols: seq<Symbol>) {
    (forall s :: s in symbols ==> s in p.holdings) &&
    IsSnapshot(entries, map[], map[c := Portfolio(p.cash, Part(p.holdings, symbols))], map[])
  }

  lemma AllHoldingsWritten(entries: seq<Entry>, c: ClientId, p: Portfolio, symbols: seq<Symbol>)
    requires HoldingsWritten(entries, c, p, symbols[..|symbols|]) && forall s :: s in symbols <==> s in p.holdings
    ensures IsSnapshot(entries, map[], map[c := p], map[])
  {
    PartIsWhole(p.holdings, symbols);
  }

  lemma NextHoldingWritten(
      entries: seq<Entry>, entries': seq<Entry>, c: ClientId, p: Portfolio, symbols: seq<Symbol>, i: nat, s: Symbol)
    requires Distinct(symbols) && i < |symbols| && s == symbols[i] && forall s :: s in symbols ==> s in p.holdings
    requires HoldingsWritten(entries, c, p, symbols[..i])
    requires entries' == if p.holdings[s] != 0 then entries + [HoldingEntry(c, s, p.holdings[s])] else entries
    ensures HoldingsWritten(entries', c, p, symbols[..i + 1])
  {
    PartGrows(p.holdings, symbols, i);
    JoinHolding(entries, c, p.cash, Part(p.holdings, symbols[..i]), s, p.holdings[s]);
  }

  /** A holding of zero is not written. */
  method SaveHolding(
      out: string, ghost written: seq<Entry>, c: ClientId, p: Portfolio, symbols: seq<Symbol>, i: nat,
      ghost entries: seq<Entry>)
    returns (out': string, ghost entries': seq<Entry>)
    requires Distinct(symbols) && i < |symbols| && forall s :: s in symbols ==> s in p.holdings
    requires out == File(written + entries) && HoldingsWritten(entries, c, p, symbols[..i])
    ensures out' == File(written + entries') && HoldingsWritten(entries', c, p, symbols[..i + 1])
  {
    var s := symbols[i];
    var q := p.holdings[s];
    out', entries' := out, entries;
    if q != 0 {
      out' := Write(out, written + entries, HoldingEntry(c, s, q));
      entries' := entries + [HoldingEntry(c, s, q)];
      assert (written + entries) + [HoldingEntry(c, s, q)] == written + entries';
    }
    NextHoldingWritten(entries, entries', c, p, symbols, i, s);
  }

  /** One client's lines: the cash and every holding that is not zero. */
  method SavePortfolio(out: string, ghost written: seq<Entry>, c: ClientId, p: Portfolio)
    returns (out': string, ghost more: seq<Entry>)
    requires out == File(written)
    ensures out' == File(written + more) && IsSnapshot(more, map[], map[c := p], map[])
  {
    more := [CashEntry(c, p.cash)];
    out' := Write(out, written, CashEntry(c, p.cash));
    CashAlone(c, p.cash);
    var symbols := InSomeOrder(p.holdings.Keys);
    for i := 0 to |symbols|
      invariant HoldingsWritten(more, c, p, symbols[..i]) && out' == File(written + more)
    {
      out', more := SaveHolding(out', written, c, p, symbols, i, more);
    }
    AllHoldingsWritten(more, c, p, symbols);
  }

  method SaveAccount(out: string, ghost written: seq<Entry>, r: AccountRecord, ghost done: map<string, Account>)
    returns (out': string, ghost written': seq<Entry>)
    requires out == File(written) && IsSnapshot(written, done, map[], map[]) && r.username !in done
    ensures out' == File(written') && IsSnapshot(written', done[r.username := r.account], map[], map[])
  {
    out' := Write(out, written, AccountEntry(r));
    JoinAccount(written, done, r);
    written' := written + [AccountEntry(r)];
  }

  ghost predicate AccountsWritten(entries: seq<Entry>, accounts: map<string, Account>, names: seq<string>) {
    (forall name :: name in names ==> name in accounts) && IsSnapshot(entries, Part(accounts, names), map[], map[])
  }

  method SaveAccounts(directory: ClientDirectory) returns (out: string, ghost written: seq<Entry>)
    ensures out == File(written) && IsSnapshot(written, directory.accounts, map[], map[])
  {
    var records, names := directory.ExportAccounts();
    out, written := "", [];
    for i := 0 to |records|
      invariant out == File(written) && AccountsWritten(written, directory.accounts, names[..i])
    {
      PartGrows(directory.accounts, names, i);
      out, written := SaveAccount(out, written, records[i], Part(directory.accounts, names[..i]));
    }
    PartIsWhole(directory.accounts, names);
  }

  method SavePortfolios(
      out: string, ghost written: seq<Entry>, ghost accounts: map<string, Account>, ps: PortfolioMap)
    returns (out': string, ghost written': seq<Entry>)
    requires out == File(written) && IsSnapshot(written, accounts, map[], map[])
    ensures out' == File(written') && IsSnapshot(written', accounts, ps, map[])
  {
    out', written' := out, written;
    var clients := InSomeOrder(ps.Keys);
    for i := 0 to |clients|
      invariant out' == File(written') && IsSnapshot(written', accounts, Part(ps, clients[..i]), map[])
    {
      var c := clients[i];
      ghost var more;
      out', more := SavePortfolio(out', written', c, ps[c]);
      PartGrows(ps, clients, i);
      JoinPortfolio(written', more, accounts, Part(ps, clients[..i]), c, ps[c]);
      written' := written' + more;
    }
    PartIsWhole(ps, clients);
  }

  method SavePrices(
      out: string, ghost written: seq<Entry>, ghost accounts: map<string, Account>, ghost ps: PortfolioMap,
      prices: map<Symbol, Price>)
    returns (out': string, ghost written': seq<Entry>)
    requires out == File(written) && IsSnapshot(written, accounts, ps, map[])
    ensures out' == File(written') && IsSnapshot(written', accounts, ps, prices)
  {
    out', written' := out, written;
    var symbols := InSomeOrder(prices.Keys);
    for i := 0 to |symbols|
      invariant out' == File(written') && IsSnapshot(written', accounts, ps, Part(prices, symbols[..i]))
    {
      var s := symbols[i];
      out' := Write(out', written', PriceEntry(s, prices[s]));
      PartGrows(prices, symbols, i);
      JoinPrice(written', accounts, ps, Part(prices, symbols[..i]), s, prices[s]);
      written' := written' + [PriceEntry(s, prices[s])];
    }
    PartIsWhole(prices, symbols);
  }

  /** Accounts, then each client's lines, then the prices; maps are gone through in any order. What the
      file reads back as is everything there was to save, once, if and only if it all is readable. */
  method Save(directory: ClientDirectory, ps: PortfolioMap, prices: map<Symbol, Price>) returns (out: string)
    ensures exists written :: out == File(written) && IsSnapshot(written, directory.accounts, ps, prices)
    ensures
      IsSnapshot(ReadLines(Lines(out)), directory.accounts, ps, prices) <==> AllReadable(directory.accounts, ps, prices)
  {
    ghost var written;
    out, written := SaveAccounts(directory);
    out, written := SavePortfolios(out, written, directory.accounts, ps);
    out, written := SavePrices(out, written, directory.accounts, ps, prices);
    SavedIsReadBack(written, directory.accounts, ps, prices);
  }

  // ----- loading

  function HoldingsIn(entries: seq<Entry>): (holdings: seq<Entry>)
    ensures forall e :: e in holdings ==> e.HoldingEntry?
  {
    if entries == [] then []
    else
      var e := entries[|entries| - 1];
      HoldingsIn(entries[..|entries| - 1]) + if e.HoldingEntry? then [e] else []
  }

  lemma GrantMore(ps: PortfolioMap, entries: seq<Entry>, e: Entry)
    ensures GrantAll(ps, entries + [e]) == GrantOne(GrantAll(ps, entries), e)
  {
    assert (entries + [e])[..|entries|] == entries;
  }

  lemma HoldingsMore(entries: seq<Entry>, e: Entry)
    ensures HoldingsIn(entries + [e]) == if e.HoldingEntry? then HoldingsIn(entries) + [e] else HoldingsIn(entries)
  {
    assert (entries + [e])[..|entries|] == entries;
  }

  lemma {:induction false} OnlyHoldingsGrant(ps: PortfolioMap, entries: seq<Entry>)
    ensures GrantAll(ps, HoldingsIn(entries)) == GrantAll(ps, entries)
  {
    if entries != [] {
      var init, last := entries[..|entries| - 1], entries[|entries| - 1];
      OnlyHoldingsGrant(ps, init);
      assert entries == init + [last];
      GrantMore(ps, init, last);
      HoldingsMore(init, last);
      if last.HoldingEntry? { GrantMore(ps, HoldingsIn(init), last); }
    }
  }

  lemma CollectMore<K, V>(entries: seq<Entry>, e: Entry, pick: Entry -> Option<(K, V)>)
    ensures
      var before := Collect(entries, pick);
      Collect(entries + [e], pick) == if pick(e).Some? then before[pick(e).value.0 := pick(e).value.1] else before
  {
    assert (entries + [e])[..|entries|] == entries;
  }

  /** What has been put by, and what is in the directory, after reading these entries. */
  ghost predicate PutBy(read: seq<Entry>, cash: map<ClientId, real>, holdings: seq<Entry>, prices: map<Symbol, Price>) {
    cash == Collect(read, PickCash) && holdings == HoldingsIn(read) && prices == Collect(read, PickPrice)
  }

  ghost predicate Imported(
      read: seq<Entry>, accounts0: map<string, Account>, next0: ClientId,
      accounts: map<string, Account>, next: ClientId)
  {
    accounts == accounts0 + Collect(read, PickAccount) && next == NextIdAfter(read, next0)
  }

  lemma PutByMore(
      read: seq<Entry>, e: Entry, cash: map<ClientId, real>, holdings: seq<Entry>, prices: map<Symbol, Price>)
    requires PutBy(read, cash, holdings, prices)
    ensures PutBy(
      read + [e], if e.CashEntry? then cash[e.client := e.cash] else cash,
      if e.HoldingEntry? then holdings + [e] else holdings,
      if e.PriceEntry? then prices[e.symbol := e.price] else prices)
  {
    CollectMore(read, e, PickCash);
    CollectMore(read, e, PickPrice);
    HoldingsMore(read, e);
  }

  lemma PutOver<K, V>(all: map<K, V>, some: map<K, V>, k: K, v: V)
    ensures all + some[k := v] == (all + some)[k := v]
  {}

  lemma AccountImported(
      read: seq<Entry>, r: AccountRecord, accounts0: map<string, Account>, next0: ClientId,
      accounts: map<string, Account>, next: ClientId)
    requires Imported(read, accounts0, next0, accounts, next)
    ensures Imported(
      read + [AccountEntry(r)], accounts0, next0, accounts[r.username := r.account], NextAfter(next, r.account.client))
  {
    CollectMore(read, AccountEntry(r), PickAccount);
    PutOver(accounts0, Collect(read, PickAccount), r.username, r.account);
    assert (read + [AccountEntry(r)])[..|read|] == read;
  }

  lemma NothingImported(
      read: seq<Entry>, e: Entry, accounts0: map<string, Account>, next0: ClientId,
      accounts: map<string, Account>, next: ClientId)
    requires Imported(read, accounts0, next0, accounts, next) && !e.AccountEntry?
    ensures Imported(read + [e], accounts0, next0, accounts, next)
  {
    CollectMore(read, e, PickAccount);
    assert (read + [e])[..|read|] == read;
  }

  /** An account goes straight into the directory, anything else is put by. */
  method TakeIn(
      e: Entry, directory: ClientDirectory, cash: map<ClientId, real>, holdings: seq<Entry>, prices: map<Symbol, Price>,
      ghost read: seq<Entry>, ghost accounts0: map<string, Account>, ghost next0: ClientId)
    returns (cash': map<ClientId, real>, holdings': seq<Entry>, prices': map<Symbol, Price>)
    requires directory.Valid() && PutBy(read, cash, holdings, prices)
    requires Imported(read, accounts0, next0, directory.accounts, directory.nextClientId)
    modifies directory
    ensures directory.Valid() && PutBy(read + [e], cash', holdings', prices')
    ensures Imported(read + [e], accounts0, next0, directory.accounts, directory.nextClientId)
  {
    PutByMore(read, e, cash, holdings, prices);
    cash', holdings', prices' := cash, holdings, prices;
    match e {
      case AccountEntry(r) =>
        AccountImported(read, r, accounts0, next0, directory.accounts, directory.nextClientId);
        directory.ImportAccount(r);
      case CashEntry(c, amount) =>
        NothingImported(read, e, accounts0, next0, directory.accounts, directory.nextClientId);
        cash' := cash[c := amount];
      case HoldingEntry(_, _, _) =>
        NothingImported(read, e, accounts0, next0, directory.accounts, directory.nextClientId);
        holdings' := holdings + [e];
      case PriceEntry(s, p) =>
        NothingImported(read, e, accounts0, next0, directory.accounts, directory.nextClientId);
        prices' := prices[s := p];
    }
  }

  /** Goes through the lines of a file. */
  method ReadSnapshot(lines: seq<string>, directory: ClientDirectory)
    returns (cash: map<ClientId, real>, holdings: seq<Entry>, prices: map<Symbol, Price>)
    requires directory.Valid()
    modifies directory
    ensures directory.Valid() && PutBy(ReadLines(lines), cash, holdings, prices)
    ensures Imported(
      ReadLines(lines), old(directory.accounts), old(directory.nextClientId),
      directory.accounts, directory.nextClientId)
  {
    cash, holdings, prices := map[], [], map[];
    ghost var read: seq<Entry> := [];
    for i := 0 to |lines|
      invariant directory.Valid() && read == ReadLines(lines[..i]) && PutBy(read, cash, holdings, prices)
      invariant Imported(
        read, old(directory.accounts), old(directory.nextClientId), directory.accounts, directory.nextClientId)
    {
      assert lines[..i + 1][..i] == lines[..i];
      var entry := ReadEntry(lines[i]);
      if entry.Some? {
        cash, holdings, prices := TakeIn(
          entry.value, directory, cash, holdings, prices, read, old(directory.accounts), old(directory.nextClientId));
        read := read + [entry.value];
      }
    }
    assert lines[..|lines|] == lines;
  }

  method OpenAll(engine: MatchingEngine.MatchingEngine, cash: map<ClientId, real>)
    requires engine.Valid()
    modifies engine`portfolios, engine`model
    ensures engine.Valid()
    ensures engine.model == old(engine.model).(portfolios := OpenAccounts(old(engine.model).portfolios, cash))
  {
    var clients := InSomeOrder(cash.Keys);
    ghost var model, ps := engine.model, engine.model.portfolios;
    assert OpenAccounts(ps, map[]) == ps;
    for i := 0 to |clients|
      invariant engine.Valid() && engine.model == model.(portfolios := OpenAccounts(ps, Part(cash, clients[..i])))
    {
      PartGrows(cash, clients, i);
      OpenOneMore(ps, Part(cash, clients[..i]), clients[i], cash[clients[i]]);
      engine.EnsureClient(clients[i], cash[clients[i]]);
    }
    PartIsWhole(cash, clients);
  }

  lemma OpenOneMore(ps: PortfolioMap, cash: map<ClientId, real>, c: ClientId, amount: real)
    requires c !in cash
    ensures OpenAccounts(ps, cash[c := amount]) == EnsureClient(OpenAccounts(ps, cash), c, amount)
  {}

  method GrantHoldings(engine: MatchingEngine.MatchingEngine, holdings: seq<Entry>)
    requires engine.Valid() && forall e :: e in holdings ==> e.HoldingEntry?
    modifies engine`portfolios, engine`model
    ensures engine.Valid()
    ensures engine.model == old(engine.model).(portfolios := GrantAll(old(engine.model).portfolios, holdings))
  {
    ghost var model, ps := engine.model, engine.model.portfolios;
    for i := 0 to |holdings|
      invariant engine.Valid() && engine.model == model.(portfolios := GrantAll(ps, holdings[..i]))
    {
      var e := holdings[i];
      assert e in holdings;
      assert holdings[..i + 1][..i] == holdings[..i];
      engine.EnsureClient(e.client, 0.0);
      engine.GrantInitialHoldings(e.client, e.symbol, e.quantity);
    }
    assert holdings[..|holdings|] == holdings;
  }

  method RegisterPrices(engine: MatchingEngine.MatchingEngine, prices: map<Symbol, Price>)
    requires engine.Valid()
    modifies engine
    ensures engine.Valid() && engine.model == RegisterAll(old(engine.model), prices)
  {
    var symbols := InSomeOrder(prices.Keys);
    ghost var model := engine.model;
    assert RegisterAll(model, map[]) == model;
    for i := 0 to |symbols|
      invariant engine.Valid() && engine.model == RegisterAll(model, Part(prices, symbols[..i]))
    {
      PartGrows(prices, symbols, i);
      RegisterOneMore(model, Part(prices, symbols[..i]), symbols[i], prices[symbols[i]]);
      engine.RegisterSymbol(symbols[i], prices[symbols[i]]);
    }
    PartIsWhole(prices, symbols);
  }

  lemma OneMoreBook(books: map<Symbol, Books.Book>, symbols: set<Symbol>, s: Symbol)
    ensures
      var all := WithBooks(books, symbols);
      WithBooks(books, symbols + {s}) == if s in all then all else all[s := Books.Book([], [])]
  {}

  lemma RegisterOneMore(e: M.Engine, prices: map<Symbol, Price>, s: Symbol, p: Price)
    requires s !in prices
    ensures RegisterAll(e, prices[s := p]) == M.RegisterSymbol(RegisterAll(e, prices), s, p)
  {
    assert (e.lastPrices + prices)[s := p] == e.lastPrices + prices[s := p];
    assert prices[s := p].Keys == prices.Keys + {s};
    OneMoreBook(e.books, prices.Keys, s);
  }

  /** Everything a file says goes into the directory and the engine, the cash before the holdings. */
  method Load(text: string, directory: ClientDirectory, engine: MatchingEngine.MatchingEngine)
    requires directory.Valid() && engine.Valid()
    modifies directory, engine
    ensures directory.Valid() && engine.Valid()
    ensures
      var read := ReadLines(Lines(text));
      Imported(
        read, old(directory.accounts), old(directory.nextClientId), directory.accounts, directory.nextClientId) &&
      engine.model == Restored(old(engine.model), read)
  {
    ghost var read := ReadLines(Lines(text));
    var cash, holdings, prices := ReadSnapshot(Lines(text), directory);
    OpenAll(engine, cash);
    OnlyHoldingsGrant(engine.model.portfolios, read);
    GrantHoldings(engine, holdings);
    RegisterPrices(engine, prices);
  }
}
