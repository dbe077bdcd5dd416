/** The directory of client accounts and its allocation of client ids. */
module Accounts {
  import opened Types
  import opened MapOrder

  datatype Account = Account(client: ClientId, salt: string, hash: string)

  datatype AccountRecord = AccountRecord(username: string, account: Account)

  /** Every id handed out or imported is below the next one. */
  ghost predicate IdsBelow(accounts: map<string, Account>, next: ClientId) {
    forall name :: name in accounts ==> accounts[name].client < next
  }

  class ClientDirectory {
    var accounts: map<string, Account>
    var nextClientId: ClientId

    ghost predicate Valid()
      reads this
    {
      IdsBelow(accounts, nextClientId)
    }

    constructor ()
      ensures Valid() && accounts == map[] && nextClientId == 1
    {
      accounts, nextClientId := map[], 1;
    }

    /** A taken name is refused; a new one gets an id no account has. */
    method RegisterClient(username: string, salt: string, hash: string) returns (client: Option<ClientId>)
      requires Valid()
      modifies this
      ensures Valid()
      ensures client.None? <==> username in old(accounts)
      ensures client.None? ==> accounts == old(accounts) && nextClientId == old(nextClientId)
      ensures client.Some? ==> client.value == old(nextClientId) && nextClientId == client.value + 1
      ensures client.Some? ==>
        (accounts == old(accounts)[username := Account(client.value, salt, hash)] &&
         forall name :: name in old(accounts) ==> old(accounts)[name].client < client.value)
    {
      if username in accounts { return None; }
      client := Some(nextClientId);
      accounts := accounts[username := Account(nextClientId, salt, hash)];
      nextClientId := nextClientId + 1;
    }

    /** Restores an account under the id it had, and keeps later ids above it. */
    method ImportAccount(record: AccountRecord)
      requires Valid()
      modifies this
      ensures Valid() && accounts == old(accounts)[record.username := record.account]
      ensures nextClientId == NextAfter(old(nextClientId), record.account.client)
    {
      accounts := accounts[record.username := record.account];
      if record.account.client >= nextClientId { nextClientId := record.account.client + 1; }
    }

    /** Every account once, in any order. */
    method ExportAccounts() returns (records: seq<AccountRecord>, ghost names: seq<string>)
      ensures Distinct(names) && |names| == |records| && forall name :: name in names <==> name in accounts
      ensures forall i :: 0 <= i < |records| ==> records[i] == AccountRecord(names[i], accounts[names[i]])
      ensures forall r :: r in records <==> r.username in accounts && accounts[r.username] == r.account
    {
      var order := InSomeOrder(accounts.Keys);
      records, names := [], order;
      for i := 0 to |order|
        invariant |records| == i
        invariant forall j :: 0 <= j < i ==> records[j] == AccountRecord(order[j], accounts[order[j]])
      {
        records := records + [AccountRecord(order[i], accounts[order[i]])];
      }
      forall r: AccountRecord | r.username in accounts && accounts[r.username] == r.account ensures r in records {
        var i :| 0 <= i < |order| && order[i] == r.username;
        assert records[i] == r;
      }
    }
  }

  function NextAfter(next: ClientId, imported: ClientId): ClientId {
    if imported >= next then imported + 1 else next
  }

  /** The least id that is no lower than the next one and above the imported. */
  lemma NextAfterIsLeast(next: ClientId, imported: ClientId, other: ClientId)
    ensures NextAfter(next, imported) >= next && NextAfter(next, imported) > imported
    ensures other >= next && other > imported ==> NextAfter(next, imported) <= other
  {}
}
