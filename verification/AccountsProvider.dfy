/** The provider's shared fields and the sections that run under its lock. */
module AccountsProvider {
  import opened Wrappers

  datatype Account = Account(id: string, name: string, isDefault: bool)

  /** A fetched subscription list, with the credential, client and cache generation in force when
      the fetch took its snapshot. */
  datatype Listing = Listing(cred: int, client: int, gen: nat, accounts: seq<Account>)

  /** The fields guarded by the accounts lock. */
  datatype Shared = Shared(cred: int, client: int, gen: nat, cache: Option<Listing>)

  function Invalidated(s: Shared): Shared {
    s.(cache := None, gen := s.gen + 1)
  }

  function WithCredential(s: Shared, cred: int): Shared {
    Invalidated(s.(cred := cred))
  }

  function WithClient(s: Shared, client: int): Shared {
    Invalidated(s.(client := client))
  }

  /** Publishes a list unless the generation moved since the fetch was keyed. */
  function Published(s: Shared, gen: nat, l: Listing): Shared {
    if s.gen == gen then s.(cache := Some(l)) else s
  }

  // ---- The default subscription -----------------------------------------------------------

  /** Position of the account marked as default: the target when visible, else the only account. */
  function DefaultAt(accounts: seq<Account>, target: string): Option<nat> {
    var found := if target == "" then None else IndexOf(accounts, target);
    if found.Some? then found
    else if |accounts| == 1 then Some(0)
    else None
  }

  function IndexOf(accounts: seq<Account>, id: string): (r: Option<nat>)
    ensures r.Some? ==> r.value < |accounts| && accounts[r.value].id == id
    ensures forall i :: 0 <= i < (if r.Some? then r.value else |accounts|) ==> accounts[i].id != id
  {
    if accounts == [] then None
    else if accounts[0].id == id then Some(0)
    else
      match IndexOf(accounts[1..], id)
      case None => None
      case Some(i) => Some(i + 1)
  }

  function Marked(accounts: seq<Account>, at: Option<nat>): seq<Account> {
    if at.Some? && at.value < |accounts|
    then accounts[at.value := accounts[at.value].(isDefault := true)]
    else accounts
  }

  /** Sets the default flag in place: an explicit target wins over the environment's. */
  method ResolveDefaultSubscription(accounts: array<Account>, explicit: string, fromEnv: string)
    modifies accounts
    ensures accounts[..]
         == Marked(old(accounts[..]), DefaultAt(old(accounts[..]), if explicit == "" then fromEnv else explicit))
  {
    if accounts.Length == 0 {
      return;
    }
    var target := if explicit == "" then fromEnv else explicit;
    if target != "" {
      for i := 0 to accounts.Length
        invariant forall k :: 0 <= k < i ==> accounts[k].id != target
        invariant accounts[..] == old(accounts[..])
      {
        if accounts[i].id == target {
          accounts[i] := accounts[i].(isDefault := true);
          return;
        }
      }
    }
    if accounts.Length == 1 {
      accounts[0] := accounts[0].(isDefault := true);
    }
  }

  /** Of accounts fetched with no default, at most one becomes the default; with a visible target
      it is that one. */
  lemma OneDefault(accounts: seq<Account>, target: string)
    requires forall i :: 0 <= i < |accounts| ==> !accounts[i].isDefault
    ensures var r := Marked(accounts, DefaultAt(accounts, target));
      && |r| == |accounts|
      && (forall i, j :: 0 <= i < |r| && 0 <= j < |r| && r[i].isDefault && r[j].isDefault ==> i == j)
      && (target != "" && (exists i :: 0 <= i < |accounts| && accounts[i].id == target) ==>
            exists i :: 0 <= i < |r| && r[i].isDefault && r[i].id == target)
  {
    var r, at := Marked(accounts, DefaultAt(accounts, target)), DefaultAt(accounts, target);
    if at.Some? {
      assert r[at.value].isDefault;
    }
  }

  method CloneAccounts(accounts: array<Account>) returns (out: array<Account>)
    ensures fresh(out) && out[..] == accounts[..]
  {
    out := new Account[accounts.Length](i requires 0 <= i < accounts.Length reads accounts => accounts[i]);
  }

  class Provider {
    var cred: int
    var client: int
    var accountsGen: nat
    var cachedAccounts: array?<Account>
    /** Where the cached list came from. */
    ghost var origin: Listing

    ghost predicate Valid()
      reads this, cachedAccounts
    {
      cachedAccounts != null ==> origin.accounts == cachedAccounts[..]
    }

    /** The guarded fields as one value. */
    ghost function View(): Shared
      reads this
    {
      Shared(cred, client, accountsGen, if cachedAccounts == null then None else Some(origin))
    }

    constructor (c: int, k: int)
      ensures Valid() && View() == Shared(c, k, 0, None)
    {
      cred, client, accountsGen, cachedAccounts := c, k, 0, null;
      origin := Listing(c, k, 0, []);
    }

    method SetCredential(c: int)
      requires Valid()
      modifies this
      ensures Valid() && View() == WithCredential(old(View()), c)
    {
      cred := c;
      InvalidateLocked();
    }

    method SetSubscriptionsClient(k: int)
      requires Valid()
      modifies this
      ensures Valid() && View() == WithClient(old(View()), k)
    {
      client := k;
      InvalidateLocked();
    }

    method InvalidateAccountsCache()
      requires Valid()
      modifies this
      ensures Valid() && View() == Invalidated(old(View()))
    {
      InvalidateLocked();
    }

    method InvalidateLocked()
      requires Valid()
      modifies this`cachedAccounts, this`accountsGen
      ensures Valid() && View() == Invalidated(old(View()))
    {
      cachedAccounts := null;
      accountsGen := accountsGen + 1;
    }

    method CredentialAndSubscriptionsClient() returns (c: int, k: int)
      ensures c == View().cred && k == View().client
    {
      return cred, client;
    }

    /** The cached list as an array of the caller's own, or null. */
    method ReadCachedAccounts() returns (r: array?<Account>)
      requires Valid()
      ensures r == null <==> View().cache.None?
      ensures r != null ==> fresh(r) && r[..] == View().cache.value.accounts
    {
      if cachedAccounts == null {
        return null;
      }
      r := CloneAccounts(cachedAccounts);
    }

    /** Publishes a fetched list when its generation is still current. */
    method Publish(gen: nat, accounts: array<Account>, ghost l: Listing) returns (current: bool)
      requires Valid() && l.accounts == accounts[..]
      modifies this
      ensures Valid() && View() == Published(old(View()), gen, l)
      ensures current <==> old(accountsGen) == gen
      ensures current ==> cachedAccounts == accounts
    {
      if accountsGen != gen {
        return false;
      }
      cachedAccounts := accounts;
      origin := l;
      return true;
    }
  }

  /** A caller may write to the list it was handed without changing what the next caller reads. */
  method OwnCopies(p: Provider, i: nat, a: Account) returns (first: array?<Account>, second: array?<Account>)
    requires p.Valid()
    ensures p.View() == old(p.View())
    ensures (first == null <==> second == null)
    ensures second != null ==> first != second && p.View().cache.Some? && second[..] == p.View().cache.value.accounts
  {
    first := p.ReadCachedAccounts();
    if first != null && i < first.Length {
      first[i] := a;
    }
    second := p.ReadCachedAccounts();
  }
}
