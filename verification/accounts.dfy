/**
 * The wallet's `accountsChanged` handler: a cache of the last account list
 * it acted on, and the connected flag and address the page shows.
 */
module Accounts {
  import opened Wrappers

  /**
   * `cached` is the handler's own record (`self.accounts`); `accounts`,
   * `connected` and `address` are the page state it sets.
   */
  datatype WalletView = WalletView(cached: seq<string>, accounts: seq<string>, connected: bool, address: string)

  const InitialView: WalletView := WalletView([], [], false, "")

  /** `accounts[0]`, which is `undefined` for an empty list. */
  function FirstAccount(accounts: seq<string>): (first: Option<string>)
    ensures first.Some? <==> |accounts| > 0
    ensures first.Some? ==> first.value == accounts[0]
  {
    if |accounts| == 0 then None else Some(accounts[0])
  }

  /**
   * `handleAccountsChanged`: a list whose first account matches the cached
   * one is ignored; otherwise it is cached and either connects the page to
   * its first account or, when empty, disconnects it.
   */
  function AccountsChanged(v: WalletView, incoming: seq<string>): (w: WalletView)
    ensures FirstAccount(w.cached) == FirstAccount(incoming)
    ensures FirstAccount(v.cached) == FirstAccount(incoming) ==> w == v
    ensures FirstAccount(v.cached) != FirstAccount(incoming) ==> w.cached == incoming
    ensures FirstAccount(v.cached) != FirstAccount(incoming) ==>
              && w.connected == (|incoming| > 0)
              && (|incoming| > 0 ==> w.accounts == incoming && w.address == incoming[0])
              && (|incoming| == 0 ==> w.accounts == v.accounts && w.address == v.address)
  {
    if FirstAccount(v.cached) == FirstAccount(incoming) then v
    else if |incoming| > 0 then WalletView(incoming, incoming, true, incoming[0])
    else v.(cached := incoming, connected := false)
  }

  /** The page shows a connection exactly for the first cached account. */
  ghost predicate Consistent(v: WalletView)
  {
    && (v.connected <==> |v.cached| > 0)
    && (v.connected ==> v.address == v.cached[0] && v.accounts == v.cached)
  }

  lemma InitialViewConsistent()
    ensures Consistent(InitialView)
  {
  }

  /**
   * From a consistent view, the handler leaves a consistent view that is
   * connected exactly when the wallet reports an account, showing the
   * first reported account as the address.
   */
  lemma AccountsChangedTracksWallet(v: WalletView, incoming: seq<string>)
    requires Consistent(v)
    ensures Consistent(AccountsChanged(v, incoming))
    ensures AccountsChanged(v, incoming).connected <==> |incoming| > 0
    ensures |incoming| > 0 ==> AccountsChanged(v, incoming).address == incoming[0]
  {
  }

  /** Delivering the same account list twice acts once. */
  lemma AccountsChangedIdempotent(v: WalletView, incoming: seq<string>)
    ensures AccountsChanged(AccountsChanged(v, incoming), incoming) == AccountsChanged(v, incoming)
  {
  }
}
