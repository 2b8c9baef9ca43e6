# CPFP child-transaction planner (unisat-cpfp)

This project is a Dafny model of the planning core of the unisat-cpfp page
(`src/App.tsx`). The page bumps the fee of a stuck version-3 parent transaction
that carries a Pay-to-Anchor output. It builds a child transaction that spends
two inputs: the anchor output (`OP_1 <0x4e73>`, script bytes `51 02 4e 73`, a
two-byte witness version 1 program as in BIP 141) and one confirmed wallet
UTXO. The child has a single change output.

The model takes the decoded parent as an input: its id, its weight and its
outputs as (value, script bytes). On top of that it defines:

- **Anchor location** (`anchor.dfy`, `hex.dfy`). Both scans of the parent's
  outputs are modelled: `find` and `findIndex`. The test they apply is a prefix
  test on the script's lower-case hex rendering, and the model proves it is the
  same as a test on the script's first four bytes.
- **Fee arithmetic** (`feemath.dfy`). The child is estimated at 609 weight
  units. Virtual size is the weight divided by four, rounded up, as in the
  "Transaction size calculations" section of BIP 141. The fee is virtual bytes
  times the rate. The package rate is kept in hundredths of a sat/vB.
- **UTXO selection** (`utxoselect.dfy`). Unconfirmed UTXOs are dropped first.
  Of the rest, only those worth strictly more than the missing amount are kept.
  These are sorted stably by value and the first is taken. An independent
  reference definition (`CheapestIndex`) is proved to make the same choice.
- **Plan building** (`cpfp.dfy`). This covers the change amount, the plan
  record (version 3, locktime 0, two inputs, one output) and the parent-fee
  fold. It also works through the page's default transaction.
- **Explorer endpoint** (`endpoint.dfy`) and the **account-change handler**
  (`accounts.dfy`).

`wrappers.dfy` holds the `Option` and `Result` types used for the error exits.

## Model

| member | source | states |
|---|---|---|
| `Hex.HexPrefixIff` | src/App.tsx:191-193 | a hex rendering starts with another byte string's rendering exactly when the bytes start with those bytes |
| `Hex.ToHexInjective` | src/App.tsx:192 | the hex rendering of a script loses nothing: equal renderings mean equal bytes |
| `Hex.ToHex` | src/App.tsx:192 | `toString("hex")` renders every byte as its own two lower-case digits, in order, so the rendering is twice as long as the bytes |
| `Anchor.IsAnchorScript` | src/App.tsx:191-193 | the `startsWith("51024e73")` test that both scans (here and at lines 218-220) apply to a script's hex holds exactly when the script has at least four bytes and they are 51 02 4e 73 |
| `Anchor.FindAnchor` | src/App.tsx:191-198 | `find` returns nothing exactly when no output is an anchor; otherwise it returns an anchor output of the parent |
| `Anchor.FindAnchorIndex` | src/App.tsx:218-220 | `findIndex` returns -1 exactly when no output is an anchor; otherwise it returns the index of an anchor output with no anchor before it |
| `Anchor.FindAgreesWithFindIndex` | src/App.tsx:190-221 | the two scans agree: both miss together, and `find` returns the output at the index `findIndex` reports |
| `FeeMath.VirtualBytes` | src/App.tsx:211 | the virtual size is the least count whose fourfold covers the weight: `weight <= 4*vb < weight + 4` |
| `FeeMath.Fee` | src/App.tsx:212 | dividing the fee by a positive virtual size gives back the rate with no remainder |
| `FeeMath.RequiredFee` | src/App.tsx:203-212 | at a positive rate, the fee is a whole multiple of the rate, and the multiplier is the package's virtual size, ceil((parent weight + 609) / 4); four times the fee covers rate × (parent weight + 609) and falls short of rate × (that weight + 4) |
| `FeeMath.PackageRateHundredths` | src/App.tsx:300 | the package rate in hundredths is the least count not below 100 × fee / vbytes |
| `FeeMath.VirtualBytesMonotone` | src/App.tsx:211 | the virtual size never shrinks as the weight grows |
| `FeeMath.RequiredFeeMonotone` | src/App.tsx:203-212 | the required fee never shrinks when the parent weight or the fee rate grows |
| `FeeMath.PackageRateOfWholeRate` | src/App.tsx:300 | for a whole sat/vB rate, the package rate in hundredths is exactly 100 × rate |
| `UtxoSelect.Confirmed` | src/App.tsx:226 | keeps exactly the confirmed UTXOs of the list |
| `UtxoSelect.Above` | src/App.tsx:237-238 | keeps exactly the UTXOs worth strictly more than the required value |
| `UtxoSelect.MaxValue` | src/App.tsx:242 | the reported largest value belongs to some UTXO of the list and bounds every UTXO's value |
| `UtxoSelect.Insert` | src/App.tsx:239 | inserting into a list sorted by value keeps it sorted and adds exactly the new element; the new element leads only when strictly cheaper than the old head |
| `UtxoSelect.SortByValue` | src/App.tsx:239 | the ascending sort is a permutation of its input, sorted by value |
| `UtxoSelect.CheapestIndex` | src/App.tsx:233-247 | reference choice: absent exactly when no confirmed UTXO exceeds the requirement; otherwise a qualifying index whose value no qualifying UTXO undercuts, strictly below every qualifying one listed earlier |
| `UtxoSelect.SelectFunding` | src/App.tsx:225-247 | fails with no-confirmed exactly when every UTXO is unconfirmed; the no-suitable failure reports the required value and the largest confirmed value, which does not exceed it; a success is a UTXO of the list, confirmed, above the requirement and minimal among such |
| `UtxoSelect.SortedHeadIsCheapest` | src/App.tsx:237-247 | the head of the sorted suitable UTXOs is the reference choice |
| `UtxoSelect.SuitableEmptyIff` | src/App.tsx:237-244 | no UTXO survives both filters exactly when the reference finds no candidate |
| `UtxoSelect.SelectionIsEarliestCheapest` | src/App.tsx:234-247 | selection succeeds exactly when the reference finds a candidate, and then returns that UTXO: the cheapest, earliest listed among equal values |
| `UtxoSelect.CheapestIsUnique` | src/App.tsx:236-247 | any index fitting the earliest-cheapest description is the one chosen, so the choice depends only on values and listing order |
| `Cpfp.RequiredUtxoValue` | src/App.tsx:218-234 | for a parent with an anchor, `find` returns an output, and the value the funding UTXO must exceed is the required fee less that output's value, even though the program reads the value through `findIndex` |
| `Cpfp.PlanChild` | src/App.tsx:190-301 | no-anchor failure exactly when no output is an anchor; the insufficient-funds exit is never taken; a plan spends the first anchor output and one UTXO into one output; it has version 3 and locktime 0, weight = parent + 609, the ceiling virtual size, and fee = vbytes × rate; inputs equal change plus fee, the change is positive, and the package rate is 100 × rate hundredths |
| `Cpfp.SpendAnchorWith` | src/App.tsx:252-301 | the change guard fires exactly when the UTXO is worth less than the required value; otherwise the change is the UTXO's value less that requirement and value is conserved |
| `Cpfp.PlanFundsWithCheapest` | src/App.tsx:233-281 | a plan's funding input is the confirmed UTXO the reference selects for (required fee − anchor value): above that value and minimal among such |
| `Cpfp.PlanErrorsInOrder` | src/App.tsx:195-244 | no-confirmed failure exactly when an anchor exists and every UTXO is unconfirmed; no-suitable failure exactly when an anchor exists, some UTXO is confirmed and none qualifies |
| `Cpfp.PrevoutValue` | src/App.tsx:169 | the fallback of `input.prevout?.value` to 0: a missing previous-output value counts as 0, a present one as itself |
| `Cpfp.ParentFee` | src/App.tsx:168-177 | the two folds compute the sum of input values (missing ones as 0) less the sum of output values |
| `Cpfp.MissingPrevoutsUndercount` | src/App.tsx:168-170 | counting missing previous-output values as 0 never overstates the inputs, and is exact when every value is present |
| `Cpfp.DefaultAnchorIsSecondOutput` | src/App.tsx:218-221 | in the page's default transaction the anchor is output 1 |
| `Cpfp.DefaultParentFigures` | src/App.tsx:203-234 | for the default transaction (weight 496) at 1 sat/vB: 1105 WU, 277 vB, a 277-sat fee, a required UTXO value of 37 |
| `Cpfp.DefaultParentPlan` | src/App.tsx:253-300 | with confirmed UTXOs of 30 and 50 sats and an unconfirmed one of 1000, the 50-sat UTXO funds the child and 13 sats come back as change |
| `Endpoint.WithTrailingSlash` | src/App.tsx:83-85 | the base starts with the URL, ends with `/`, and is at most one character longer |
| `Endpoint.ChainPath` | src/App.tsx:87-95 | every chain's path ends in `api/` |
| `Endpoint.MempoolApiEndpoint` | src/App.tsx:82-96 | the endpoint starts with the configured URL and ends in `api/` and in the chain's path; removing the path leaves the slash-normalised URL |
| `Endpoint.TrailingSlashOnlyWhenMissing` | src/App.tsx:83-85 | the URL is left alone exactly when it already ends in `/`, so normalising twice changes nothing |
| `Endpoint.EndpointIgnoresTrailingSlash` | src/App.tsx:82-96 | a URL given with or without its trailing slash yields the same endpoint |
| `Endpoint.EndpointSeparatesChains` | src/App.tsx:87-95 | for one URL, two chains share an endpoint exactly when they share a path; only testnet4, testnet and signet leave the plain `api/` path |
| `Accounts.FirstAccount` | src/App.tsx:507 | `accounts[0]` is defined exactly for a non-empty list and is then its first element |
| `Accounts.AccountsChanged` | src/App.tsx:505-522 | afterwards the cached first account is the incoming one; an unchanged first account leaves everything as it was; on a change the new list is cached, the page is connected exactly when the list is non-empty, a non-empty list becomes the shown accounts with its first entry as the address, and an empty one leaves accounts and address as they were |
| `Accounts.AccountsChangedTracksWallet` | src/App.tsx:505-522 | from a consistent view the handler stays consistent, connects exactly when the wallet reports an account, and shows the first reported account as the address |
| `Accounts.AccountsChangedIdempotent` | src/App.tsx:507-510 | delivering the same account list twice has the effect of delivering it once |

## Left out

- Transaction decoding, weight and txid computation (`Transaction.fromHex`, `weight`, `getId`). These are done by bitcoinjs-lib, whose code is not part of this model. The parent enters as a `ParentTx`: id, weight and outputs.
- PSBT construction, the signature request to the Unisat wallet, finalisation and extraction (lines 306-423). This includes `psbt.setVersion(transaction.version)`: the PSBT takes the parent's version, while the plan record says 3. These are library and wallet calls.
- The explorer fetches: UTXOs (99-124), the parent's input values (161-188) and the funding UTXO's script (333-356). These are network I/O. The parent fee enters `PlanChild` as a parameter; it is 0 when the fetch fails.
- `parentFeeRate` (line 178). It divides by the un-rounded `weight / 4` in floating point and is only displayed.
- Non-integer fee rates. The rate is a whole number of sat/vB: the input field steps by 1 from 1 and falls back to 1. A fractional rate typed by hand would make the fee a fraction, and that is not modelled.
- FeeMath.PackageRateHundredths: computed as an exact rational ceiling, not with double-precision `fee / vbytes * 100`. For whole rates the quotient is exact, so the two agree. The final `/ 100` only formats the value and is left out.
- The empty-input and missing-address checks (lines 128-136). They guard the decoding step, which is outside the model.
- The wallet calls started by the account handler (`getBasicInfo`, line 518). So are the network and chain handlers and the `checkUnisat` polling loop. These are asynchronous wallet I/O.
- The chain enumeration itself. It comes from `./const`, which is not part of this model. `Endpoint.Chain` names the four chains the code tests and folds every other value into `OtherChain`.
- The per-UTXO explorer link (lines 842-852), React state, rendering and the clipboard and amount helpers. These are display only.
- A dust threshold on the change output. The page applies none, so the model applies none either: `Cpfp.DefaultParentPlan` accepts a 13-sat change.
