# Prepaid card ledger — a Dafny model

This project models the core of a prepaid gift-card tracker. A card has an
initial value and a list of transactions; its balance is the initial value
less the sum of the transaction amounts. The core has two stores:

- the browser-side `LocalStorageService`, an array of cards that every
  operation searches for the first card (or transaction) with an id;
- the server-side `MemStorage`, a `Map` from id to card. Its bulk download
  and upload routes replace the whole map or re-create uploaded cards
  through it.

Around the client store it models:

- the load-time normalisation of stored cards (missing flags, transactions
  sorted by date);
- the "last used" label;
- the usage percentage;
- the "balance after" figure on each transaction row;
- the submit handlers of the add-transaction, edit-card and
  edit-transaction forms.

Conventions:

- Money is counted in integer cents, so the schema's minimum amount of 0.01
  is 1.
- Dates are integer milliseconds since the epoch.
- Fresh ids and the current time are parameters of the operations that use
  them.

Modules, one per file:

- `Schema` holds the records and the insert validation.
- `Ledger` holds the balance, searching and patching shared by both stores.
- `Load` and `Recency` cover the client's load-time normalisation and the
  "last used" label.
- `ClientStorage` is the client store, a class over a `seq<Card>`.
- `ServerStorage` is the server store: a class whose `map` and insertion
  order are updated in place, specified by the value-level `Store`
  functions.
- `DataRoutes` holds the download and upload handlers.
- `TransactionItem`, `AddTransactionModal`, `EditCardModal` and
  `EditTransactionModal` are the client components.
- `Strings` holds ECMAScript `trim`.

## Model

| member | source | states |
|---|---|---|
| Schema.ValidInsertCard | shared/schema.ts:3-7 | insertCardSchema: a name of at least one character and an initial value of at least 0. Its edges are fixed by SchemaBoundaries. |
| Schema.ValidInsertTransaction | shared/schema.ts:9-14 | insertTransactionSchema: any card id, a description of at least one character, and an amount of at least one cent. Its edges are fixed by SchemaBoundaries. |
| Schema.SchemaBoundaries | shared/schema.ts:3-14 | The creation schema accepts an initial value of 0 and refuses -1 and an empty name. The transaction schema needs a non-empty description and an amount of at least one cent. |
| Ledger.Spent | client/src/lib/storage.ts:109 | The `reduce` sum of the amounts. It is additive over concatenation (SpentAppend, SpentPrepend) and changes by exactly one amount when a transaction is removed or replaced (SpentRemoveAt, SpentReplaceAt). |
| Ledger.Balance | client/src/lib/storage.ts:108-111 | getBalance: the initial value less the amount spent. Each mutator's effect on it is fixed by the BalanceAfter lemmas. |
| Ledger.SpentAppend | client/src/lib/storage.ts:108-111 | The total spent over two lists put together is the sum of their totals. |
| Ledger.SpentPrepend | server/storage.ts:67 | Putting a transaction in front adds exactly its amount to the total. |
| Ledger.SpentRemoveAt | client/src/lib/storage.ts:103 | Splicing out the transaction at k lowers the total by exactly its amount. |
| Ledger.SpentReplaceAt | client/src/lib/storage.ts:157-158 | Replacing the transaction at k changes the total by the new amount minus the old. |
| Ledger.SpentNonNegative | shared/schema.ts:13 | When every amount is at least 0, the total spent is at least 0. |
| Ledger.Reverse | server/storage.ts:67 | Reversal keeps the length and puts element n-1-i at i. This is the order that repeated `unshift` leaves. |
| Ledger.SpentReverse | server/storage.ts:67 | Reversing a list leaves its total spent unchanged. |
| Ledger.RemoveAt | client/src/lib/storage.ts:76 | `splice(k, 1)` keeps everything before k and shifts everything after it down by one. |
| Ledger.FindCard | client/src/lib/storage.ts:52-54 | The index of the first card with the id. It is absent exactly when no card has the id. |
| Ledger.FindTransaction | client/src/lib/storage.ts:100-101 | The index of the first transaction with the id. It is absent exactly when none has it. |
| Ledger.PatchCard | client/src/lib/storage.ts:141-144 | Each supplied field overwrites the card's field and each undefined field keeps it. Id, creation time, flag and transactions stay. |
| Ledger.PatchTransaction | client/src/lib/storage.ts:157-158 | A supplied description or amount overwrites the old one. Id, card id, location and date stay. |
| Ledger.BalanceAfterAppend | client/src/lib/storage.ts:91 | Pushing a transaction lowers the balance by its amount. |
| Ledger.BalanceAfterPrepend | server/storage.ts:67 | Unshifting a transaction lowers the balance by its amount. |
| Ledger.BalanceAfterRemove | client/src/lib/storage.ts:103 | Removing a transaction raises the balance by its amount. |
| Ledger.BalanceAfterPatch | client/src/lib/storage.ts:158 | Changing an amount moves the balance by the old amount minus the new. |
| Load.SortByDate | client/src/lib/storage.ts:21-23 | The comparator sort by date, stable. SortByDateCorrect proves it date-ordered, a permutation and sum-preserving, and SortByDateKeepsSorted proves that it leaves ordered input unchanged. |
| Load.InsertByDatePermutes | client/src/lib/storage.ts:21-23 | Inserting into the sorted list yields the old elements plus the new one, as a multiset. |
| Load.InsertByDateSpent | client/src/lib/storage.ts:21-23 | Inserting adds exactly the new amount to the total spent. |
| Load.InsertByDateSorted | client/src/lib/storage.ts:21-23 | Inserting into a list in date order keeps it in date order. |
| Load.SortByDateSorted | client/src/lib/storage.ts:21-23 | The sort by date yields non-decreasing dates. |
| Load.SortByDatePermutes | client/src/lib/storage.ts:21-23 | The sort is a permutation of its input. |
| Load.SortByDateSpent | client/src/lib/storage.ts:21-23 | Sorting does not change the total spent. |
| Load.SortByDateCorrect | client/src/lib/storage.ts:21-23 | Sorted, a permutation and the same total, together. |
| Load.SortByDateKeepsSorted | client/src/lib/storage.ts:21-23 | A list already in date order comes back unchanged, because the sort is stable. |
| Load.SortByDateIdempotent | client/src/lib/storage.ts:21-23 | Sorting twice is sorting once. |
| Load.Normalize | client/src/lib/storage.ts:18-24 | A loaded card keeps every stored field. It is archived only when the stored flag is true; missing transactions become none; transactions are a date-sorted permutation of the stored ones with the same balance. |
| Load.LoadCards | client/src/lib/storage.ts:12-30 | Nothing stored, or text that does not parse, gives no cards. Otherwise each stored card is normalised, in order. |
| Load.Save | client/src/lib/storage.ts:32-38 | One stored record per card. |
| Load.SaveLoadRoundTrip | client/src/lib/storage.ts:12-38 | When each card's transactions are in date order, saving then loading gives back the same cards. |
| Load.LoadIdempotent | client/src/lib/storage.ts:12-38 | Loading, saving and loading again gives what the first load gave. |
| Recency.CeilDiv | client/src/lib/storage.ts:171 | `Math.ceil(x / d)`: the least q with x <= q*d. |
| Recency.LastUsedLabel | client/src/lib/storage.ts:164-178 | "Never used" exactly when there are no transactions. Days are shown under 7 days, 1 to 5 weeks up to 29 days, 1 to 13 months up to 364 days, and years beyond. The count shown is the time since the last transaction rounded up to whole units of the bucket: n days, weeks (7 days), months (30 days) or years (365 days) means more than n-1 units and at most n. |
| Recency.CeilDivNested | client/src/lib/storage.ts:171-177 | Rounding up to days and then to groups of m days is rounding up to groups of m days directly. |
| Recency.NatToString | client/src/lib/storage.ts:174-177 | The decimal digits of a count, which read back as the same number, with no leading zero. |
| Recency.Render | client/src/lib/storage.ts:172-177 | The text for a bucket: "Never used", "1 day ago", or the count followed by its unit. RenderInjective proves that no two labels render alike. |
| Recency.RenderInjective | client/src/lib/storage.ts:172-177 | Equal texts come from equal labels, so the text shown determines the bucket and the count. |
| Recency.RenderFirst | client/src/lib/storage.ts:165-177 | Only "Never used" starts with a letter; every other text starts with a digit of its count. |
| Recency.GetLastUsed | client/src/lib/storage.ts:164-178 | "Never used" exactly when the card has no transactions. |
| Recency.LastUsedExamples | client/src/lib/storage.ts:165-175 | "Never used", "0 days ago" at the same instant, "1 day ago" up to one day, and "2 weeks ago" at eight days. |
| ClientStorage.UsagePercentage | client/src/lib/storage.ts:113-117 | 0 for an initial value of 0. Otherwise spent/initial*100 capped at 100: never above 100, exactly 100 once the spending reaches the initial value, never negative when spending is not. |
| ClientStorage.FilterArchived | client/src/lib/storage.ts:44-50 | The cards whose flag has the requested value, and only those. |
| ClientStorage.FilterArchivedAppend | client/src/lib/storage.ts:44-50 | Filtering keeps the stored order: filtering a concatenation gives the filtered parts in order. |
| ClientStorage.ActiveArchivedPartition | client/src/lib/storage.ts:44-50 | Active and archived cards together are exactly all the cards, as a multiset. |
| ClientStorage.DeletedCardUnreachable | client/src/lib/storage.ts:72-79 | With distinct ids, a deleted card can no longer be found. |
| ClientStorage.AddedCardShadowed | client/src/lib/storage.ts:56-68 | A card added under an id already in use is never found, because lookups return the older card. |
| ClientStorage.LocalStorageService.constructor | client/src/lib/storage.ts:8-10 | The store starts with the loaded cards. |
| ClientStorage.LocalStorageService.GetAllCards | client/src/lib/storage.ts:40-42 | A copy of the list. As a value, it is the list itself: the same cards in the same order. |
| ClientStorage.LocalStorageService.GetActiveCards | client/src/lib/storage.ts:44-46 | Exactly the cards not archived. The order is the stored one (FilterArchivedAppend). |
| ClientStorage.LocalStorageService.GetArchivedCards | client/src/lib/storage.ts:48-50 | Exactly the archived cards. The order is the stored one (FilterArchivedAppend). |
| ClientStorage.LocalStorageService.GetCard | client/src/lib/storage.ts:52-54 | A card is found exactly when some card has the id. The card found carries that id and is the first stored card with it: no earlier card has the id. |
| ClientStorage.LocalStorageService.AddCard | client/src/lib/storage.ts:56-68 | A new active card without transactions or pin is appended and returned. |
| ClientStorage.LocalStorageService.DeleteCard | client/src/lib/storage.ts:72-79 | True exactly when a card has the id; then the first such card is spliced out. Otherwise nothing changes. |
| ClientStorage.LocalStorageService.AddTransaction | client/src/lib/storage.ts:81-94 | No card means null and no change. Otherwise the transaction is appended to the first matching card and its balance drops by the amount, with no balance check. |
| ClientStorage.LocalStorageService.DeleteTransaction | client/src/lib/storage.ts:96-106 | True exactly when the card and the transaction exist. Then the first matching transaction is removed and the balance rises by its amount. Otherwise nothing changes. |
| ClientStorage.LocalStorageService.ArchiveCard | client/src/lib/storage.ts:119-126 | Sets the flag of the first matching card, and only that. Archiving an archived card changes nothing. |
| ClientStorage.LocalStorageService.UnarchiveCard | client/src/lib/storage.ts:128-135 | Clears the flag of the first matching card. Unarchiving an active card changes nothing. |
| ClientStorage.LocalStorageService.UpdateCard | client/src/lib/storage.ts:137-148 | The first matching card takes the supplied fields, without validation. An unknown id changes nothing. |
| ClientStorage.LocalStorageService.UpdateTransaction | client/src/lib/storage.ts:150-162 | The first matching transaction takes the supplied fields. The balance moves by the old amount minus the new, with no balance check. |
| ServerStorage.Put | server/storage.ts:40 | `Map.set(card.id, card)`. The card is stored under its id and every other key is untouched. A new key goes last in the iteration order and an existing key keeps its place. The store invariant is kept. |
| ServerStorage.PutTwice | server/storage.ts:67-68 | Setting the same id twice leaves only the second card, in the first one's place. |
| ServerStorage.Without | server/storage.ts:54 | The iteration order with one key removed, still without repeats. An absent key leaves the order unchanged. |
| ServerStorage.WithoutAt | server/storage.ts:54 | In an order without repeats, removing a key splices out its one position, so the other keys keep their relative order. |
| ServerStorage.Remove | server/storage.ts:53-55 | `Map.delete`: the key is gone, every other key keeps its card, and the invariant is kept. The iteration order loses only the key's position, the others keeping their relative order. Deleting an absent key leaves it unchanged. |
| ServerStorage.PutAll | server/storage.ts:84-89 | Setting cards one after another keeps the store invariant. |
| ServerStorage.PutAllKeys | server/storage.ts:84-89 | Afterwards, exactly the old keys and the ids of the cards set are present. |
| ServerStorage.PutAllLastWins | server/storage.ts:84-89 | Of several cards with one id, the last one set is the one kept. |
| ServerStorage.PutAllKeepsOthers | server/storage.ts:84-89 | A key that none of the set cards carries keeps its card. |
| ServerStorage.Replaced | server/storage.ts:84-89 | `clear()` followed by setting each card gives a valid store. |
| ServerStorage.ReplacedKeys | server/storage.ts:84-89 | After replaceAll, exactly the uploaded ids are present: no earlier entry survives. |
| ServerStorage.ReplacedContents | server/storage.ts:84-89 | After replaceAll, each uploaded id is held by the last uploaded card with that id. |
| ServerStorage.Values | server/storage.ts:27-29 | Every stored card once, in iteration order, each under its own id. |
| ServerStorage.ValuesReplacedRoundTrip | server/storage.ts:27-29 | Replacing the store with its own card list rebuilds the same map and the same order. |
| ServerStorage.MemStorage.constructor | server/storage.ts:19-21 | The store starts empty. |
| ServerStorage.MemStorage.Set | server/storage.ts:40 | The new state is `Put` of the old one. |
| ServerStorage.MemStorage.GetCard | server/storage.ts:23-25 | A card is found exactly when its id is stored. The card found is the one stored under the id, and it carries that id. |
| ServerStorage.MemStorage.GetAllCards | server/storage.ts:27-29 | One entry per key and every stored card among them. |
| ServerStorage.MemStorage.CreateCard | server/storage.ts:31-42 | A new active card without transactions is stored under the fresh id. |
| ServerStorage.MemStorage.UpdateCard | server/storage.ts:44-51 | An unknown id gives null and no change. Otherwise the spread of the updates over the card is stored and returned. |
| ServerStorage.MemStorage.DeleteCard | server/storage.ts:53-55 | True exactly when the id was present; the new state is `Remove`. |
| ServerStorage.MemStorage.AddTransaction | server/storage.ts:57-70 | An unknown card gives null. Otherwise the new transaction goes in front of the card's list and the card is stored back in its place. |
| ServerStorage.MemStorage.DeleteTransaction | server/storage.ts:72-82 | True exactly when the card and the transaction exist. Then the first matching transaction is spliced out. Otherwise nothing changes. |
| ServerStorage.MemStorage.ReplaceAll | server/storage.ts:84-89 | The new state is the emptied store with each card set in turn. |
| DataRoutes.ValidUploadedCard | server/data-routes.ts:9-17 | cardSchema: the creation schema's fields are valid, and so is every transaction against the transaction schema. Id, dates and flag only need the right type. |
| DataRoutes.ParseUpload | server/data-routes.ts:9-21 | The upload parses exactly when it is well typed and every card and transaction passes the schemas. The result has the same cards, with the pin dropped. |
| DataRoutes.RecreatedTransactions | server/data-routes.ts:49-50 | Each uploaded transaction again, with a fresh id, the new card's id and the request time. Description, location and amount are as uploaded. |
| DataRoutes.RecreatedSpent | server/data-routes.ts:49-50 | Re-created transactions keep the total spent. |
| DataRoutes.RecreatedCard | server/data-routes.ts:46-52 | What mode "add" builds from one uploaded card: `createCard` of the card without its transactions, then one `addTransaction` per transaction. RecreatedCardShape and RecreatedCardTransactions state its fields. |
| DataRoutes.RecreatedCardShape | server/data-routes.ts:46-52 | A re-created card has the fresh id and the request time. It is active and has no pin. Name, number and initial value are as uploaded, and so is the balance. |
| DataRoutes.RecreatedCardTransactions | server/data-routes.ts:49-51 | The re-created transactions run in the reverse of the uploaded order, with fresh ids and the request time. |
| DataRoutes.RecreatedCards | server/data-routes.ts:46-52 | One re-created card per uploaded card, in upload order, each under its fresh id. |
| DataRoutes.AddKeepsExisting | server/data-routes.ts:46-52 | Mode "add" leaves every existing card alone unless a drawn id collides with it. |
| DataRoutes.AddStoresRecreated | server/data-routes.ts:46-52 | Mode "add" stores each re-created card under its fresh id, unless a later card drew the same id. |
| DataRoutes.AddUploadedCard | server/data-routes.ts:47-51 | `createCard` followed by one `addTransaction` per transaction sets exactly the re-created card. |
| DataRoutes.AddAll | server/data-routes.ts:46-52 | Mode "add" sets the re-created cards one after another. |
| DataRoutes.Upload | server/data-routes.ts:29-62 | The checks run in order: no file is 400, a bad mode is 400, text that is not JSON is 500, a schema failure is 400. Every failure leaves the store unchanged. Otherwise the answer is 200, and the store is replaced ("replace") or extended with the re-created cards ("add"). |
| DataRoutes.DownloadReplaceRoundTrip | server/data-routes.ts:24-27 | Uploading a download in mode "replace" gives back the store, except that pins are lost. |
| DataRoutes.WithoutPins | server/data-routes.ts:9-17 | Clearing pins keeps keys, order and invariant, and is the identity on a store without pins. |
| Strings.TrimStart | client/src/components/edit-card-modal.tsx:45 | Drops exactly the leading white space. |
| Strings.TrimEnd | client/src/components/edit-card-modal.tsx:45 | Drops exactly the trailing white space. |
| Strings.Trim | client/src/components/edit-card-modal.tsx:45 | Non-empty results neither start nor end with white space. The result is empty exactly when the input is all white space. |
| Strings.TrimIsSlice | client/src/components/edit-card-modal.tsx:45 | The result is a slice of the input with only white space outside it. |
| TransactionItem.ShownBalance | client/src/components/transaction-item.tsx:56-59 | The initial value less the transactions before this one in the list. ShownBalanceIsPrefix, ShownBalanceStep and the lemmas after it state what this figure is. |
| TransactionItem.BalanceAfter | client/src/components/transaction-item.tsx:52-59 | Nothing is shown when no card has the id. Otherwise the figure shown is that card's balance up to the transaction, for a card with the id that no earlier card shares, so the first such card. |
| TransactionItem.FirstShowsInitialValue | client/src/components/transaction-item.tsx:56-59 | The first row shows the initial value. |
| TransactionItem.ShownBalanceIsPrefix | client/src/components/transaction-item.tsx:56-59 | A row shows the initial value less the amounts strictly before it. |
| TransactionItem.ShownBalanceStep | client/src/components/transaction-item.tsx:56-59 | Each row's figure is the previous row's figure less the previous amount. |
| TransactionItem.LastShowsBalanceBeforeIt | client/src/components/transaction-item.tsx:56-59 | The last row's figure less its own amount is the card's balance. |
| TransactionItem.UnknownIdShowsAllButLast | client/src/components/transaction-item.tsx:56-57 | An id not in the list (index -1) counts all but the last transaction. |
| TransactionItem.OwnEditDoesNotMoveFigure | client/src/components/transaction-item.tsx:57-59 | Editing a row's own amount never changes that row's figure. |
| AddTransactionModal.HandleSubmit | client/src/components/add-transaction-modal.tsx:31-72 | Schema failure, missing card and an amount above the balance each leave the store unchanged. Otherwise exactly one transaction with the given amount is appended. The balance then stays at least 0, and is exactly 0 when the amount equals it. |
| AddTransactionModal.RefusedAmountWouldOverdraw | client/src/components/add-transaction-modal.tsx:62-72 | Every amount the guard refuses, had it been recorded, would have left the card with a negative balance. |
| AddTransactionModal.FiftyDollarCard | client/src/components/add-transaction-modal.tsx:62-72 | On a $50.00 card, $20.00 leaves $30.00 and 40% used. A further $30.00 leaves $0.00 and 100% used, after which $0.01 exceeds the balance. |
| EditCardModal.BlankToNone | client/src/components/edit-card-modal.tsx:46-47 | A blank field becomes undefined; anything else becomes its trimmed text. |
| EditCardModal.HandleSubmit | client/src/components/edit-card-modal.tsx:39-69 | Nothing happens with no card, a blank name, a NaN or non-positive initial value, or an unknown id. Otherwise the card takes the trimmed name and the new value. A blank number or PIN keeps the old one, and the result always passes the creation schema. |
| EditCardModal.EditCanMakeBalanceNegative | client/src/components/edit-card-modal.tsx:60-69 | An accepted initial value below the amount spent leaves a negative balance. |
| EditTransactionModal.HandleSubmit | client/src/components/edit-transaction-modal.tsx:42-70 | Nothing happens with no transaction, a blank description, a NaN or non-positive amount, or an unknown card or transaction. Otherwise the trimmed description and the amount are written while id, card id, location and date stay. The balance moves by the difference, with no check. |
| EditTransactionModal.EditCanOverdraw | client/src/components/edit-transaction-modal.tsx:61-70 | An accepted edit can take a card from a balance of 0 to -1. |

## Left out

- Browser storage and the server process. `localStorage` reads and writes, `JSON.parse` and `JSON.stringify`, and the try/catch around them are not modelled. Stored text arrives as absent, unparseable (any text whose load throws, including JSON that is not an array of cards) or parsed; saving produces the records that would be written. A failed write is not modelled.
- Floating point. Amounts are whole cents. `parseFloat` of a form field is modelled as a whole number of cents, or NaN. Sub-cent inputs and rounding in the balance and usage arithmetic are not modelled.
- Time and ids. `Date.now()`, `new Date()` and `randomUUID()` are parameters. Mode "add" uses one time for the whole request, where the route reads the clock at each call. ISO date strings are integers, so the date sort compares numbers.
- DataRoutes.ParseUpload: whether the uploaded JSON has the right field types is one flag, `wellTyped`, beside the cards it denotes. A card whose `isArchived` is missing counts as not well typed.
- ServerStorage.MemStorage.UpdateCard: a spread of an `updates` object that holds a key explicitly set to `undefined` would overwrite the field with `undefined`. The model treats every absent key as not supplied.
- Object identity. Both stores hand out references to the cards they hold, and the server's `addTransaction` and `deleteTransaction` change the held card before setting it again. Changes made through such a reference by a caller are not modelled.
- Asynchrony. The server methods are `async` but never interleave in the modelled routes; they are sequential methods here.
- HTTP, toasts, dialog state, error messages on the form and the `onClose`/`onUpdated` callbacks.
- Mounting the data routes on the server (server/routes.ts) is not modelled: it only attaches the router and has no logic of its own.
- Views and other UI. The pages, the card item, the add-card modal and the PWA code only call the store or are UI. The date formatting of a transaction row is not modelled.
- The upload modal is a `fetch` client.
- The import/export modal. Its import calls a store method, `importCards`, that the client store does not have.
