# A verified model of the point-of-sale till

A shop has several tills and one cloud. Each till sells, edits its catalogue and
counts its stock while offline, keeps what the cloud has not seen in an outbox,
and from time to time runs a push-then-pull cycle. This project models that
replication protocol and the calculations around it in Dafny, and proves what
the shopkeeper relies on: nothing sold is lost or counted twice, the tills end
up agreeing, indexes never lie, money adds up, and paper and PDF show what was
recorded.

Verify the whole project with `dafny verify dfyconfig.toml`.

## How it is organised

- `Prelude`, `Texts`, `Decimal`, `Records`: bytes, Go's string helpers, numerals, the stored records.
- `StoreModel`, `StoreInvariants`, `Barcodes`, `Merge`, `PullOrder`, `Sums`, `Stock`: the
  till's store as one value, each transaction as a function on it, and what those functions keep.
- `CloudModel`, `Protocol`, `LogSafety`, `Catalogue`, `Races`, `LostEdits`, `LostByEvents`,
  `Convergence`, `SettingsSync`, `SettingsConvergence`, `SharedSettings`, `Guarantees`: any number of tills and the cloud as a state machine.
  An event is one local write, one outbox read, the cloud applying a push (its reply
  lost or not), the clear, one pull, one merge, the cursor update, the recorded
  outcome, an abandoned cycle, or the cloud applying, at any later time and as often
  as it likes, a push that a till gave up on. An abandoned cycle at any point is a
  crash or a timeout, so a crash between the merge and the cursor update is covered.
  Every guarantee is over all finite runs.
- `BoltStore` (class `Store`) and `Engine` (classes `CloudServer` and `Engine`): the
  imperative code over mutable buckets, proved against the functions above. `SyncOnce`
  carries the protocol run it follows as ghost state, so it can only take protocol steps.
- `ProductFacts`, `SaleCharges`: what each write leaves on record, field by field, told from
  the request and the stored rows alone.
- `ByteOrder`, `RefIndex`, `Sorting`, `SaleLists`: byte-ordered keys, the prefix scan
  behind a reference lookup, sale searches.
- `Scheduler`: the nudge channel, the coalescing timer, the background loop, manual
  syncs and the mutex.
- `Tax`: sale arithmetic. `Raster`, `EscPos`, `Receipt`: receipt bytes and the decoder
  that reads them. `ReceiptRows`: what the rows of a receipt must show. `Paper`: a printer
  that takes up the commands, and what it puts on paper.
- `PdfColumns`, `PdfText`, `PdfFile`, `PdfReader`, `PdfReport`: the exported PDF and a reader
  that follows its offsets and references. `PdfPage`: an interpreter of its content streams.
  `PdfFonts`: what the file says of its pages' size and fonts.

## What the cloud is taken to do

The cloud's own code is not part of this repository. It is modelled from the wire
types and comments (`internal/cloudsync/client.go:31-58`,
`internal/cloudsync/engine.go:119-124`): a product replaces the held one only when its
stamp is later, sales and stock events are inserted when absent, every applied row
takes the next sequence number, and a pull returns everything past `since` together
with the highest number.

## Hypotheses, and where the code gives less than its comments

- Logs (sales and stock events) need no assumption on clocks. Products do: an edit is
  stamped later than the row it replaces, and no two versions of a product share a
  stamp (`Catalogue.Disciplined`).
- Pulled rows may come in any order, but not quite any: a merge keeps the local row on a
  tie, and the barcode index depends on the order when products contend for a code.
  `PullOrder.TwoPullsCommuteIff` says exactly when two rows commute on the whole committed
  state, `PullOrder.PullBatchKeepsExactIff` exactly when a batch leaves the index exact, and
  `PullOrder.SwapLosesACode` is the failing case: of two products that swap their codes one
  can no longer be scanned.
- The outbox clear removes a product's mark by id. An edit of the same product between
  the outbox read and the clear therefore loses its mark. The model records such ids in
  the ghost field `lost` until the product is written again or a merge replaces it. A till
  agrees with the cloud on a product, after the last round, exactly when it is not in `lost`
  (`Convergence.ProductsConverge`), and `LostByEvents.LostIffOvertaken` tells the set from
  the events of the run; `Races.NoRaceNoLoss` proves the set empty in runs with
  no such edit, and `Races.RacedEditIsNeverListed` is the failing case.
- The settings marker compares stamps, so a change made while a push is under way is lost
  exactly when it is stamped no later than the pushed snapshot: within one tick of the
  clock, or after the clock stepped back (`SettingsSync.ClearDropsMarkerIff`).
- Settings agree across tills when every pull reply carries the cloud's settings
  (`SettingsConvergence.RepliesCarrySettings`); whether the cloud leaves them out of some
  replies cannot be told from its wire types. A push that arrives late must not bring
  newer settings after the last round (`SettingsConvergence.SettingsRest`), which it
  cannot while every change is stamped later than the last.
- The barcode index stays exact on writes to live products. Tombstones keep their
  barcode, and all three write paths delete by the stored one, so an edit, a delete or
  a pull can take another product's entry. `Barcodes.UpdateKeepsExactIff`,
  `DeleteKeepsExactIff` and `PullKeepsExactIff` say exactly when. The weaker property
  that an entry points at a stored product with that code always holds.
- Re-taxing the net of an inclusive price stays within a cent for every price exactly at
  rates up to 200%, which is more than the 100% one would expect. Above that, which the
  settings screen accepts, `Tax.RetaxingIsWithinOneCentIff` says which prices miss by more.
- `Link` is documented to reset the pull cursor (`internal/store/boltstore/sync.go:77-79`)
  but does not; only `Unlink` clears it. The model follows the code, within one shop.
- `coalesce` is described as waiting until nudges go quiet. Its timer is never reset, so
  the window ends 1.5 seconds after the nudge that opened it (`Scheduler.WindowNeverExtends`).
- The reference index is described as exact because NUL never appears in a reference.
  It is exact even if one does: only sale ids must be free of NUL (`RefIndex.KeyReadsOneWay`).
- Convergence after "two rounds" means that every till completes one round after the last
  write, and then the till in question completes another.

## Model

| member | source | states |
|---|---|---|
| Convergence.LogsConverge | internal/cloudsync/engine.go:46-138 | Once writes stop and every till has completed a round, a till that completes another holds exactly the sales and stock events ever written anywhere, whatever was interleaved, lost or crashed before. |
| Convergence.OnHandConverges | internal/cloudsync/engine.go:46-138 | Any two such tills derive the same on-hand for every product. |
| Convergence.ProductsConverge | internal/cloudsync/engine.go:46-138 | Such a till holds the cloud's version of a cloud-held product, tombstones included, if and only if no racing edit of its own lost its mark and still stands. |
| SettingsConvergence.SettingsConverge | internal/cloudsync/engine.go:46-138 | Such a till ends with the cloud's shop settings, or the defaults if none were ever set, when replies carry the cloud's settings and no late push changes them any more. |
| SharedSettings.TillsTaxAlike | internal/store/boltstore/boltstore.go:718-728 | Any two such tills then show the same value of every setting but the printer's address and the logo flag, and tax the same lines alike. |
| SharedSettings.OnlyPrinterAndLogoStayLocal | internal/store/boltstore/sync.go:379-385 | Of the settings there are, exactly the printer's address and the logo flag do not sync. |
| SharedSettings.SavingMarksShared | internal/store/boltstore/boltstore.go:597-628 | A saved setting is shown from then on, and stamps the marker if and only if it is one of the others. |
| SharedSettings.PushedAsShown | internal/store/boltstore/sync.go:210-238 | A push carries each shared setting with the value the till shows. |
| SharedSettings.SharedSettingsShareTax | internal/store/boltstore/boltstore.go:718-728 | Tills with the same shared settings have the same tax rate and mode. |
| SharedSettings.SavedTaxApplies | internal/store/boltstore/boltstore.go:718-728 | A saved rate, spelled in decimal, and a saved mode are those that the next sale is taxed by; an unset shop is untaxed. |
| SettingsConvergence.TickingSettingsRest | internal/store/boltstore/sync.go:210-272 | When every change is stamped later than the last, no late push changes the cloud's settings after the first round. |
| LostByEvents.ProductsConvergeIffNotOvertaken | internal/cloudsync/engine.go:46-138 | In terms of events: such a till holds the cloud's version if and only if no push of the product that a write of its own overtook still stands. |
| Convergence.RoundSettlesAll | internal/cloudsync/engine.go:73-126 | After every till has completed a quiet round, every outbox and settings marker is clear and stays clear. |
| Convergence.CloudFreezes | internal/cloudsync/engine.go:73-126 | From then on neither the cloud's sales and stock events nor the history changes, whatever abandoned push arrives late and whatever the clocks do. |
| Convergence.ProductsFreeze | internal/cloudsync/engine.go:73-126 | Nor, when clocks move forward, do the cloud's products. |
| Convergence.RestingStep | internal/cloudsync/client.go:73-76 | Once every till has settled, a push that arrives late changes no row of the cloud, and nothing at all unless it carries settings. |
| Convergence.CursorReaches | internal/cloudsync/engine.go:129-138 | A cursor never again falls below the cloud's position at the start of a completed round. |
| Guarantees.CursorSafety | internal/cloudsync/engine.go:119-138 | In every reachable state, each cloud sale and event numbered at or below a till's cursor is on that till, unaltered, even after a crash between merge and cursor update. |
| Guarantees.ProductCursorSafety | internal/cloudsync/engine.go:119-138 | Likewise each such cloud product is on the till, in that version or a later one. |
| Guarantees.OutboxCoverage | internal/store/boltstore/sync.go:145-272 | In every reachable state each sale and event on a till is pending there or held by the cloud with the same content. |
| Guarantees.ProductCoverage | internal/store/boltstore/sync.go:145-272 | So is the current version of every product but seed items, when no edit of that product falls between outbox read and clear. |
| Guarantees.MarksFallOnlyByClearing | internal/store/boltstore/sync.go:243-272 | A sale or event mark disappears in a step exactly when that step clears a cycle that pushed that row, and the cloud then has it. |
| Guarantees.IndexesStaySound | internal/store/boltstore/sync.go:306-347 | In every reachable state the reference index is exactly the keys of referenced sales and each barcode entry points at a stored product with that code. |
| LogSafety.TraceIsSafe | internal/cloudsync/engine.go:46-138 | The log invariant (rows genuine, covered, reflected up to the cursor, in every phase of a cycle and in every abandoned push) holds in every state of every run. |
| Catalogue.TraceIsTidy | internal/cloudsync/engine.go:46-138 | The catalogue invariant (versions unique, seeds private, products covered and reflected) holds in every state of every disciplined run. |
| Races.NoRaceNoLoss | internal/store/boltstore/sync.go:243-272 | If no local write touches a product while a cycle carries it, no mark is ever lost. |
| LostEdits.ClearIsSafeIffUneditedOrOvertaken | internal/store/boltstore/sync.go:246-250 | After clearing a pushed product, the cloud has the stored version or a later one if and only if it was not edited since it was read or another till has overtaken the edit; an edited version itself is not there and is recorded as lost. |
| LostEdits.TraceKeepsPrivate | internal/store/boltstore/sync.go:243-272 | In every disciplined run a version whose mark was lost, or that an edit made while its product is in flight, is on its own till alone: not in the cloud, on another till or in any batch. |
| LostByEvents.LostIffOvertaken | internal/store/boltstore/sync.go:145-272 | A product is lost on a till if and only if the till wrote it between a push's read of it and that push's clear, and has neither written it again since nor merged another version over it. |
| Races.RacedEditLosesItsMark | internal/store/boltstore/sync.go:246-250 | Every edit between read and clear stays stored and is not listed in an outbox read right after the clear. |
| Races.RacedEditIsNeverListed | internal/store/boltstore/sync.go:145-272 | In any run, a product whose mark a clear removed is in no later outbox read of its till until that till writes it again. |
| SettingsSync.ClearedSettingsWerePushed | internal/store/boltstore/sync.go:210-272 | With a moving clock, in any interleaving, the marker goes only when the till's settings are the pushed ones and the cloud has them or newer; a change made since keeps it. |
| SettingsSync.TraceKeepsSettingsOk | internal/store/boltstore/sync.go:210-272 | A pushed snapshot carries values and stamp of one instant: until the settings move on they equal it, and after that the marker is later. |
| SettingsSync.PulledSettingsRespectMarker | internal/store/boltstore/sync.go:360-377 | A pull changes shop settings only if no newer local change waits, never a device setting, never the marker. |
| SettingsSync.MarkerSurvivesIffLater | internal/store/boltstore/sync.go:261-268 | A shop setting changed between snapshot and clear stays marked if and only if its stamp is later than the snapshot's; the settings then differ from the pushed ones if and only if the value does. |
| SettingsSync.ClearDropsMarkerIff | internal/store/boltstore/sync.go:210-272 | In any run, with any clocks, a clear drops the marker if and only if no setting changed since its cycle's snapshot or the last change is stamped no later; else the marker is that change's stamp. |
| Merge.PulledProductsAreNewest | internal/store/boltstore/sync.go:306-333 | Merging products leaves for each id a row with the greatest stamp among the local and pulled ones, the local one on a tie. |
| Merge.ApplyPulledRows | internal/store/boltstore/sync.go:280-358 | A pull takes the newest products and the set union of sales and of stock events, local rows kept. |
| Merge.PullNeverEchoes | internal/store/boltstore/sync.go:280-377 | A pull leaves every outbox, the settings marker, the cursor and the link as they were. |
| PullOrder.PullOrderIsImmaterial | internal/store/boltstore/sync.go:280-377 | Batches with the same rows in any order and multiplicity, one version an instant, commit the same rows, reference index and all else but the barcode index, and the same barcode index too when it was exact and no codes clash. |
| PullOrder.TwoPullsCommuteIff | internal/store/boltstore/sync.go:306-333 | Two pulled products commit the same state in either order if and only if one is old, or different products contend for no code, or versions of one product differ in stamp and pass through no code that the index gives another. |
| PullOrder.SwapLosesACode | internal/store/boltstore/sync.go:306-333 | Two live products that swap their codes in one pull end, in either order, with the first one's code unscannable, and the orders differ. |
| PullOrder.PullBatchKeepsExactIff | internal/store/boltstore/sync.go:306-333 | A batch with one row a product keeps the barcode index exact if and only if, laid over the stored products, it leaves no two live products with one code and no row gives up a code after the last row of the product that ends up carrying it: a condition on the stored products and the batch. |
| PullOrder.UnclashedBatchKeepsExact | internal/store/boltstore/sync.go:306-333 | Any batch whose codes clash with none keeps the index exact at every row, in any order. |
| Merge.PullBatchesMaySplit | internal/store/boltstore/sync.go:280-377 | Any two batches in turn commit the very state, indexes and settings included, that their join commits: rows concatenated, settings overlaid as far as the marker admits each. |
| Merge.LaterSettingsAreTheJoin | internal/store/boltstore/sync.go:360-377 | When the second batch's settings are as late and cover the first's, the joined settings are simply the second's. |
| SettingsConvergence.LaterRepliesCover | internal/cloudsync/client.go:51-58 | Of two replies of one run the later covers the earlier, so pulling both amounts to one batch with the later's settings. |
| Merge.PullIsIdempotent | internal/store/boltstore/sync.go:280-377 | Re-applying a batch changes nothing at all. |
| CloudModel.ApplyPushEffect | internal/cloudsync/client.go:31-58 | A push leaves the newest products and the union of logs in the cloud, every changed row numbered past the old position. |
| StoreInvariants.RunKeepsInv | internal/store/boltstore/boltstore.go:134-422 | Every local write keeps the store's invariants: keys, marks of stored rows, exact reference index, sound barcode index. |
| StoreInvariants.ApplyPulledKeepsInv | internal/store/boltstore/sync.go:280-377 | So does every pull. |
| Barcodes.UpdateKeepsExactIff | internal/store/boltstore/boltstore.go:189-279 | An accepted edit keeps the barcode index an exact bijection if and only if its target is live, or it leaves a tombstone without a code whose old code has no entry. |
| Barcodes.DeleteKeepsExactIff | internal/store/boltstore/boltstore.go:284-312 | A delete keeps it exact if and only if the target is live or its stored code has no entry. |
| Barcodes.PullKeepsExactIff | internal/store/boltstore/sync.go:306-333 | A pulled product that takes effect keeps it exact if and only if neither the code it frees nor the code it claims belongs to another product. |
| Barcodes.LiveRunKeepsExact | internal/store/boltstore/boltstore.go:134-312 | Over any run of local writes to live products the index is an exact bijection with the active barcoded products. |
| Barcodes.ExactResolves | internal/store/boltstore/boltstore.go:316-345 | In an exact index a code resolves to a product if and only if it is active and carries that code. |
| Sums.SumOfMerge | internal/store/boltstore/stock.go:31-102 | A total over merged logs plus the total over their common part equals the sum of both. |
| Stock.MergedOnHand | internal/store/boltstore/stock.go:31-102 | On-hand of two merged tills plus on-hand of what they share equals the sum of their on-hands. |
| Stock.SaleMovesStockAndBalances | internal/store/boltstore/boltstore.go:354-422 | A committed sale takes exactly the requested quantity off each product's on-hand, and paid equals total plus non-negative change. |
| Stock.LinesAcceptedIff | internal/store/boltstore/boltstore.go:354-385 | Sale lines are accepted if and only if every line asks for a positive quantity of a stored product. |
| Stock.SnapshotsAreOfRequestedLines | internal/store/boltstore/boltstore.go:354-385 | Accepted lines are the requested ones in order, at each product's name, price and taxability of the moment. |
| SaleCharges.SaleChargesWhatWasAsked | internal/store/boltstore/boltstore.go:354-422 | An accepted sale records for each requested line the stored product's name, price and taxability and the tax nearest to its share of price times quantity; its subtotal is the sum of price times quantity, its total adds exclusive tax only, the change is what was paid beyond it, and time, reference, payment method, rate and mode are those of the request and the shop. |
| SaleCharges.SaleAcceptedIff | internal/store/boltstore/boltstore.go:354-422 | A request is accepted if and only if it has lines, each asks for a positive quantity of a stored product, and the payment covers the total, which the payment does not affect; an empty and an underpaid sale each have their own error. |
| SaleCharges.LineErrors | internal/store/boltstore/boltstore.go:354-385 | The error of a refused line list is that of its first bad line: a quantity below one, or else an unknown product. |
| SaleCharges.SaleTakesWhatWasAsked | internal/store/boltstore/boltstore.go:354-422 | A sale takes off each product's on-hand the sum of the quantities its lines ask of it. |
| ProductFacts.AddingRecords | internal/store/boltstore/boltstore.go:134-185 | An added product is stored as drafted and found by its code; its on-hand grows by the opening count if it is tracked and not seeded, by an event on record; nothing else moves. |
| ProductFacts.EditingRecords | internal/store/boltstore/boltstore.go:189-279 | An edited product takes the draft's fields, keeps its id and tombstone, gives up its old code and is found by the new one; the stock difference goes on record; nothing else moves. |
| ProductFacts.DeletingRecords | internal/store/boltstore/boltstore.go:284-312 | A deleted product stays on record off sale with its other fields, its code is free, and no stock moves. |
| ProductFacts.RestockingRecords | internal/store/boltstore/stock.go:106-161 | Restocking adds the quantity to one product's on-hand by an event on record, and changes no product row. |
| ProductFacts.SellingRecords | internal/store/boltstore/boltstore.go:354-422 | A sale is stored under its id, marked, and found under its reference; products and events stay. |
| ProductFacts.StockStartsAtZero | internal/store/boltstore/stock.go:74-102 | An empty store has nothing in stock. |
| BoltStore.UpdateSetsOnHand | internal/store/boltstore/boltstore.go:189-279 | A tracked edit leaves the signed on-hand exactly at the entered count, oversold items included, and moves no other product's. |
| BoltStore.Store.StockTotals | internal/store/boltstore/stock.go:31-59 | One pass over both logs gives totals whose difference is every product's on-hand, so derived stock is the floored on-hand. |
| BoltStore.Store.OnHandOf | internal/store/boltstore/stock.go:74-102 | The per-product walk gives the signed on-hand of the logs. |
| BoltStore.Store.Products | internal/store/boltstore/boltstore.go:91-122 | Lists each active product once, by name, showing the floored on-hand if tracked and nothing otherwise. |
| BoltStore.Store.AddProduct | internal/store/boltstore/boltstore.go:134-185 | Commits the new row, its barcode entry, its opening count and its mark, or refuses a taken barcode and changes nothing. |
| BoltStore.Store.UpdateProduct | internal/store/boltstore/boltstore.go:189-279 | Commits the edit with its index change, adjustment event and mark, refusing a missing product or another's barcode; the tracked on-hand becomes the entered count. |
| BoltStore.Store.DeleteProduct | internal/store/boltstore/boltstore.go:284-312 | Commits a tombstone that keeps its barcode, frees the code and marks the row, or reports a missing product. |
| BoltStore.Store.ProductByBarcode | internal/store/boltstore/boltstore.go:316-345 | Answers with the product the index entry names, if it is active, with its code and floored on-hand, and with nothing if there is no such product. |
| BoltStore.Store.CreateSale | internal/store/boltstore/boltstore.go:354-422 | Commits exactly the priced and taxed sale, its index key and its mark, or returns the first error and changes nothing. |
| BoltStore.Store.Restock | internal/store/boltstore/stock.go:106-161 | Appends one event and its mark unless the quantity is zero, and returns the resulting on-hand, or refuses a missing product. |
| BoltStore.Store.SalesByReference | internal/store/boltstore/boltstore.go:463-488 | The seek-and-scan returns precisely the sales whose reference equals the query, each once, newest first. |
| BoltStore.Store.SearchSales | internal/store/boltstore/search.go:25-69 | Both paths return the sales satisfying every set criterion, newest first, cut to the limit. |
| BoltStore.Store.SearchByReference | internal/store/boltstore/search.go:25-45 | The index-backed path selects the same sales as filtering all of them. |
| BoltStore.Store.SearchByScan | internal/store/boltstore/search.go:45-69 | So does the scan path. |
| SaleLists.Matches | internal/store/boltstore/search.go:71-105 | The test passes a sale if and only if it meets every criterion that is set but the reference. |
| SaleLists.SatisfiesIff | internal/store/boltstore/search.go:71-105 | Meeting the criteria means: the reference is the one asked for, some item's folded name is the folded text with something before and after it, the method is the one asked for, the time is from the start and before the end, and the total within both bounds, as far as each is set. |
| BoltStore.Store.SetSetting | internal/store/boltstore/boltstore.go:597-617 | Saves the value, and stamps the settings marker exactly for keys that sync. |
| BoltStore.Store.Settings | internal/store/boltstore/boltstore.go:583-593 | Returns every saved setting, and the default of every other. |
| BoltStore.Store.PendingProducts | internal/store/boltstore/sync.go:145-163 | Lists exactly the stored products that are marked, each once. |
| BoltStore.Store.PendingSales | internal/store/boltstore/sync.go:166-184 | Lists exactly the stored sales that are marked, each once. |
| BoltStore.Store.PendingStockEvents | internal/store/boltstore/sync.go:187-205 | Lists exactly the stored events that are marked, each once. |
| BoltStore.Store.ClearPushed | internal/store/boltstore/sync.go:243-272 | Removes exactly the listed marks, and the settings marker only if it is not later than the pushed stamp. |
| BoltStore.Store.ApplyPulled | internal/store/boltstore/sync.go:280-304 | Commits the merge of the whole batch and keeps the store's invariants. |
| BoltStore.Store.Link | internal/store/boltstore/sync.go:80-101 | Sets the link and clears the last error; the cursor stays. |
| BoltStore.Store.Unlink | internal/store/boltstore/sync.go:105-115 | Forgets the link and the cursor; the outbox stays. |
| RefIndex.KeyReadsOneWay | internal/store/boltstore/boltstore.go:731-737 | Two keys are equal, and a key has a reference's prefix, only for that reference and sale id, even when references contain NUL. |
| RefIndex.ScanAdvances | internal/store/boltstore/boltstore.go:463-488 | Each cursor step accounts for one more sale of the reference and skips none. |
| RefIndex.ScanEnds | internal/store/boltstore/boltstore.go:463-488 | When the cursor leaves the prefix every sale of the reference has been met. |
| ByteOrder.PrefixedKeysAreContiguous | internal/store/boltstore/boltstore.go:463-488 | In byte order nothing between a prefix and a key with that prefix lacks it. |
| ByteOrder.BelowIff | internal/store/boltstore/boltstore.go:463-488 | A key comes before another if and only if it ends or has the lower byte where they first part. |
| SaleLists.CutKeepsNewest | internal/store/boltstore/search.go:60-69 | No match dropped by the limit is newer than a kept one. |
| Engine.Engine.SyncOnce | internal/cloudsync/engine.go:46-70 | Whatever the network does, a cycle is a run of protocol steps; if it reports success and no write of the till falls between its store calls, the outbox is empty and the till is level with the cloud, in products too when clocks moved forward; an unlinked till does nothing. Writes that do fall between its store calls are covered by the runs of the protocol, not by this method. |
| Engine.Engine.Push | internal/cloudsync/engine.go:73-126 | Reads the outbox bucket by bucket in order; asks the cloud nothing exactly when there is nothing; clears only after an acknowledged push; never moves the cursor. |
| Engine.Engine.Pull | internal/cloudsync/engine.go:129-138 | Reads the cursor, asks, merges, and only then advances the cursor to the cloud's position; a failed pull leaves the store as it was. |
| Scheduler.CyclesNeverOverlap | internal/cloudsync/controller.go:73-81 | In every interleaving at most one sync cycle is running, the loop's or any caller's. |
| Scheduler.NoLostWakeup | internal/cloudsync/controller.go:87-154 | A nudge or a tick not yet followed by the start of a sync leaves a buffered token or a loop state whose only way on is through Sync, whatever else happens. |
| Scheduler.IdleMeansSynced | internal/cloudsync/controller.go:121-154 | When the loop idles with an empty buffer, a sync has started since every earlier nudge and every earlier tick. |
| Scheduler.TickLeadsToSync | internal/cloudsync/controller.go:125-134 | From a tick until the loop's next sync starts, the loop does nothing but wait for the mutex and start that sync. |
| Scheduler.TickReachesSync | internal/cloudsync/controller.go:125-134 | From any idle state a tick can be followed by the start of a sync, the mutex being freed if it is held. |
| Scheduler.StartupIsOwed | internal/cloudsync/controller.go:120-124 | From the start of the loop, before any tick or nudge, the sync at startup is owed until it starts. |
| Scheduler.IdleMeansStarted | internal/cloudsync/controller.go:120-124 | A loop that idles has started its first sync. |
| Scheduler.StartupLeadsToSync | internal/cloudsync/controller.go:120-124 | Until that first sync starts the loop does nothing but wait for the mutex. |
| Scheduler.CoalescingEndsInSync | internal/cloudsync/controller.go:130-154 | The only ways out of the coalescing window are the sync itself and cancellation, which too runs one last sync. |
| Scheduler.CycleEndsIdle | internal/cloudsync/controller.go:73-81 | A cycle of the loop ends with the mutex free and the loop waiting again. |
| Scheduler.StopsOnlyWhenCancelled | internal/cloudsync/controller.go:125-128 | The loop stops only when cancelled, and never during a cycle. |
| Scheduler.WindowNeverExtends | internal/cloudsync/controller.go:141-154 | Absorbing nudges never moves the coalescing deadline. |
| Scheduler.ObligedLoopCanSync | internal/cloudsync/controller.go:121-154 | From any state with a buffered nudge or a pending sync, a loop that has not stopped can reach Sync within five steps. |
| Tax.ComputeTax | internal/store/tax.go:17-46 | Sets every line's tax in place; subtotal and tax are the sums over the lines, and the total adds only exclusive tax. What that comes to for a sale is told by SaleCharges.SaleChargesWhatWasAsked. |
| Tax.RoundsToNearest | internal/store/tax.go:50-55 | The rounded quotient is an integer nearest to the exact one, a tie going up. |
| Tax.NearestIsUnique | internal/store/tax.go:50-55 | Only one integer is nearest with ties up, so the rounding is determined. |
| Tax.ExtractingAddedTaxIsExact | internal/store/tax.go:17-46 | For every net and positive rate, the inclusive tax of net plus its exclusive tax is that exclusive tax. |
| Tax.RetaxingNetIsWithinOneCent | internal/store/tax.go:17-46 | Re-taxing the net of an inclusive price misses the gross by at most a cent, for rates up to 200%. |
| Tax.RetaxingIsWithinOneCentIff | internal/store/tax.go:17-46 | For every positive rate and gross, the re-taxed net is within a cent if and only if the remainder of the embedded tax is below 15000 or at least the rate less 5000. |
| Tax.OneCentBoundIffUpTo200Percent | internal/store/tax.go:17-46 | One cent bounds the miss of every gross price if and only if the rate is at most 200%. |
| Tax.RetaxingMissesAbove200Percent | internal/store/tax.go:17-46 | For every rate above 200% a stated gross price misses by more. |
| Tax.ExclusiveDrift | internal/store/tax.go:17-46 | Over any line list exclusive tax drifts from the exact rate on the taxable subtotal by at most half a cent a taxable line. |
| Tax.InclusiveWithinGross | internal/store/tax.go:17-46 | Inclusive tax never exceeds the price, line by line and in total. |
| Tax.TaxIsNonNegative | internal/store/tax.go:17-46 | On non-negative lines the tax is non-negative, zero without a mode, and the total is the subtotal plus exactly the tax added on top. |
| EscPos.TextPreview | cmd/fakeprinter/main.go:104-132 | Ends on every input, truncated commands included, with the trimmed text of its recursive meaning, or a note when nothing is printable. |
| EscPos.CommandIsSilent | cmd/fakeprinter/main.go:104-154 | No byte of a complete command, of any length its header gives, reaches the text. |
| EscPos.StepsOver | cmd/fakeprinter/main.go:104-154 | The decoder steps over three bytes of ESC a, ESC E and GS !, four of GS V, the header and counted bytes of a GS v raster, and two of any other command. |
| EscPos.CutShortShowsNothing | cmd/fakeprinter/main.go:135-150 | A lone ESC or GS at the end and a raster without a whole header show nothing and end the job. |
| EscPos.TextIsShown | cmd/fakeprinter/main.go:104-132 | Text without ESC or GS shows exactly its printable bytes and newlines, whatever follows. |
| EscPos.TextIsWholeIff | cmd/fakeprinter/main.go:104-154 | Any bytes come back with all that can be shown if and only if nothing showable stands where the decoder takes bytes for a command. |
| EscPos.LineComesBackIff | cmd/fakeprinter/main.go:104-154 | A line in front of commands shows exactly its printable bytes and its newline if and only if nothing showable of it stands where the decoder takes bytes for a command. |
| EscPos.RasterIsCommand | cmd/fakeprinter/main.go:135-154 | The header of a rendered logo decodes to exactly the length of its payload. |
| Receipt.RenderReceipt | internal/printer/receipt.go:69-89 | For any theme, paper and logo, decoding the rendered bytes gives the receipt's lines trimmed of outer newlines: exactly for printable text, and its printable part whenever no laid-out line swallows anything of its own, as none does without ESC or GS. What those lines show is told by ReceiptRows.LayoutShowsSale, how they stand on paper by Paper.JobIsDrawn. |
| ReceiptRows.LayoutShowsSale | internal/printer/receipt.go:99-235 | On every theme the lines are, from the top: the shop's name, the time and the trimmed header line; each item's name with its price times quantity; subtotal and added tax above the total or included tax below it; the cash paid and the change given; and the footer; in the theme's rules, alignment and emphasis, each amount row as wide as the paper. |
| ReceiptRows.PaperShowsSale | internal/printer/receipt.go:69-89 | What the decoder reads off the printed bytes of printable texts is such lines. |
| ReceiptRows.ScreenShowsSale | internal/printer/receipt.go:93-96 | So is what the screen shows, centred lines indented to within one of the middle. |
| ReceiptRows.LeftRightReads | internal/printer/receipt.go:282-299 | A row shows its caption, or what fits of it, then spaces, then the amount. |
| ReceiptRows.MoneyShape | internal/printer/receipt.go:316-328 | An amount is the currency behind a minus sign if negative, shillings with a comma before every three digits, a point and two digits, and reads as its cents. |
| Paper.JobIsDrawn | internal/printer/receipt.go:69-89 | However the printer was set before, a job of texts without ESC and GS puts on paper, below its logo, every byte of every line in that line's alignment, weight and size, and one blank row. |
| Paper.LinesAreDrawn | internal/printer/receipt.go:241-263 | Printed lines stand each in its own style and leave the printer plain. |
| Paper.CommandSetsPen | internal/printer/printer.go:22-32 | A complete command does to the printer what its comment says, and puts nothing on paper. |
| EscPos.PreviewIsPrintable | cmd/fakeprinter/main.go:104-132 | The preview is never empty, and holds nothing but newlines and printable ASCII. |
| Receipt.LinesAreWholeIff | internal/printer/receipt.go:241-263 | Printed lines come back whole at every line if and only if no line's text swallows anything showable of its own or its newline. |
| Receipt.JobShowsLines | internal/printer/receipt.go:69-89 | A job shows its lines' texts and nothing of its commands or bitmap. |
| Receipt.LinesAreShown | internal/printer/receipt.go:241-263 | The bytes of any lines decode to their texts, a newline after each, in front of anything. |
| Receipt.WriteLines | internal/printer/receipt.go:241-263 | Appends to the buffer each line between its alignment, size and emphasis commands. |
| Receipt.PreviewText | internal/printer/receipt.go:93-96 | The on-screen preview shows the very lines that are printed, centred ones padded; ReceiptRows.ScreenShowsSale tells what they show. |
| Receipt.FooterKeepsText | internal/printer/receipt.go:213-222 | The footer prints under a blank line, one line each, and joins back to the very text when it has no carriage return. |
| Texts.TrimSpaceShape | internal/printer/receipt.go:119 | The header line, and the footer that is tested for being empty, are trimmed of exactly the white space at both ends. |
| Texts.TrimRightShape | internal/printer/receipt.go:219 | A footer line loses exactly the carriage returns at its end. |
| Receipt.LeftRightShape | internal/printer/receipt.go:282-299 | The amount stays whole at the end behind a space, the name keeps what fits, and the row is exactly the paper's width whenever the amount leaves room. |
| Receipt.ColumnsAlign | internal/printer/receipt.go:177-235 | With 64-bit amounts every item and totals row is exactly as wide as the paper. |
| Receipt.CenterBalances | internal/printer/receipt.go:302-308 | Centred text stays within the width with margins equal to within one. |
| Receipt.Money | internal/printer/receipt.go:316-328 | Prints the sign, the grouped shillings and two places of cents. |
| Receipt.MoneyReads | internal/printer/receipt.go:316-328 | A printed amount reads back as its cents and is signed exactly when negative. |
| Receipt.LabelShowsTheRate | internal/printer/receipt.go:199-209 | The label shows no, one or two decimals, exactly those needed, and never trims the whole part. |
| Decimal.GroupThousands | internal/printer/receipt.go:331-343 | The result reads back as the number and has a comma at every fourth place from the right and nowhere else. |
| Raster.RasterFromImage | internal/printer/logo.go:31-92 | A picture becomes a header and one bit a dot, set exactly where the sampled pixel is opaque and dark; an undecodable or empty picture is refused. |
| Raster.DotShowsPixel | internal/printer/logo.go:72-92 | Bit x mod 8 from the left of byte x div 8 of row y is set if and only if the pixel proportionally as far into the picture is at least half opaque and has a luma below one half. |
| Raster.HeaderReads | internal/printer/logo.go:84-91 | The raster begins with GS v 0, mode 0, and its bytes a row and rows, low byte first. |
| Raster.ProportionsKept | internal/printer/logo.go:48-70 | The raster is the widest multiple of eight that paper and picture allow and as high in proportion, or, if that is above 320, 320 high and as wide in proportion, rounded down; neither side vanishes. |
| Raster.Scale | internal/printer/logo.go:48-70 | The width is a multiple of 8 in 8 to 384 and the height in 1 to 320, in proportion up to flooring. |
| Raster.SampleInside | internal/printer/logo.go:72-78 | Every sampled coordinate lies inside the picture. |
| Raster.Draw | internal/printer/logo.go:72-90 | The nested loops set exactly the bits of the dark dots. |
| PdfColumns.FitWidths | internal/web/pdfdoc.go:139-174 | Ends with money columns at their capped width and the row in budget or every other column at most 6; each shrunk column within one of the widest, at least 6, and nothing shrunk past the budget. |
| PdfColumns.RoomyColumnsKeepTexts | internal/web/pdfdoc.go:139-174 | A money column, and every column of a table that fits the budget, has room for each of its texts of up to 44 characters. |
| PdfColumns.FormatRow | internal/web/pdfdoc.go:190-201 | A row is exactly as long as its line length, each cell in its column's place, a space between; PdfReport.RowHoldsItsCells tells which cell. |
| PdfColumns.CellFillsWidth | internal/web/pdfdoc.go:205-218 | A cell fills its width exactly: whole and aligned when it fits, else its beginning with two dots when there is room. |
| PdfText.PdfString | internal/web/pdfdoc.go:223-244 | Escapes backslash and parentheses and blanks control bytes. |
| PdfText.LiteralReads | internal/web/pdfdoc.go:223-244 | A literal reader (ISO 32000-1, section 7.3.4.2) gets back the text with control bytes as spaces, and stops where the literal ends. |
| PdfText.PageShows | internal/web/pdfdoc.go:62-75 | The strings a page's stream shows are its title, headings, rule and lines, in order. |
| PdfText.ChunksHoldLines | internal/web/pdfdoc.go:57-61 | The pages' lines concatenate to the data lines; no page is empty, and all but the last hold 55. |
| PdfText.Paginate | internal/web/pdfdoc.go:55-75 | Writes one stream a page, showing that page's share of the lines under the headings. |
| PdfFile.AssemblePDF | internal/web/pdfdoc.go:86-134 | Writes the numbered objects, the table of the offsets noted on the way, and a trailer pointing at the table. |
| PdfFile.ReaderFindsObject | internal/web/pdfdoc.go:115-130 | Following startxref and the table, a reader finds each object where its entry says, when offsets stay below ten to the tenth. |
| PdfFile.EntryIs20Bytes | internal/web/pdfdoc.go:126-128 | A cross-reference entry is 20 bytes (ISO 32000-1, section 7.5.4) if and only if its offset is below ten to the tenth, and reads back as the offset. |
| PdfFile.StartxrefPointsAtTable | internal/web/pdfdoc.go:123-130 | The number before the end-of-file mark is the table's offset, for any file. |
| PdfFile.KidsArePages | internal/web/pdfdoc.go:97-101 | The kids list reads as references to exactly the page objects, in order. |
| PdfReader.ReaderRecoversStreams | internal/web/pdfdoc.go:86-134 | A reader that follows startxref, the root, the page tree, the kids, their contents and the stated stream lengths in the file's bytes gets back exactly the written streams, in order. |
| PdfReader.TrailerNamesRoot | internal/web/pdfdoc.go:123-130 | The root key behind the table refers to the catalog, for any file. |
| PdfReader.StreamIsRead | internal/web/pdfdoc.go:106-109 | A stream object's stated length delimits exactly its data. |
| PdfFonts.PageHasFonts | internal/web/pdfdoc.go:103-113 | On every page of the file F1 leads, through the file's own references, to Courier, and F2 to bold Helvetica. |
| PdfFonts.PageHasBox | internal/web/pdfdoc.go:110-113 | Every page of the file is 612 by 792 points. |
| PdfFonts.TreeCountsPages | internal/web/pdfdoc.go:97-101 | The page tree of the file counts exactly its pages. |
| PdfReport.PagesShowWholeTable | internal/web/pdfdoc.go:36-75 | In a laid-out report what the pages show below their headings is, together, the table's lines in order. |
| PdfReport.RowHoldsItsCells | internal/web/pdfdoc.go:190-218 | Column c of a row holds cell c of its record: the cell whole, with spaces left of it if numeric and right of it otherwise, or its beginning and two dots; a column past the record's cells is blank. |
| PdfReport.LayoutShowsTable | internal/web/pdfdoc.go:18-81 | Page r div 55 of a report shows in its row r mod 55 below the headings each cell of record r in its own column; every page shows the title with day and count, every heading in its column, and a rule. |
| PdfPage.PageIsLaidOut | internal/web/pdfdoc.go:62-75 | An interpreter of fonts and moves finds on a page its title, headings, rule and lines, each at its place, and nothing else. |
| PdfPage.FullPageFits | internal/web/pdfdoc.go:19-27 | The title stands at the top in 14-point bold, 55 rows under it in 8-point Courier, 12 points apart, at the left margin and above the bottom one. |
| PdfReport.WritePdf | internal/web/pdfdoc.go:18-81 | The reader finds in the file, while its offsets fit the table, exactly the pages that show the title, the headings and every record, cell by cell in its own column and in its place on the page, or a note that there is none. |

## Left out

- HTTP, JSON, cookies, login and the token: plumbing around the records modelled here.
- bbolt itself: a bucket is a map or a set, a transaction is one method call, and a failing transaction changes nothing.
- The audit log, day summaries, analytics, the stored logo blob and the seeding loop: easy members; seed items are products added without a mark.
- ForEach visits keys in byte order; the loops here pick keys in any order, which their results do not depend on.
- The order among sales of one instant or products of one name: a sort is any sort.
- Case folding in item searches: a parameter `lower`.
- 64-bit overflow of amounts, quantities and sequence numbers: integers are unbounded, save in `Receipt.ColumnsAlign`.
- Clocks, calendar formatting and time zones: an instant is an integer, printed dates are given.
- SaleCharges.SaleChargesWhatWasAsked: says nothing of the tax on a line that comes to a negative amount, which `internal/store/tax.go:48-50` rules out and the product form refuses.
- UUIDs are given, assumed new and free of NUL.
- Unmarshalling errors of stored rows: stored rows are well formed.
- More than one shop on a till (link to another shop after an unlink).
- Liveness of goroutines: `Scheduler` shows that an obliged loop can always reach Sync, not that a fair schedule takes it there.
- Image decoding: a picture is a size and a colour function. Multi-byte white space is not trimmed by `TrimSpace`.
- The test receipt and the job summary of the fake printer; CSV and zip export.
- A negative tax rate on a receipt: the rate is a natural number.
- writePDF's fallback for a table without pages: a table without rows already has one line, so it has a page.
- Receipt.RenderReceipt: a line that swallows something of its own may disturb the lines behind it; what then shows of those is not described.
