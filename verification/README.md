# Dufaka-Go, verified model

Dufaka-Go is a storefront for digital goods. Buyers place unpaid orders, a wallet or a
gateway sends payment notices, and the shop then hands out cards or asks its owner to
fulfil the order by hand. This project models the parts of it whose correctness is spread
over several functions, and proves what they promise over whole runs and every
interleaving.

| module | what it models |
|---|---|
| `Tables` | optional columns, sums over a table, ORDER BY id, clocks |
| `Text`, `Money` | decimal amounts: printing, parsing, the back-office money field |
| `Price` | the guarded product, wholesale tiers, the quote |
| `Ledger` | the tables `orders`, `goods`, `carmis` (cards) and `coupons`, and each transaction as a function of them |
| `Shop` | the same transactions as they run: a class that updates the rows step by step and rolls back, proved to do exactly what `Ledger` says |
| `LedgerInvariant`, `LedgerSteps` | what every transaction and every edit around the ledger keeps |
| `LedgerOutcomes` | what each transaction answers and writes, row by row: a reference written without the ledger's own functions |
| `LedgerRuns` | whole runs: conservation, exactly-once settlement, nothing fulfilled unpaid, a payment in time is never short |
| `LockOrder` | row locks as a state machine over lock requests: no cycle of waiting, and someone can always go on |
| `UnpaidQuota` | concurrent checkouts under advisory locks: the unpaid-order quota |
| `PollSchedule` | which waiting orders a tick polls, in what order, and when one starves; the write-once quote |
| `ReceiptThrottle` | the single-flight cache in front of the wallet |
| `SiteCache` | the generation-checked settings cache |
| `IpLimiter`, `LoginLimiter` | the two rate limiters |

## How it is put together

The ledger is given twice. `Ledger` says what a transaction does as one total function of
the tables: which refusal comes first, and which rows are written when none does. `Shop`
is the imperative form, with its loops over cards and due orders and its rollback; the
`ensures` of every transaction equates the new tables and the answer with the `Ledger`
function. The laws are then proved about the functions, and hold of the methods through that
equality. `LedgerOutcomes` says the same a third time, independently: which checkout, notice,
redelivery, expiry or save succeeds, for which rule it is refused otherwise, and what every
table holds afterwards, in terms of the columns found before.

A run (`LedgerRuns.Run`) is any sequence of checkouts, payment notices with any amount and
trade number, redeliveries, expiries, loads and saves of an order in the back office, card
edits, imports and soft deletions, starting from a shop that has taken no order. A save in
the back office is two events: the row is loaded first, any events may follow, and the save
then compares the status it was loaded with. `SKIP LOCKED` is an arbitrary set of cards
passed to each event. Only for a payment in time is it assumed that nobody else holds the
order's own cards; `LockOrder.OwnCardsFree` shows that nobody but a back-office card edit
could. The order of the deliveries so far is kept as a log beside the tables.

The other protocols follow the same pattern: a state, one function for each critical
section, a class whose methods are proved equal to these functions where the program
updates an object in place, a `Step` over all events, an invariant, and theorems about `Run`.

Some promises fail on some inputs. Each is stated with exactly the condition under which it
holds, beside an input on which it fails.

- Printing the least int64 gives a text with a second sign, so the print/parse round trip
  holds exactly for the amounts whose negation is an int64 (`Money.YuanRoundTrip`,
  `Money.LeastFails`).
- A repeated notice for an order that the owner has meanwhile failed is refused and not
  acknowledged (`LedgerRuns.RepeatedNotice`, `LedgerRuns.FailedThenRefused`).
- After `forget`, a caller that had itself started a wallet call before still gets that
  call's answer; all others get a newer one (`ReceiptThrottle.NothingStale`,
  `ReceiptThrottle.OwnAnswerIsOlder`).
- A payment in time comes up short when the order's own cards are all held elsewhere and no
  free one is to be had (`LedgerRuns.ShortThoughReserved`; exactly when, for any order:
  `LedgerRuns.ShortExactly`).
- The poll rotation does starve an order that has been polled before, for as long as enough
  orders join its bucket never polled, since these sort first (`PollSchedule.Starves`). An
  order is reached in time as long as those before it and those who join before it are fewer
  than the ticks can serve (`PollSchedule.PolledInTime`), and for ticks that do no more than
  they must only then (`PollSchedule.PolledExactly`).
- A tick that gets through one order only reaches no late one while a live one waits
  (`PollSchedule.OneRowIsLive`).

## Model

| member | source | states |
|---|---|---|
| LedgerRuns.StockConserved | internal/store/store.go:480-486 | In every state reachable from a fresh shop, the counter of a goods plus the amounts of its manual orders that are neither expired nor owing stock is the supply it started with; no counter is negative; `stock_owed` holds exactly for manual orders parked as short, stale back-office saves included |
| LedgerRuns.CouponConserved | internal/store/store.go:957-979 | Uses left on a coupon plus its orders that hold one is constant over checkout, expiry, late payment, short settlement and redelivery; never negative |
| LedgerRuns.HandedBackExactly | internal/store/store.go:957-961 | In every reachable state `coupon_ret_back` is 1 for a coupon order exactly while its status is -1, and 0 while it is unpaid |
| LedgerRuns.ReservationsSound | internal/store/store.go:460-478 | Every reserved card is unsold, undeleted and of the goods its order bought, and that order is automatic and unpaid or short; an unpaid automatic order holds exactly its amount, whatever SKIP LOCKED skipped |
| LedgerRuns.DeliveredOnce | internal/store/store.go:765-792 | Over any run each order is delivered at most once, every sales counter grew by exactly the delivered amounts, an automatic delivery has exactly its amount of distinct cards, each of its goods and reserved to it or free when it was delivered, and a delivered card that is not a loop card is in no later delivery |
| LedgerRuns.NothingFulfilledUnpaid | internal/store/store.go:755-786 | An order with a status from 2 to 6 in any reachable state has had a notice for exactly its `actual_price` |
| LedgerRuns.PaidByNotice | internal/admin/sales.go:499-502 | One step: only a notice naming the price moves an order out of unpaid or expired into a fulfilled status, no back-office save and no redelivery does |
| LedgerRuns.OrdersMoveForward | internal/admin/sales.go:499-502 | Whatever follows, an order never becomes unpaid again, expires only while unpaid, stays finished once finished, and keeps what was bought and its price |
| LedgerRuns.PaidInTime | internal/store/store.go:816-866 | An order still unpaid after any run and paid then gets exactly the cards it had reserved before the run, in id order and with the texts they had; a manual order is settled without any counter moving |
| LedgerRuns.BoughtIsDelivered | internal/store/store.go:460-478 | From checkout to delivery: the cards an automatic order picked when it was placed are, whatever happens while it stays unpaid, the cards a notice for its price delivers, in the same order and with the texts they had at checkout |
| LedgerRuns.ShortThoughReserved | internal/store/store.go:845-847 | An unpaid automatic order whose own cards and the free ones are all held elsewhere is paid short |
| LedgerRuns.OwnCardsPicked | internal/store/store.go:816-825 | The settlement query returns exactly the order's own reservations when the order is unpaid |
| LedgerRuns.ShortExactly | internal/store/store.go:845-847 | A payment or redelivery meets short stock if and only if fewer unskipped cards than the amount are left to an unpaid, expired or short automatic order, or a manual order had expired and the counter is below its amount; a short redelivery writes nothing |
| LedgerRuns.RepeatedNotice | internal/store/store.go:779-792 | After a delivery and any run, a second notice for the price changes no row; it is acknowledged if and only if the owner has not failed the order |
| LedgerRuns.FailedThenRefused | internal/store/store.go:782-784 | The other case happens: a paid manual order whose loaded form is saved as failed refuses the next notice for its price |
| LedgerRuns.MarkerStrips | internal/admin/sales.go:591-597 | Removing the short-stock note gives back the buyer's input exactly as it was before the note was put in front of it |
| LedgerRuns.RunKeeps | internal/store/store.go:724-735 | Any run from any sound state keeps the whole invariant, conserves both totals, moves orders only forward and leaves still unpaid orders their cards |
| LedgerSteps.CheckoutKeeps | internal/store/store.go:408-553 | A checkout keeps the invariant and both conserved totals |
| LedgerSteps.SettleKeeps | internal/store/store.go:736-891 | A settlement does, whether it delivers, is short, repeated, late or a redelivery |
| LedgerSteps.ExpireKeeps | internal/store/store.go:950-992 | An expiry does |
| LedgerSteps.SaveKeeps | internal/admin/sales.go:442-559 | An order save does, with a row loaded at any earlier moment |
| LedgerSteps.EditCardKeeps | internal/admin/catalog.go:722 | A card edit does |
| LedgerSteps.EditsOnlyShelf | internal/admin/catalog.go:283-285 | No edit, deletion or restoring of a card changes a reserved or sold card, another card, any order's holding or another table |
| LedgerSteps.DeletedComesBack | internal/admin/catalog.go:265-296 | Deleting an unreserved card on sale takes exactly that card off the shelf of its goods, and restoring it gives back the tables as they were |
| LedgerSteps.DeleteCardKeeps | internal/admin/catalog.go:283-285 | Soft deletion and restoring of a card do |
| LedgerSteps.ImportKeeps | internal/admin/catalog.go:596-645 | An import of any number of cards does |
| LedgerSteps.ReserveHolds | internal/store/store.go:540-550 | The reservation loop gives the new order exactly the picked cards and no other order's holding changes |
| LedgerSteps.ShipFrees | internal/store/store.go:848-862 | After a delivery the order holds no card and every other order holds what it held |
| LedgerSteps.ReleaseFrees | internal/store/store.go:980-984 | Expiry's release, scoped to the goods, and the back office's, which is not, free the same cards, all of the order's and nobody else's |
| LedgerOutcomes.PlacedExactly | internal/store/store.go:408-526 | A checkout is placed if and only if it breaks none of the seventeen rules, each written out on the tables; else it is refused for the first one it breaks and nothing is written |
| LedgerOutcomes.PlacedRow | internal/store/store.go:522-539 | The placed row has the form's goods and amount, and is charged max(0, price times amount less coupon less wholesale discount) |
| LedgerOutcomes.PlacedStock | internal/store/store.go:480-486 | The units of a manual goods, and nothing else, come off its counter |
| LedgerOutcomes.PlacedUse | internal/store/store.go:488-507 | One use, and nothing else, comes off the coupon |
| LedgerOutcomes.PlacedCards | internal/store/store.go:460-478 | An automatic order reserves the first free unheld cards by id, as many as bought; no other card is touched |
| LedgerOutcomes.NoticeExactly | internal/store/store.go:741-847 | The answer to any notice: for the exact price an unpaid, expired or short automatic order is delivered if and only if enough is left for it, and is short otherwise; a fulfilled order is acknowledged, a failed one refused, a wrong amount refused |
| LedgerOutcomes.RedeliveryExactly | internal/store/store.go:760-775 | A redelivery acts on short automatic orders only, delivers if and only if enough is left, and writes nothing when it does not |
| LedgerOutcomes.DeliveredRow | internal/store/store.go:863-880 | A delivered order is done with its cards' texts, or pending with its input kept, under the notice's trade number; a late coupon order takes its use again or is marked |
| LedgerOutcomes.DeliveredCounters | internal/store/store.go:868-888 | Its amount is added to the sales, and comes off the counter again exactly if it is manual and had expired |
| LedgerOutcomes.DeliveredCards | internal/store/store.go:816-847 | Its cards are its own unheld ones first, then free unheld ones, each by id |
| LedgerOutcomes.CardsHandedOut | internal/store/store.go:848-862 | Every delivered card loses its reservation and is sold unless it is a loop card; what else the order had reserved is freed; no other card is touched |
| LedgerOutcomes.ShelfAfterDelivery | internal/store/store.go:856-862 | The shelf gains what was left of the order's reservation and loses the delivered cards that are not loop cards |
| LedgerOutcomes.ShortRow | internal/store/store.go:901-916 | A short payment is recorded with the trade number and the note, owing stock if manual, and touches no card and no counter |
| LedgerOutcomes.LinesSplit | internal/store/store.go:846-864 | The delivered text splits into exactly the texts of the cards, in order |
| LedgerOutcomes.ExpiryWrites | internal/store/store.go:950-992 | An unpaid order expires, its cards lose their reservation and nothing else, its units go back on the counter and its use on the coupon |
| LedgerOutcomes.ShelfAfterExpiry | internal/store/store.go:980-984 | Its cards, and only they, are back on the shelf |
| LedgerOutcomes.SavedExactly | internal/admin/sales.go:466-545 | A save succeeds if and only if it breaks none of its seven rules; else it is refused for the first one and nothing is written |
| LedgerOutcomes.SaveWrites | internal/admin/sales.go:507-552 | A save stores the status and the typed text, without the note when owed stock is taken with it, takes that stock, and frees the cards of a claim it ends |
| LedgerOutcomes.ShelfAfterSave | internal/admin/sales.go:547-552 | Those cards, and only they, are back on the shelf |
| LedgerOutcomes.StripsExactly | internal/admin/sales.go:591-597 | The note goes with its line end, and only the note |
| LedgerOutcomes.FailedMovesOn | internal/admin/sales.go:499-502 | A form loaded for a failed order with a trade number can move it on |
| LedgerOutcomes.EditMovesCard | internal/admin/catalog.go:681-731 | An edited card is on the shelf of the goods it was given, if on sale, and on no other, with the typed text |
| LedgerOutcomes.ImportStocks | internal/admin/catalog.go:596-645 | An import puts one new card per line on the shelf, and touches no other |
| LedgerOutcomes.DeletedGoodsSellsNot | internal/admin/catalog.go:265-296 | A deleted goods sells nothing until it is restored, which undoes the deletion |
| LedgerOutcomes.DeletedCouponBuysNot | internal/admin/catalog.go:265-296 | So does a deleted coupon buy nothing |
| Shop.Database.CreateOrder | internal/store/store.go:408-560 | The checkout transaction computes the tables and the answer of the ledger's checkout: first refusal in order, or the order row with its reservations, its stock and its coupon use; a refusal leaves every table as it was |
| Shop.Database.Settle | internal/store/store.go:736-891 | The settlement transaction, both as payment and as redelivery, computes the ledger's settlement |
| Shop.Database.Complete | internal/store/store.go:695-698 | A payment notice computes the ledger's settlement; it delivers only for exactly the price, and writes nothing unless it delivers or stock is short |
| Shop.Database.ShipAll | internal/store/store.go:848-857 | The delivery loop sells every picked card that is not a loop card, frees all of them and joins their texts in order |
| Shop.Database.SettleShort | internal/store/store.go:901-916 | A short payment records the trade number, keeps a manual order's input under the note and sets `stock_owed` for manual orders only |
| Shop.Database.ExpireOne | internal/store/store.go:950-992 | The expiry transaction hands back the coupon use, the cards and the manual stock of an unpaid order, and does nothing to any other |
| Shop.Database.ExpireDue | internal/store/store.go:918-948 | The sweep expires the listed orders one after the other |
| Shop.ExpireAllExact | internal/store/store.go:918-948 | After a sweep every listed order that was unpaid is expired and no other order changed |
| Shop.Database.LoadOrder | internal/admin/sales.go:454-462 | The row loaded for the form, saved at once, is never refused as stale |
| Shop.Database.OrderSave | internal/admin/sales.go:442-559 | The back-office save computes the ledger's: the guards in order, the compare-and-set on the loaded status, stock taken for an owing manual order or everything rolled back, reservations released |
| Shop.Database.CarmisImport | internal/admin/catalog.go:596-645 | Every line becomes one new card on sale |
| LockOrder.NoDeadlock | internal/store/store.go:724-735 | Over any interleaving of checkouts, payments, expiries, order saves, coupon saves and card edits as lock-acquiring steps, no reachable waits-for graph, with its edges to holders and to earlier waiters in the same queue, has a cycle of any length |
| LockOrder.SomeoneCanGo | internal/store/store.go:724-735 | Every reachable state with live transactions has one that waits for nobody, neither for a holder nor behind an earlier waiter |
| LockOrder.FreeMoves | internal/store/store.go:724-735 | A transaction that waits for nobody can take its next step: its lock is granted, its cards are picked or listed, or it commits |
| LockOrder.CardWaits | internal/store/store.go:586-592 | Although checkout takes cards before the coupon and settlement the other way round, no ledger transaction ever finds another one holding a card it asks for: a back-office card edit is at one end of every such wait |
| LockOrder.OwnCardsFree | internal/store/store.go:816-825 | While a transaction works under an order's row lock, nobody else but a back-office card edit holds a card reserved to that order |
| LockOrder.WaitsGrow | internal/admin/sales.go:201-240 | Whoever is waited for waits, if at all, for something later in the lock order or as an earlier one in the same queue, except where a card edit waits for a ledger transaction |
| LockOrder.StraysBehindStray | internal/admin/catalog.go:722 | Such a card edit is waited for by card edits behind it in the same queue only |
| LockOrder.StartOk | internal/store/store.go:794-863 | Every transaction's script asks for its locks in order, its order row first and cards last |
| LockOrder.RunKeeps | internal/store/store.go:457-507 | Held locks never conflict, and cards are held or asked for only by whoever works under the row lock of the order that reserved them |
| UnpaidQuota.QuotaHolds | internal/store/store.go:566-604 | At every moment of any interleaving of lock, count, insert, commit, payment and expiry there are at most 5 unpaid unexpired orders per known source and 3 per email |
| UnpaidQuota.CountedExactly | internal/store/store.go:593-603 | A checkout that holds its keys is let through if and only if its email has fewer than 3 and its known source fewer than 5 unpaid unexpired orders, as a set of rows |
| UnpaidQuota.RoomMeansPlaced | internal/store/store.go:577-604 | With room and nobody else at work a checkout takes its keys, is counted and placed |
| UnpaidQuota.CommitKeeps | internal/store/store.go:577-604 | A commit under held keys keeps every quota and leaves the other counted checkouts their room |
| PollSchedule.WorkConserving | internal/store/cldx.go:204-244 | The list is exactly the rows the query selects in its order, its length is min(200, live + late), and neither bucket loses its share |
| PollSchedule.NoDuplicates | internal/store/cldx.go:204-244 | No order number is listed twice |
| PollSchedule.PrefixRanks | internal/store/cldx.go:217-230 | In every prefix each bucket's rows are the first of that bucket, in its own order |
| PollSchedule.SharesOfPrefix | internal/store/cldx.go:188-203 | Every prefix of n rows holds at least min(lateTaken, (n+3)/5) late rows and at least min(liveTaken, n-(n+3)/5) live ones |
| PollSchedule.TickPollsHeads | internal/store/cldx.go:188-203 | A tick that gets through n rows polls the heads of both least-recently-polled queues, in these sizes |
| PollSchedule.HeadExactly | internal/store/cldx.go:211-221 | An order is among the first p of its bucket if and only if fewer than p are polled before it |
| PollSchedule.TickAdvances | internal/store/cldx.go:165-168 | A tick that passes an order by takes the p at the head away from those before it, except those it asked about that still come first, and adds those that joined before it |
| PollSchedule.PolledInTime | internal/httpx/cldx.go:380-431 | With orders joining and leaving as they like, and answers from the cache writing no stamp: an order is asked about within k+1 ticks whenever those before it at the start, and those that joined or held a place before it in the first k ticks, are fewer than p*(k+1) |
| PollSchedule.PolledInTurn | internal/httpx/cldx.go:375-379 | If none joins or holds a place before it, an order with i before it is asked about within i/p+1 ticks |
| PollSchedule.StampedLater | internal/store/cldx.go:163-168 | Nobody holds a place when none joins and everyone at the head is stamped later than anything before |
| PollSchedule.PolledExactly | internal/store/cldx.go:199-203 | For ticks that ask about the p at the head only, while nobody leaves and anyone may join, an order is asked about within k ticks if and only if for some j < k those before it and those that joined before it in j ticks are fewer than p*(j+1) |
| PollSchedule.FloodStarves | internal/store/cldx.go:211-221 | So an order with p others before it is never asked about while p or more join before it each tick |
| PollSchedule.Starves | internal/store/cldx.go:211-221 | From any bucket in which an order polled before has p others before it there is such a run, of any length |
| PollSchedule.LatePolledInTime | internal/store/cldx.go:188-203 | Over ticks that each get through n of the listed rows, whatever the live bucket does: a late order is asked about within k+1 ticks whenever those before it, and those that joined or held a place before it in the first k, are fewer than min(40,(n+3)/5)*(k+1) |
| PollSchedule.LivePolledInTime | internal/store/cldx.go:188-203 | Likewise a live order, with min(160,n-(n+3)/5)*(k+1) |
| PollSchedule.OneRowIsLive | internal/store/cldx.go:230 | A tick that gets through one row asks about the first live order if there is any, and else about the first late one |
| PollSchedule.Orders.MarkCldxPolled | internal/store/cldx.go:165-168 | A poll mark changes one order's stamp and neither its quote nor any other order |
| PollSchedule.QuoteWrittenOnce | internal/store/cldx.go:170-178 | Once a quote was answered, every later successful answer for that order is the same, whatever requests come between |
| PollSchedule.FirstQuote | internal/store/cldx.go:170-178 | The first answer for an unpaid order without a quote is the quote asked for; an order that is not unpaid gets none |
| PollSchedule.Orders.LockCldxQuote | internal/store/cldx.go:170-178 | The method computes the write-once quote of the function above |
| ReceiptThrottle.FetchedOnce | internal/httpx/cldx.go:63-98 | Over all interleavings every wallet call is reported as fetched by exactly one caller, the one that started it |
| ReceiptThrottle.AnswersAreReal | internal/httpx/cldx.go:63-98 | Every answer is what a finished wallet call for that order reported; a shared one was neither a panic nor a cancellation and was younger than the window |
| ReceiptThrottle.CallsApart | internal/httpx/cldx.go:22-33 | Of two wallet calls for one order the first was forgotten or dropped, or it landed at least a window before the second started; in particular at most one is in flight unless forgotten |
| ReceiptThrottle.OwnLeaderOnly | internal/httpx/cldx.go:109-128 | An entry is written by its own leader only, and leaves the map only by its own leader, by forget or after its window; a leader whose entry was forgotten never touches a newer one |
| ReceiptThrottle.NothingStale | internal/httpx/cldx.go:147-152 | After forget every call still open or made later is answered from a wallet call started afterwards, except that a caller which had itself started one before gets that one's answer; the map names no earlier fetch |
| ReceiptThrottle.OwnAnswerIsOlder | internal/httpx/cldx.go:90-95 | The exception happens: a leader still in flight at the forget returns with its own earlier answer |
| ReceiptThrottle.NobodyLeads | internal/httpx/cldx.go:83-89 | A call that finds no wallet call in flight and no fresh answer for its order starts one |
| ReceiptThrottle.InFlightIsAwaited | internal/httpx/cldx.go:74-82 | One that finds a wallet call in flight waits for it |
| ReceiptThrottle.FreshIsServed | internal/httpx/cldx.go:69-73 | One that finds a kept answer younger than the window returns it at once |
| ReceiptThrottle.LandingWakes | internal/httpx/cldx.go:76-95 | When a wallet call has ended, those who wait for it look again and the caller that started it returns what it reported |
| ReceiptThrottle.SharedIsSound | internal/httpx/cldx.go:100-128 | No shared answer is a panic's or a cancelled fetch's |
| ReceiptThrottle.PrunesExpiredOnly | internal/httpx/cldx.go:135-145 | Pruning takes exactly the landed answers past their window, and only out of a map above 4096 |
| ReceiptThrottle.Throttle.Look | internal/httpx/cldx.go:68-87 | The critical section of get: serve, wait or lead |
| ReceiptThrottle.Throttle.Finish | internal/httpx/cldx.go:109-128 | The leader's deferred bookkeeping |
| ReceiptThrottle.Throttle.Prune | internal/httpx/cldx.go:135-145 | Above 4096 entries exactly the landed entries past their window are removed |
| SiteCache.SavesAreSeen | internal/store/store.go:153-185 | From the start of the process: once the InvalidateSite of a save has returned, every call begun later that is answered from the settings, cached or not, is answered with a version no older than the save's, which holds all the values it wrote |
| SiteCache.HitsAreFresh | internal/store/store.go:94-101 | In every reachable state a cached value was stored less than the lifetime ago and is a committed version no older than the last invalidation: never a failed read's defaults |
| SiteCache.KeptIsServed | internal/store/store.go:153-176 | A read that no invalidation overtook is served for its whole lifetime without reading again |
| SiteCache.MissReadsAgain | internal/store/store.go:153-176 | Without a cached value a call returns the settings as they are |
| SiteCache.OvertakenNeverKept | internal/store/store.go:163-176 | A load in flight when an InvalidateSite returns never reaches the cache, whatever happens before it ends |
| IpLimiter.RefinesUnswept | internal/httpx/limit.go:60-101 | The capped, lazily swept table answers every request as a per-key counter that is never swept would, and an overflowing one as one shared counter would |
| IpLimiter.PlainLimiter | internal/httpx/limit.go:28-35 | While the table was never found full, the answers are those of plain per-address fixed windows over all requests |
| IpLimiter.TwiceTheBudget | internal/httpx/limit.go:60-101 | Any half-open interval as long as a window admits at most 2*limit requests on a key's own counter and 2*overflow on the shared one |
| IpLimiter.NotRefusedEarly | internal/httpx/limit.go:94-100 | A request is refused only when its counter, own or shared, let its whole budget through in the window that ends with it |
| IpLimiter.LoggedOnce | internal/httpx/limit.go:75-82 | An overflowing request is logged unless one was within the last window, so never twice in a window |
| IpLimiter.TableBounded | internal/httpx/limit.go:60-115 | The table never exceeds its cap |
| IpLimiter.OverflowMeansFull | internal/httpx/limit.go:71-93 | A request overflows only when every place is taken by another address counted within the last window and a second |
| IpLimiter.LiveStays | internal/httpx/limit.go:28-30 | A live counter is never evicted, restarted or lowered by any request |
| IpLimiter.Limiter.Allow | internal/httpx/limit.go:60-101 | The method computes the function the laws are about, the log flag included |
| LoginLimiter.TwiceTheBudget | internal/admin/auth.go:150-188 | Any closed interval of length loginWindow grants an address that is neither cleared nor released at most twice its budget |
| LoginLimiter.TenInAWindow | internal/admin/auth.go:44-58 | In numbers: 10 attempts of an address in any quarter of an hour, 100 of all that come without one |
| LoginLimiter.FiveBeforeRefusal | internal/admin/auth.go:44-58 | And no fewer than 5, or 50, before one with a place in the table is refused |
| LoginLimiter.NotRefusedEarly | internal/admin/auth.go:173-188 | An address with a place in the table is refused only when its whole budget was let through within a window that ended less than the block ago |
| LoginLimiter.FullMeansLive | internal/admin/auth.go:163-171 | A new address is refused for want of room only when the table holds capacity entries that were all live less than a second ago |
| LoginLimiter.ReleaseGivesBack | internal/admin/auth.go:190-205 | Releasing a granted attempt leaves its key as it was before |
| LoginLimiter.FailuresCount | internal/admin/auth.go:207-229 | Every failure of an account within a window counts, and from the twentieth on it is slow |
| LoginLimiter.RefusedMeansBlocked | internal/admin/auth.go:180-186 | Once refused for a used-up budget, an address is refused for the whole loginBlock, whatever sweeps, releases and other keys come between |
| LoginLimiter.RefinesUnswept | internal/admin/auth.go:150-188 | An attempt is let through exactly when an unswept entry of that address grants it and there was room to count it |
| LoginLimiter.TableBounded | internal/admin/auth.go:110-116 | At most capacity addresses are tracked, however many accounts fail |
| LoginLimiter.LiveStays | internal/admin/auth.go:133-140 | No call about other keys changes or evicts a live entry |
| LoginLimiter.Limiter.ReserveMax | internal/admin/auth.go:150-188 | The method computes the function the laws are about |
| LoginLimiter.Limiter.Release | internal/admin/auth.go:192-205 | The same for handing an attempt back |
| LoginLimiter.Limiter.Fail | internal/admin/auth.go:218-229 | The same for a failed password of an account |
| Price.BestTierChosen | internal/order/price.go:82-122 | The tier the loop leaves standing is on the list, has the highest threshold the quantity reaches and is the cheapest of those; none is chosen only when none is reached |
| Price.TierReads | internal/order/price.go:92-106 | A line of a quantity, a separator and a printed amount is that tier |
| Price.DiscountExact | internal/order/price.go:112-122 | The discount is what the chosen tier saves on every unit, if it saves and the total fits, else nothing |
| Price.CouponReads | internal/order/price.go:135-139 | A coupon is worth the amount its column prints, and nothing below zero |
| Price.DiscountPermuted | internal/order/price.go:80-82 | Rearranging the lines of a price list changes no discount |
| Price.WholesaleOff | internal/order/price.go:82-122 | The loop computes the discount of the tier rule |
| Price.MulExact | internal/order/price.go:63-78 | The guarded product succeeds exactly for factors that are not negative and a true product within the money column, and its multiplication never wraps |
| Price.QuoteExact | internal/order/price.go:125-145 | A quote succeeds exactly when the total fits; then 0 <= wholesale discount <= total <= 9999999999 and the payable amount is the exact difference, not below zero |
| Money.YuanRoundTrip | internal/order/price.go:18-61 | Parsing a printed amount gives it back if and only if its negation is an int64 |
| Money.ShapeParses | internal/order/price.go:18-51 | Every plain decimal with up to two fraction digits parses to the cents it denotes |
| Money.ParseYuan | internal/order/price.go:18-51 | The parser with its padding loop computes the parsing function, wrap-around included |
| Money.MoneyFieldExact | internal/admin/form.go:13-38 | A well-formed field is accepted exactly when the amount it denotes is at most 9999999999 cents, and then the stored text parses to that amount |
| Money.MoneyFieldStable | internal/admin/form.go:13-38 | Whatever the field accepts parses inside the column, and submitting the stored text again changes nothing |
| Money.EightDigits | internal/admin/form.go:30-36 | The eight-digit rule on the whole part is exactly the column bound |

## Left out

- Overwriting edits of goods and coupons in the back office (stock, sales, prices, uses, codes): they change the supply by decree. Soft deletion and restoring of both are events of a run.
- Rows imported from older versions: runs start with no orders, `coupon_ret_back` 0 and `stock_owed` false.
- Soft deletion of orders: no route sets it, so `deleted_at` of an order is not modelled. An order is addressed by its id, a coupon by its row id, since order numbers and codes are unique.
- In `Ledger` and `LedgerRuns` a transaction is atomic. Its locks are the subject of `LockOrder`, and the cards other transactions hold are the skip set.
- Ledger.CheckoutStep: the email syntax, the search password, the pay channel, the quota and the extra inputs arrive as booleans of the form; the quota itself is `UnpaidQuota`.
- Order numbers, titles, search passwords, stored price columns other than `actual_price`, timestamps and log lines are not columns of the model.
- int4 overflow of `in_stock`, `ret` and `sales_volume` is not modelled; PostgreSQL reports it and the transaction rolls back.
- LedgerOutcomes.LinesSplit: holds of texts without a line end of their own, which is what an import makes of its lines.
- Shop.Database.ExpireDue: takes the due orders as a parameter, because the query compares timestamps.
- LockOrder.NoDeadlock: a request for a row that the same transaction already holds joins no queue. Single-row statements that take one lock and commit (the quote, the poll stamp, soft deletion of goods and coupons), and waits on the unique index over coupon codes, are outside the lock model; advisory keys are taken as distinct for distinct texts.
- UnpaidQuota.QuotaHolds: lower-casing of emails by Go and by PostgreSQL is taken to agree; `order_expire_time` is fixed during a run.
- PollSchedule.WorkConserving: the ORDER BY quotients are compared exactly; that float8 orders them the same way for ranks below 200 is not proved.
- PollSchedule.PolledInTime, PollSchedule.LatePolledInTime and PollSchedule.LivePolledInTime: an order that a tick gets through counts as asked about, also when the answer comes from the cache or reading the order fails first; such an order keeps its old stamp and counts among those that hold their place. That no stamp goes backwards is an assumption about the clock.
- ReceiptThrottle.CallsApart: a fetch is one event with any outcome at any time, so its timeout is not modelled; entries are named by number and not by address.
- SiteCache.SavesAreSeen: the generation counter is unbounded, not uint64; which values a save writes and how their texts become a Site are not modelled, a Site is represented by the settings table it is parsed from.
- IpLimiter.Limiter.Allow: the deduction of the key from the request and the log text are not modelled.
- LoginLimiter.TwiceTheBudget: `blocked` and `count` only read the table and are left out, and so is the pause of a slow account.
- Money.ParseYuan: text is a sequence of characters, not bytes.
- HTTP handlers, templates, sessions, installation, configuration, cryptography, wallet and gateway clients, mail, statistics and list pages.
