# Verified core of the trading engine

This project models the parts of the trading system whose correctness rests on integer,
sequence and protocol reasoning, and proves what they promise:

- **Exact money.** Overflow-checked 64-bit arithmetic, three half-even dividers, the decimal
  parser and printers at 1e-4 scale, and their JSON form (`Int64`, `Rounding`, `Digits`,
  `Literals`, `FixedParse`, `DecimalMeaning`, `ExponentClamp`, `FixedFormat`).
- **The netting ledger.** One position that opens, increases, reduces, closes and flips; the
  account over many positions; the equity sampler; cross-strategy flat closing (`Ledger`,
  `Netting`, `FillEffects`, `Conservation`, `Accounts`, `AccountLaws`, `Sampler`, `FlatClose`, `Sums`).
- **The deterministic engine.** The binary heap, the batch loop, the streaming loop, when the
  two agree, seeding and run shape, symbol-indexed dispatch (`Clock`, `EventQueue`,
  `BatchLoop`, `StreamLoop`, `StreamBatch`, `EngineRun`, `Dispatch`).
- **The command queue.** Producers, consumers, crashes and failed updates as interleaved steps
  over one table (`Commands`, with `Text` for white space and letter case), and the Pareto front of a
  study (`Pareto`).

Code that updates fields, arrays or accumulators is a class or a method with loop invariants,
proved against a specification function; the laws are lemmas about those functions over every
input, every run or every reachable state. Money, prices and quantities are raw 1e-4 units or
shares as mathematical integers restricted to the int64 range; every wrap-around is written
out with `Wrap`. An error return is a value of a result datatype, never a precondition.

## Main results

- *Conservation with bounded drift* (`Conservation.Conserved`): realized plus unrealized PnL is
  cash flow plus market value within 50 raw units per closing fill; exact before cent rounding
  (`ExactConservation`); the bound is attained for every number of closings (`DriftIsTight`).
  `AccountLaws.EquityConserved` lifts it to whole accounts under any interleaving.
- *Stream equals batch* (`StreamBatch.StreamSimulatesBatch`, `StreamEqualsBatchIff`): sufficient at
  every cancellation point and, for drained runs without repeated events, necessary; drawn order
  ids correspond one by one (`OrderIdsCorrespond`).
- *Digit-level parsing is rational arithmetic* (`DecimalMeaning.ParseExactly`, `ParseRounded`),
  with the exact condition under which the exponent clamp is harmless
  (`ExponentClamp.ParseMeansValueIff`).
- *At most once, only with a token* (`Commands.AtMostOnce`, `PrivilegedNeedsToken`).

## Where the code does not do what its comments or callers assume

- A short of exactly MinInt64 shares is reachable by two ordinary fills, although
  internal/accounting/math.go:24-25 calls it unreachable, and the increase that reaches it is
  settled as a reduction (`Netting.MinQuantityIsReachable`, `MinQuantityBreaksNetting`). The laws
  about cost basis (`FillNets`, conservation, average price, account equity) exclude exactly the runs
  in which a position stands at that quantity. `FillEffects` says what every fill does on any book.
- A cross-strategy net of MinInt64 needs no such position: two shorts of 2^62 shares reach it, and
  flat closing then submits a negative quantity, which is refused (`FlatClose.MinNetIsReachable`).
  `FlatClose.FlattensIff` is the exact condition under which closing closes.
- `Position.ApplyFill` is not atomic: `FillEffects.FailureChangesBookIff` says exactly when a failing
  call has already changed the book; `Netting.FailureLeavesTracesWitness` and
  `Conservation.MinQuantityFailureLeavesTraces` give two.
- The exponent clamp (comment at internal/domain/fixed.go:206) gives a wrong answer for a
  literal of 10^9 - 1 characters (`DecimalMeaning.ClampBeyondLimit`) and for none shorter
  (`ClampIsLossless`); `ExponentClamp.ParseMeansValueIff` gives the exact condition at every length.
- The domain half-even divide is wrong on odd divisors just below an odd quotient's midpoint;
  the accounting one on MinInt64 and when the doubled remainder wraps. Both have exact
  conditions (`Rounding.DomainDivExact`, `AccountingDivExact`); sound books never reach them.
- The comment at internal/core/stream.go:88-91 says streaming keeps the batch loop's order
  within a timestamp. Two same-time bars with same-time fills are dispatched in different orders
  (`StreamBatch.SameTimeFillsDiverge`).
- Cross-strategy netting overflows or not depending on map iteration order
  (`FlatClose.NettingDependsOnOrder`; never, exactly when `NeverOverflowsIff` says so). The
  engine's reader then reports flat, so flat closing places nothing on a symbol that is not flat.
- When the cash balance overflows there is no snapshot, and the engine's reader reports every symbol
  as flat (`FlatClose.CashOverflowHidesPosition`).
- Callers that go on after a failed fill, as internal/exec/moomoo/executor_submit.go:243-246 does,
  can leave the account's realized PnL different from the sum over its positions;
  `AccountLaws.SumSurvivesIff` says exactly when, `FailedFlipBreaksSum` gives a run.
- A flip keeps accumulating realized PnL, as the code does; internal/accounting/doc.go:13 says
  it is reset.
- For a symbol nobody registered the dispatch index falls back to the unscoped strategies,
  which differs from a full scan exactly when a scoped strategy declares that symbol
  (`Dispatch.FallbackIff`).

## Model

| member | source | states |
|---|---|---|
| `Int64.CheckedAdd` | internal/domain/fixed.go:72-77 | Succeeds exactly when the mathematical sum is an int64, and returns it. |
| `Int64.CheckedSub` | internal/domain/fixed.go:79-84 | Succeeds exactly when the mathematical difference is an int64, and returns it. |
| `Int64.CheckedMul` | internal/domain/fixed.go:86-100 | Wrapping multiplication followed by the divide-back test accepts exactly the representable products and returns them, so `MulQty` notionals are exact. |
| `Int64.DivideBack` | internal/domain/fixed.go:86-100 | Dividing the wrapped product by one factor recovers the other if and only if the product did not overflow. |
| `Int64.CheckedNeg` | internal/domain/fixed.go:102-107 | Fails exactly on MinInt64, otherwise negates. |
| `Int64.TruncDivSpec` | internal/domain/fixed.go:345-364 | The truncating remainder used throughout is smaller than the divisor and carries the dividend's sign. |
| `Rounding.NearestEvenUnique` | internal/accounting/math.go:53-77 | Half-even rounding, said as "nearest, ties to even", has one answer. |
| `Rounding.DomainDivExact` | internal/domain/fixed.go:345-364 | The domain divider returns the half-even quotient if and only if it is not on an odd divisor just below the midpoint of an odd quotient. |
| `Rounding.AccountingDivExact` | internal/accounting/math.go:53-77 | The accounting divider returns the half-even quotient if and only if the dividend has a magnitude and the doubled remainder does not wrap. |
| `Rounding.ThreeCodesAgree` | internal/accounting/math.go:53-114 | Domain divide, accounting divide and `mulDivRoundHalfEven(v, 1, d)` are one function for v above MinInt64 and even d up to 2^62. |
| `Rounding.MulDivShare` | internal/accounting/math.go:83-114 | A share num/den of a non-negative basis is correctly rounded and stays within [0, basis]; the full share is the basis. |
| `Rounding.MulDivNearest` | internal/accounting/math.go:83-114 | For any factors and a positive divisor it returns the low 64 bits of the half-even quotient. |
| `Rounding.RoundToCentsExact` | internal/accounting/math.go:45-49 | Cent quantization is half-even and moves an amount by at most 50 raw units, except on MinInt64, where it fails. |
| `Clock.SimClock.Advance` | internal/core/clock.go:83-92 | Fails exactly on a non-UTC or earlier time and then leaves the clock alone; otherwise the clock reads the new time. |
| `Clock.VirtualClock.Set` | internal/core/clock.go:61-61 | Sets the reading unconditionally. |
| `Ledger.Position.constructor` | internal/accounting/position.go:38-40 | A new position is flat with no cost, no realized PnL and no timestamp. |
| `Ledger.Position.ApplyFill` | internal/accounting/position.go:135-219 | The five branches, in place, leave exactly the book and result that `Ledger.Apply` specifies, error paths and partial effects included. |
| `Ledger.Position.AddLeg` | internal/accounting/position.go:224-235 | The basis grows by price times quantity, or nothing changes on overflow. |
| `Ledger.Position.ReduceLeg` | internal/accounting/position.go:241-293 | Releases the rounded share of the basis and realizes cents; on a late overflow the basis has already moved. |
| `Ledger.Position.UnrealizedPnL` | internal/accounting/position.go:87-110 | Returns the mark-to-market of `Ledger.Unrealized` or overflow. |
| `Netting.FillNets` | internal/accounting/position.go:135-293 | On a sound book a valid fill succeeds exactly when its numbers are representable; then quantity, released cost, cent-rounded PnL and outcome flags follow the netting rule stated without the code's branches, and the book stays sound. |
| `Netting.AddingNets` | internal/accounting/position.go:164-176 | The opening and increasing branches obey the netting rule and are atomic on failure. |
| `Netting.ReducingNets` | internal/accounting/position.go:178-195 | Partial and exact closes obey the netting rule; says when a failure leaves a change. |
| `Netting.FlippingNets` | internal/accounting/position.go:197-213 | A flip closes the whole open quantity and opens the residual at the fill price. |
| `Netting.ClosingLeg` | internal/accounting/position.go:241-293 | closeLeg releases the half-even share, at least one raw unit per closed share and leaving at least one per open share, and can only fail on the proceeds or on the realized total. |
| `Netting.ClosingBranch` | internal/accounting/position.go:178-213 | Every fill against the open side runs closeLeg on the closed shares and openLeg on the rest; its quantity check cannot fail. |
| `Netting.ShareInRange` | internal/accounting/position.go:250-250 | Releasing a rounded share keeps the remaining basis between lo and hi per share. |
| `Netting.MinQuantityBreaksNetting` | internal/accounting/math.go:24-40 | A fill that would land on MinInt64 shares is never representable, and whenever the code accepts it the book is unsound and the netting rule is broken. |
| `Netting.MinQuantityIsReachable` | internal/accounting/math.go:24-40 | Two concrete sells reach MinInt64 shares, with one raw unit of basis lost instead of gained. |
| `Netting.FailureLeavesTraces` | internal/accounting/position.go:178-213 | The simple form on sound books away from MinInt64 shares: a failing fill has changed the book if and only if it was closing shares and passed the quantity and proceeds checks. |
| `Netting.FailureLeavesTracesWitness` | internal/accounting/position.go:197-213 | From a flat position: buy 1 at 1.0000, then a sell of 2^63 - 1 at 0.0010 fails on the residual after the close has emptied the basis and booked a loss. |
| `FillEffects.ApplyMoves` | internal/accounting/position.go:135-293 | On any book whatever, a fill succeeds if and only if its inputs pass the stated arithmetic checks; then quantity and realized total move by the signed size and the stated cents. A failing fill keeps the quantity. |
| `FillEffects.Effects` | internal/accounting/position.go:135-293 | What every fill leaves on any book, failing ones included: basis and realized total as arithmetic on the inputs. |
| `FillEffects.FailureChangesBookIff` | internal/accounting/position.go:178-213 | On any book, any failing fill has changed something if and only if it was not adding, closeLeg got as far as the basis, and either the basis moved or non-zero cents fitted into the realized total. |
| `FillEffects.StrandsIff` | internal/accounting/position.go:197-213 | On any book, a failing fill has moved the realized total if and only if it is a flip whose close books non-zero cents and whose residual notional overflows. |
| `FillEffects.SoundGuards` | internal/accounting/position.go:135-293 | On sound books those checks are representability, and the stranding guard reads in closed and opened shares. |
| `Conservation.RunIsSound` | internal/accounting/position.go:135-219 | After every settled fill sequence the book is sound and its quantity is the signed sum of the fills. |
| `Conservation.RunQuantity` | internal/accounting/position.go:135-219 | After every successful run, MinInt64 included, the quantity is the signed sum of the fills. |
| `Conservation.MinQuantityFailureLeavesTraces` | internal/accounting/position.go:178-185 | Four ordinary fills reach a book on which a sale that would land on MinInt64 shares closes nothing, fails, and still empties the cost basis. |
| `Conservation.StepConserves` | internal/accounting/position.go:241-293 | One fill changes the signed basis by its exact PnL plus the cash it moves; the booked PnL is within 50 raw units of the exact one. |
| `Conservation.ExactConservation` | internal/accounting/position.go:135-293 | Before cent rounding, realized PnL equals cash flow plus signed basis exactly over every run, flips included; the rounded total drifts by at most 50 per closing fill. |
| `Conservation.Conserved` | internal/accounting/position.go:87-293 | Realized plus unrealized PnL at any last price is cash flow plus net quantity times price, within 50 raw units per closing fill. |
| `Conservation.DriftIsTight` | internal/accounting/math.go:45-49 | For every n there is a settled run with n closings that drifts by exactly 50n. |
| `Conservation.UnrealizedMeaning` | internal/accounting/position.go:87-110 | UnrealizedPnL succeeds exactly when market value and difference are representable, and is market value minus signed basis. |
| `Conservation.AverageIsNearest` | internal/accounting/position.go:64-70 | On a sound book the reported average is the half-even basis per share: the doubled remainder cannot wrap. |
| `Conservation.AverageInRange` | internal/accounting/position.go:64-70 | After any number of rounded partial closes, basis per share and reported average stay within the prices paid for the open leg; a flat book has zero basis and zero average. |
| `Conservation.LegPricesAre` | internal/accounting/position.go:221-235 | The prices of the open leg are exactly those of the fills that opened shares and since which the net quantity has kept its sign. |
| `EventQueue.LessIsStrictTotal` | internal/core/queue.go:25-33 | The queue order is a strict total order on distinctly numbered items. |
| `EventQueue.RootIsHead` | internal/core/queue.go:81-95 | A heap and a sorted list over the same items have the same first element. |
| `EventQueue.Queue.NextSeq` | internal/core/queue.go:51-55 | Returns the counter and advances it by one, keeping the queue. |
| `EventQueue.Queue.Push` | internal/core/queue.go:59-70 | The sorted list the heap stands for gains exactly the new item at its place, under the next sequence number. |
| `EventQueue.Queue.Pop` | internal/core/queue.go:81-95 | Returns and removes the head of the sorted list, or reports empty. |
| `EventQueue.Queue.SiftUp` | internal/core/queue.go:97-106 | Restores heap order from one violation above, keeping the items. |
| `EventQueue.Queue.SiftDown` | internal/core/queue.go:108-125 | Restores heap order from one violation below, keeping the items. |
| `EventQueue.QueueConserves` | internal/core/queue.go:25-125 | Under any interleaving of pushes, pops and bare draws: pushed items are those queued plus those popped, sequence numbers increase in push order, and the next pop is the unique least element. |
| `BatchLoop.Loop.constructor` | internal/core/loop.go:46-52 | A new loop is open and empty at the zero time, with no handlers. |
| `BatchLoop.Loop.Register` | internal/core/loop.go:59-59 | Registers exactly one handler for its kind. |
| `BatchLoop.Loop.Schedule` | internal/core/loop.go:65-77 | Refuses after closing, on non-UTC and before the clock; otherwise queues the event under the next number. |
| `BatchLoop.Loop.Turn` | internal/core/loop.go:95-113 | One iteration of the loop is one step of `RunBatch`. |
| `BatchLoop.Loop.Run` | internal/core/loop.go:93-115 | The heap-based loop produces the trace, final machine and stop reason of `RunBatch`, and is closed afterwards. |
| `BatchLoop.ServeMeans` | internal/core/loop.go:65-82 | A handler's requests are served in order: accepted events are queued under the numbers the earlier requests left, refused ones take none, draws take one. |
| `BatchLoop.RunIsChain` | internal/core/loop.go:93-115 | Every run is a chain of machines, each dispatching its least event at its own time; it stops drained, cancelled, or on a clock, handler-lookup or handler error exactly when that is so, in the stated state. |
| `BatchLoop.ClockNeverReverses` | internal/core/loop.go:93-115 | In every run, however it stops, each reading is the event's own time, readings never decrease, and Advance never fails. |
| `BatchLoop.CancelledIsPrefix` | internal/core/loop.go:96-99 | A run cancelled earlier has a prefix of the later trace; a run that stopped by itself does not depend on later cancellation. |
| `BatchLoop.StrictIffNeverBelow` | internal/core/queue.go:25-33 | The trace of a drained run strictly increases in (time, kind, sequence) if and only if no handler scheduled below the event it was handling. |
| `BatchLoop.TraceAbove` | internal/core/loop.go:93-115 | If no handler schedules below its event, the trace strictly increases at every cancellation point. |
| `BatchLoop.DrainedDispatchesAll` | internal/core/loop.go:93-115 | A drained run dispatched everything that was queued, in queue order. |
| `StreamLoop.Streamer.Schedule` | internal/core/stream.go:139-151 | Refuses after closing, on non-UTC and before the clock; otherwise queues the follow-on. |
| `StreamLoop.Streamer.Deliver` | internal/core/stream.go:188-208 | Validates against the last delivered time, moves the clock, routes the event; says what each failing path leaves behind. |
| `StreamLoop.Streamer.Turn` | internal/core/stream.go:164-225 | Dispatching the next follow-on or source event is one step of `RunFeed`. |
| `StreamLoop.Streamer.Run` | internal/core/stream.go:164-225 | The loop produces the trace, stop reason and final machine of `RunFeed`. |
| `StreamLoop.FeedIsChain` | internal/core/stream.go:164-225 | Every streaming run is a chain of states, each dispatching a follow-on while any is left, else a source event, with the same exact stop conditions. |
| `StreamBatch.StreamSimulatesBatch` | internal/core/stream.go:164-225 | For an ordered source whose follow-ons are due before the next source event, and handlers that ask for twin events from linked states (they may store the numbers they draw and put them into events), both loops dispatch twin events in the same order at the same readings, stop alike in linked states, and their counters stay exactly as far apart as the source is long, at every cancellation point and from any start of the virtual clock. |
| `StreamBatch.StreamEqualsBatch` | internal/core/stream.go:164-225 | For handlers that ignore the numbers they draw the final states are equal. |
| `StreamBatch.OrderIdsCorrespond` | internal/core/stream.go:132-134 | The sequence numbers drawn for order ids correspond one by one: each batch number is the stream's plus the length of the source. |
| `StreamBatch.DrawnAreTaken` | internal/core/stream.go:132-134 | The numbers logged for draws are the ones the loop's counter hands out. |
| `StreamBatch.TagsCorrespond` | internal/core/stream.go:132-151 | Handlers that tag the fills they schedule with a drawn number are covered: each tag is higher by the length of the source in the batch loop. |
| `StreamBatch.StreamEqualsBatchIff` | internal/core/stream.go:88-91 | For drained runs without repeated events the two traces are equal if and only if every follow-on was due before the next source event. |
| `StreamBatch.RepeatsHideLateFollowOns` | internal/core/stream.go:88-91 | Why that equivalence asks for distinct events: a late follow-on equal to the next source event leaves equal drained traces. |
| `StreamBatch.RunsTogether` | internal/core/stream.go:164-225 | The simulation behind it, from any matching pair of states, counters included. |
| `StreamBatch.SameTimeFillsDiverge` | internal/core/stream.go:88-91 | Two same-time bars with same-time fills: streaming settles each fill before the next bar, batch delivers both bars first. |
| `Literals.ScanInvertsRender` | internal/domain/fixed.go:150-219 | Every grammatical literal is scanned back to its own parts. |
| `Literals.ScanIsSound` | internal/domain/fixed.go:150-219 | Whatever is scanned is grammatical and spells the input. |
| `FixedParse.StickyRule` | internal/domain/fixed.go:242-273 | First cut digit and sticky tail decide how the cut part compares with one half, and whether it is zero. |
| `FixedParse.KeepDigits` | internal/domain/fixed.go:242-273 | The code's round-up test on digits is arithmetic half-even division by a power of ten. |
| `FixedParse.ParseMagnitude` | internal/domain/fixed.go:289-302 | Succeeds exactly up to 2^63 and returns the digits' value. |
| `FixedParse.AnyNonzeroDigit` | internal/domain/fixed.go:137-144 | True exactly when some digit is not zero. |
| `FixedParse.ScaleUp` | internal/domain/fixed.go:229-240 | The multiply-by-ten loop succeeds exactly when the scaled magnitude is at most 2^63. |
| `FixedParse.CutDown` | internal/domain/fixed.go:242-273 | The digit-dropping branch equals exact or half-even quantization of the value. |
| `FixedParse.ReadMantissa` | internal/domain/fixed.go:150-193 | The mantissa loop finds the same digits, point and end as the grammar, stripped of leading zeros. |
| `FixedParse.ReadExponent` | internal/domain/fixed.go:196-219 | Reads the clamped exponent, or fails exactly when the rest is not an exponent. |
| `FixedParse.ParseFixed4` | internal/domain/fixed.go:150-285 | For every string and both modes the byte loops return what `Parse` specifies: scanned literal, exponent as clamped, quantized to 1e-4. |
| `DecimalMeaning.QuantizeExact` | internal/domain/fixed.go:150-285 | Exact mode yields v if and only if v is an int64 equal to the fraction, and reports inexactness exactly when the fraction is not an integer. |
| `DecimalMeaning.QuantizeHalfEven` | internal/domain/fixed.go:150-285 | Half-even mode yields v if and only if v is an int64 and the nearest-even integer; otherwise it is out of range. |
| `DecimalMeaning.ParseExactly` | internal/domain/fixed.go:150-285 | Parsing a literal shorter than 10^9 - 1 characters in exact mode yields v if and only if value times 10^4 is the int64 v. |
| `DecimalMeaning.ParseRounded` | internal/domain/fixed.go:150-285 | In half-even mode it yields the half-even rounding of value times 10^4, or out of range. |
| `DecimalMeaning.InvalidIff` | internal/domain/fixed.go:150-219 | A string is invalid if and only if no grammatical literal spells it. |
| `DecimalMeaning.AcceptsIff` | internal/domain/fixed.go:150-219 | The accepted strings are exactly: optional sign, digits with an optional point and at least one digit, optional e or E with optional sign and at least one digit. |
| `DecimalMeaning.TextMeans` | internal/domain/fixed.go:150-285 | What such a text means, from its digits, point and exponent alone: exact mode yields v if and only if the value times 10^4 is v; half-even mode if and only if v is its half-even rounding; inexactness exactly when it is not an integer. |
| `DecimalMeaning.ClampIsLossless` | internal/domain/fixed.go:205-209 | Below 10^9 - 1 characters the exponent clamp never changes the result. |
| `DecimalMeaning.ClampBeyondLimit` | internal/domain/fixed.go:205-209 | A literal of 10^9 - 1 characters far out of range parses successfully: the length bound is tight. |
| `ExponentClamp.ParseMeansValueIff` | internal/domain/fixed.go:205-209 | At every length, parsing gives the literal's own value, rounded under the mode, if and only if the exponent was not cut, the digits are zero, digits times the smaller power of ten exceed the int64 range, or digits times the larger one are still at most one half (not an integer, in exact mode). |
| `ExponentClamp.BeyondIff` | internal/domain/fixed.go:229-277 | Out of range, said in arithmetic: an integer above the limit, or past the midpoint above it, where the tie belongs to MinInt64 and not to MaxInt64. |
| `ExponentClamp.ShiftsDiffer` | internal/domain/fixed.go:225-285 | Two different exponents on the same non-zero digits quantize alike exactly beyond both ends of the scale. |
| `FixedFormat.FormatFixed4` | internal/domain/fixed.go:311-341 | Buffer filling and trimming print the canonical literal: no leading or trailing zeros, no point when whole. |
| `FixedFormat.FillDigits` | internal/domain/fixed.go:328-332 | The backward loop leaves the zero-padded decimal digits in the buffer. |
| `FixedFormat.TrimBuffer` | internal/domain/fixed.go:333-338 | The trimming loop ends at the last non-zero digit. |
| `FixedFormat.FormatRoundTrips` | internal/domain/fixed.go:311-341 | Printing then parsing gives v for every int64, MinInt64 included, in both modes. |
| `FixedFormat.FormatShape` | internal/domain/fixed.go:311-341 | Minus sign exactly below zero, no superfluous zero in front or behind, point only before digits, and the digits of the magnitude. |
| `FixedFormat.FormatFixedDP` | internal/domain/fixed.go:368-404 | The loops print the text `FormatDP`, whose exact shape `FormatDPShape` states. |
| `FixedFormat.FormatDPShape` | internal/domain/fixed.go:366-404 | For every value and dp: exactly max(dp, 0) digits behind the point and a point exactly before them, no superfluous zero in front, a minus sign exactly when the rounded value is below zero, and its digits. |
| `FixedFormat.FormatFixedExact` | internal/domain/fixed.go:407-427 | Prints all four places. |
| `FixedFormat.AppendPlaces` | internal/domain/fixed.go:397-426 | The digit loop writes the zero-padded digits, most significant first. |
| `FixedFormat.FormatDPRoundTrips` | internal/domain/fixed.go:368-404 | With four or more places the text parses back to v. |
| `FixedFormat.FormatDPRounds` | internal/domain/fixed.go:368-404 | With fewer places it parses to the half-even nearest multiple of 10^(4-dp) if that is in range, otherwise out of range. |
| `FixedFormat.JsonRoundTrips` | internal/domain/money.go:454-499 | The quoted JSON form, and the bare number, decode to v under any surrounding white space, Unicode included. |
| `FixedFormat.UnmarshalMeans` | internal/domain/money.go:465-499 | For every token: null leaves the value, a quoted token without escapes or a bare one is taken exactly if it parses exactly, and every other one is refused with the stated error. |
| `Text.TrimDecomposes` | internal/domain/money.go:466-466 | Trimming takes blanks off the ends only, and all of them. |
| `Accounts.EnumerationUnique` | internal/accounting/account.go:236-247 | The sorted key order is unique, so totals do not depend on map iteration. |
| `Accounts.SortKeys` | internal/accounting/account.go:236-247 | Lists every key once in (strategy, symbol) order. |
| `Accounts.SortedMeans` | internal/accounting/account.go:236-247 | Sorted keys ascend by strategy and then by symbol, by first difference. |
| `Accounts.Account.constructor` | internal/accounting/account.go:46-53 | A new account holds the starting balance, no positions and no prices. |
| `Accounts.Account.Observe` | internal/accounting/account.go:95-95 | Records the close as the symbol's last price and nothing else. |
| `Accounts.Account.Route` | internal/accounting/account.go:99-107 | Finds or creates the position of a key without changing any book. |
| `Accounts.Account.Settle` | internal/accounting/account.go:125-148 | The account and result after a fill are those of `Accounts.ApplyFill`, error paths included; no other position moves. |
| `Accounts.Account.TotalUnrealized` | internal/accounting/account.go:175-197 | Returns the checked sum over the sorted keys, or overflow; there is only one such order. |
| `Accounts.Account.Equity` | internal/accounting/account.go:200-214 | Cash plus unrealized, each checked. |
| `AccountLaws.PositionsAreIndependent` | internal/accounting/account.go:99-148 | After any successful interleaving, each position is exactly what its own fills alone would give. |
| `AccountLaws.OpenPositionsHavePrices` | internal/accounting/account.go:175-197 | Every non-flat position has a last price, even when callers go on after failed fills, so the "cannot be marked" skip is never taken. |
| `AccountLaws.LastPriceIsLatest` | internal/accounting/account.go:95-141 | After a successful run a symbol has a price exactly if a bar or fill set one, and it is the one set latest. |
| `AccountLaws.LastPriceGoesOn` | internal/accounting/account.go:95-141 | The same for runs that go on past failures, with the exact condition on which a failing fill still sets the price. |
| `AccountLaws.AccountAcceptsIff` | internal/accounting/account.go:125-148 | A fill is settled exactly if it is valid, its position accepts it, and realized total and cash can hold its cents; it is refused as invalid, without effect, exactly on the listed fields. |
| `AccountLaws.RealizedIsSum` | internal/accounting/account.go:125-148 | Account realized PnL is the sum over positions after every successful run, at any quantities. |
| `AccountLaws.SumSurvivesIff` | internal/accounting/account.go:125-148 | Past any fill, accepted or not, the sum law survives if and only if the fill was invalid, or it is not a stranding flip and, if accepted, its cents fit into the account's realized total. |
| `AccountLaws.FailedFlipBreaksSum` | internal/accounting/position.go:197-213 | A buy and a failing flip leave the account at zero realized PnL and its one position at a loss of 1.0000. |
| `AccountLaws.TotalsAreSums` | internal/accounting/account.go:125-148 | Total cash flow and closing count are the sums over positions of their own. |
| `AccountLaws.EquityConserved` | internal/accounting/account.go:200-214 | Equity minus starting balance is total cash flow plus each position's net shares at the latest price of its symbol, all read off the operations, within 50 raw units per closing fill, over any interleaving of fills and bars. |
| `AccountLaws.EquityIff` | internal/accounting/account.go:175-214 | Equity succeeds exactly when cash, every mark, every running total and the final sum fit, and is then cash plus the marks. |
| `AccountLaws.MarkMeans` | internal/accounting/account.go:175-197 | A flat or unpriced position marks at zero; any other sound one exactly when value and PnL fit, at market value minus signed cost. |
| `Sampler.EquitySampler.Sample` | internal/accounting/sampler.go:58-109 | A successful sample appends one point per known strategy and one total; a failing one leaves exactly the partial change stated. |
| `Sampler.EquitySampler.StrategyPnl` | internal/accounting/sampler.go:71-98 | The inner loop returns the strategy's checked realized plus marked PnL in key order. |
| `Sampler.PnlIsOwnSum` | internal/accounting/sampler.go:71-98 | A strategy's value is the realized plus marked PnL of exactly its own positions. |
| `Sampler.SampleDecomposes` | internal/accounting/sampler.go:58-109 | Total equity is the starting balance plus the per-strategy values appended in the same sample. |
| `Sampler.SampledRunDecomposes` | internal/accounting/sampler.go:58-109 | The same for every account that successful runs of fills and bars reach. |
| `Sampler.SampleKeepsAligned` | internal/accounting/sampler.go:99-107 | One sample keeps every strategy's timestamps a suffix of the total curve's. |
| `Sampler.CurvesStayAligned` | internal/accounting/sampler.go:58-109 | Over every run of samples: one total point per sample, and all strategy curves aligned. |
| `FlatClose.NetPositionAcrossStrategies` | internal/domain/account.go:87-100 | The loop returns the checked sum of some iteration order; a result is the mathematical net, and there is one whenever longs and shorts each fit. |
| `FlatClose.NetIsOrderIndependent` | internal/domain/account.go:87-100 | Any iteration order that succeeds gives the same net. |
| `FlatClose.NeverOverflowsIff` | internal/domain/account.go:87-100 | No iteration order overflows if and only if the longs and the shorts each fit int64. |
| `FlatClose.CloseToFlat` | internal/engine/adaptersupport.go:40-54 | Does what some iteration order of the account's position map dictates; an order it places has positive quantity and exactly offsets the net. |
| `FlatClose.ReadNet` | internal/engine/engine.go:663-673 | The reader returns the net of some iteration order, or zero when cash or netting overflows. |
| `FlatClose.FlattensIff` | internal/engine/adaptersupport.go:40-54 | Under every iteration order the outcome is what the net needs (the offsetting order, or none for a zero net) if and only if the net is zero, or cash fits, longs and shorts each fit, the net is not MinInt64 and the order is otherwise valid. |
| `FlatClose.MinNetIsReachable` | internal/domain/order.go:84-86 | Two ordinary shorts of 2^62 shares net to MinInt64; nothing overflows, but the close is sized negative and refused under every iteration order. |
| `FlatClose.NettingDependsOnOrder` | internal/engine/engine.go:663-673 | On one reachable book, one iteration order places the close and another overflows, is read as flat and places nothing while the symbol is 2^63 - 1 shares long. |
| `FlatClose.CashOverflowHidesPosition` | internal/engine/engine.go:664-667 | An account that goes on after a fill its cash cannot show holds one share, yet closing reports flat under every iteration order. |
| `FlatClose.SnapshotNetsFills` | internal/accounting/account.go:280-297 | After every successful run the snapshot's cross-strategy net of a symbol is the signed sum of all its fills. |
| `FlatClose.SnapshotHolds` | internal/accounting/account.go:280-297 | A position is in the snapshot exactly if its own fills do not net to zero, with their net. |
| `FlatClose.FlatCloseNetsToZero` | internal/engine/adaptersupport.go:40-54 | Executing the placed order, in any number of fills, under any strategies and prices, makes the symbol's net zero and leaves every other symbol's net alone. |
| `EngineRun.Seed` | internal/engine/engine.go:205-235 | Succeeds exactly when every bar of every instrument is UTC; the queue then holds every bar, instrument by instrument, and one sample at exactly the times the bars have. |
| `EngineRun.EveryBarIsSeeded` | internal/engine/engine.go:210-218 | Bar i of instrument r stands, with its own time and zone, after all bars of earlier instruments. |
| `EngineRun.OnlyBarsAreSeeded` | internal/engine/engine.go:210-218 | Every seeded bar event is the bar of some instrument. |
| `EngineRun.HandlersAnswer` | internal/engine/engine.go:369-568 | Which counters each of the three handlers moves, and when. |
| `EngineRun.SettlingRun` | internal/engine/engine.go:369-568 | A drained engine run dispatches exactly its queued bars and samples, in order, and counts them, whatever numbers its handlers draw and whatever fills they schedule. |
| `EngineRun.CleanRunIsComplete` | internal/engine/engine.go:205-235 | After a clean run every bar of every instrument was dispatched under its own number, nothing but bars and one sample per distinct time was, in full key order; processed bars equal total bars and sampled days equal distinct times. |
| `EngineRun.CleanRunHolds` | internal/engine/engine.go:205-235 | What such a trace holds, said of the instruments' own bars: each bar, a sample at its time, and nothing else but fills. |
| `EngineRun.CleanRunIsSorted` | internal/core/event.go:17-39 | If samples schedule no fill at their own timestamp, the whole trace, scheduled fills included, is in strict key order. |
| `EngineRun.CleanRunOrder` | internal/core/event.go:17-39 | In such a trace time never decreases; within a timestamp bars come first in registration order, then fills, and the one sample is last. |
| `EngineRun.EveryTimeIsSampled` | internal/engine/engine.go:219-229 | Every distinct bar timestamp gets a sample. |
| `Dispatch.MergeRegistrationOrder` | internal/engine/engine.go:329-351 | Merging two strictly ascending disjoint lists gives the strictly ascending union. |
| `Dispatch.Router.BuildDispatch` | internal/engine/engine.go:288-322 | Every registered symbol maps to exactly the ascending list of strategies that are unscoped or declare it. |
| `Dispatch.Router.RunBar` | internal/engine/engine.go:406-412 | Ends in t exactly when the selected strategies, in order, each step from one state to the next from s to t; fails exactly when some first ones step and the next fails. |
| `Dispatch.Router.RunBars` | internal/engine/engine.go:359-412 | Succeeds only through a chain of bars on each of which every selected strategy stepped, and fails only on a bar so reached. |
| `Dispatch.RunListIff` | internal/engine/engine.go:406-412 | Running a list of strategies is such a chain, or its first failure. |
| `Dispatch.FallbackIff` | internal/engine/engine.go:359-364 | The fallback for an unregistered symbol is the full scan's choice if and only if no scoped strategy declares it. |
| `Dispatch.IndexedEqualsScan` | internal/engine/engine.go:288-412 | If scoped strategies ignore foreign symbols, and none declares an unregistered symbol that occurs, indexed dispatch of any bar sequence ends in the same state or error as the full scan. |
| `Commands.RunKeeps` | internal/commands/consumer.go:146-275 | The table, the consumers and the call log satisfy the protocol invariant after every interleaving. |
| `Commands.AtMostOnce` | internal/commands/consumer.go:146-250 | No two controller calls carry the same command id, whatever the interleaving of producers, consumers, crashes and failed updates. |
| `Commands.ClaimedOnce` | internal/commands/consumer.go:166-200 | A row once acknowledged is never handed out again, even after a crash. |
| `Commands.StatusOnlyAdvances` | internal/commands/consumer.go:166-275 | A row only moves from pending to acknowledged to completed or rejected; its content never changes. |
| `Commands.StepAdvances` | internal/commands/consumer.go:166-275 | Each single step moves a row by at most one stage; which final status it gets is `VerdictMeans`. |
| `Commands.VerdictMeans` | internal/commands/consumer.go:203-275 | Over every run: a row is completed only if an Apply step on its own command called the controller and the call succeeded; rejected only if its args were malformed, it was not well named, or the call failed. |
| `Commands.VerdictIsOnTheRow` | internal/commands/consumer.go:203-250 | A completed row's own name and mode are what the controller was called with. |
| `Commands.Uninterrupted` | internal/commands/consumer.go:146-275 | Claim, apply, store: completed exactly if the command is well named and the call succeeds; the controller is called exactly if it is well named. |
| `Commands.ClaimMeans` | internal/commands/consumer.go:166-200 | A claim takes effect exactly on a pending live row by an idle consumer, and changes nothing else. |
| `Commands.LossesAreLocal` | internal/commands/consumer.go:253-275 | A crash loses only that consumer's work; an update that is not stored leaves every row. |
| `Commands.EnqueueIff` | internal/commands/enqueue.go:54-105 | Enqueue inserts exactly one pending live row, exactly when the command is well named, somebody requested it, and a privileged one has an accepted token. |
| `Commands.NormalizeSpellings` | internal/commands/commands.go:54-64 | Every spelling of a mode in upper and lower case, with blanks around it, is recognized. |
| `Commands.RowOrigin` | internal/commands/enqueue.go:54-94 | Every decodable live row came from one Enqueue step that passed every check, under that very id, name and mode. |
| `Commands.PrivilegedNeedsToken` | internal/commands/commands.go:54-111 | Every controller call traces back to an Enqueue of the same name and mode; flatten, emergency_kill and a switch to paper or live to one with an accepted token. Malformed rows never reach the controller. |
| `Pareto.ParetoFront` | internal/api/handlers_hyperopt.go:390-421 | A number is in the front exactly when some complete row with both scores has it and no such row is at least as good in both scores and better in one. |
| `Pareto.IsDominated` | internal/api/handlers_hyperopt.go:405-415 | The inner loop decides dominance by any other trial. |
| `Pareto.FrontByNumber` | internal/api/handlers_hyperopt.go:416-420 | With distinct numbers each trial is decided by its own dominance. |
| `Pareto.FrontIsAntichain` | internal/api/handlers_hyperopt.go:390-421 | No front member dominates another. |
| `Pareto.FrontCovers` | internal/api/handlers_hyperopt.go:390-421 | Every eligible trial is on the front or dominated by one that is, so the front is non-empty whenever one exists. |
| `Pareto.RowFrontCovers` | internal/api/handlers_hyperopt.go:390-421 | Every complete row with both scores is on the front or dominated by a row that is. |

## Left out

- HTTP handlers, routing, CLI, configuration, logging, migrations, SQL text, the WebSocket hub, the message bus and account-state publication: input and output.
- The simulated executor, fill models, risk gate, strategies, scheduler, jobs, NSGA-II and broker client: fills and handler effects are inputs of the model.
- Floating point (`fixed4FromFloat`, `fixed4ToFloat`, `PyRound`): outside the integer model. Pareto scores are reals, so NaN scores are not covered.
- The wall-clock streaming discipline and channel timing: only the virtual discipline is modelled, with the source as a finite sequence and cancellation as a dispatch budget. The random choice between a ready event and a ready cancellation is therefore covered by quantifying over every budget.
- Handlers are deterministic functions of their own state, the event and the sequence counter. A loop is run once; calling Run on a closed loop is not modelled.
- Event times are integer nanoseconds in the UnixNano range and the zero time; the sequence counter is unbounded, so its wrap after 2^64 draws is not modelled.
- StreamBatch.StreamEqualsBatchIff: necessity is stated for drained runs that never dispatch two equal events, because it is false otherwise (`RepeatsHideLateFollowOns`); sufficiency has no such restriction.
- DecimalMeaning.ParseExactly: bounded to literals shorter than 10^9 - 1 characters because the code is wrong beyond; ExponentClamp.ParseMeansValueIff has the exact condition without the bound.
- DecimalMeaning.ParseRounded: the same bound, for the same reason.
- Ledger laws are stated for fills with positive quantity and price, as `Fill.Validate` (internal/domain/order.go:144-181) demands on every path into an account; commissions are not part of any balance, as in the code.
- The command table is modelled as rows with target, name, arguments and status. Any pending live row may be claimed, which includes the oldest-first order of the query; audit records, results and reasons are left out. Only Enqueue writes decodable live rows; other writers may insert rows for other targets or with malformed arguments. Lower-casing is modelled as far as it can produce ASCII letters, which is all the mode names need.
- `strconv.AppendUint` is modelled by its decimal digits; scratch-buffer reuse and slice aliasing have no counterpart.
- Strategy ids are sampled in an arbitrary order rather than sorted order: the curves do not depend on it.
- Gross exposure, snapshot JSON, halt state, enum parsers, other Validate methods, account-registry queries, `peekTs`, `checkedAbs64`, end-of-run liquidation and warm-up: would only add easy members.
