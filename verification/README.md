# Satsume bot: the decision core, modelled in Dafny

The bot in `index.js` signs in to a shop on the Sepolia test network for a list of wallets. Every day it checks in, buys one cheap product with NUSD tokens paid on chain, and reviews its paid orders. Most of the file is network, chain and console plumbing. This project models the small routines that decide what the bot does, and proves what they promise:

- the bounded event log;
- the HTTP retry loop with its backoff and auth-refresh hook;
- the big-integer quoting pass run before JSON parsing;
- the session-token expiry check;
- the deadline, balance and gas policy of the on-chain payment;
- the product list and the try order;
- the purchase control loop;
- the check-in and reviewable-order classifications;
- account-file parsing;
- the fingerprint pool indexing;
- the duration and next-reset arithmetic;
- the scheduler cycle in `main`.

Every network call, chain call, clock reading and random choice is an input to the model: a value, or a function indexed by call position. The model decides nothing about those results.

Modules, one per file:

| file | module | models |
|---|---|---|
| `wrappers.dfy` | `Wrappers` | `Option`, `Result` |
| `text.dfy` | `Text` | the JavaScript string operations the code uses: `startsWith`, `includes`, `toLowerCase`, `trim`, `split('\n')`, decimal rendering |
| `seqs.dfy` | `Seqs` | `Array.prototype.filter` and its laws |
| `json_value.dfy` | `JsonValue` | JSON field values with JavaScript truthiness and `\|\|` |
| `json_prepass.dfy` | `JsonPrepass` | the `:(\d{16,})` → `:"$1"` rewrite and the response transform |
| `http_client.dfy` | `HttpClient` | `getBackoffDelay` and `ApiClient.request` |
| `session.dfy` | `Session` | `isTokenExpired` |
| `fingerprint.dfy` | `Fingerprint` | the pool indexing of `generateFingerprint` |
| `onchain.dfy` | `Onchain` | `executePaymentOnChain` |
| `catalog.dfy` | `Catalog` | `fetchProductList`, the affordable filter, `shuffleArray`, the try order |
| `purchase.dfy` | `Purchase` | `performPurchase` |
| `checkin.dfy` | `Checkin` | `performCheckin` |
| `reviews.dfy` | `Reviews` | `getReviewableOrders` |
| `accounts.dfy` | `Accounts` | `loadAccounts` |
| `schedule.dfy` | `Schedule` | `formatDuration`, `getNextResetTime` |
| `bot_state.dfy` | `BotState` | `state`, `logToState` and the cycle loop of `main` |

Code that changes state in place is imperative Dafny:

- the log push and shift in `BotState.State.LogToState`;
- the retry loop in `HttpClient.Request`;
- the Fisher-Yates swap loop in `Catalog.Shuffle`;
- the nested purchase loops in `Purchase.TryCandidates` and `Purchase.PayCandidate`;
- the table updates of the cycle in `BotState.State`.

Most methods are proved equal to a specification function, and the lemmas state the properties of those functions. Three are stated directly instead: `Catalog.Shuffle` is proved to leave a permutation of its array, since the swaps depend on the random `pick` input; `Catalog.BuildTryOrder` is stated as a relation (a permutation of the first `h` items, the rest unchanged, then the first five); and `BotState.State.Rearm` is stated row by row. `Purchase.BuyFrom` and `Purchase.PerformPurchase` also return that shuffled list and the try order, so their contracts can name the permutation.

Where the code and its prose description disagree, the model follows the code:

- A zero NUSD balance returns the failure `No NUSD balance`. It does not return a "skipped" result.
- With products priced 100 and 50 and a balance of 120, both products are affordable. The 50 is tried first only because the shuffled head (`max(1, ceil(n/2))` items) has length 1.
- `main` re-arms every row to `WAITING` after each cycle. So in the code's own flow the skip guard (`SUCCESS` less than an hour ago) never fires. The model states the cycle for any starting table.
- The breaker counts on-chain failures of the whole run, since the count is never reset except just before a successful return. With at most five candidates it can only fire on the fifth candidate. There it replaces the `All 5 products failed` message (`Purchase.BreakerNeedsFiveFailures`).

## Model

| member | source | states |
|---|---|---|
| Text.ToLowerIdempotent | index.js:679-683 | lower-casing twice is lower-casing once |
| Text.TrimIdempotent | index.js:1193-1195 | `trim` of a trimmed line changes nothing |
| Text.SplitLines | index.js:1193 | the pieces of `split('\n')` hold no newline, and there is at least one |
| Text.SplitJoin | index.js:1193 | joining the pieces of `split('\n')` with newlines gives the text back |
| Text.DecimalRoundTrip | index.js:140 | the decimal rendering of a number reads back as that number |
| Text.NoLeadingZero | index.js:140 | a rendered number has no leading zero unless it is 0 |
| Seqs.Filter | index.js:790-800 | `filter` returns no more items than it gets, each from the input and passing the predicate |
| Seqs.FilterMembers | index.js:790-800 | `filter` keeps a value exactly when it is in the input and passes the predicate |
| Seqs.FilterAppend | index.js:1435-1445 | `filter` distributes over concatenation, so it keeps relative order |
| Seqs.FilterIdempotent | index.js:790-800 | filtering twice by the same predicate is filtering once |
| Seqs.FilterMultiset | index.js:790-800 | filtering never adds copies of a value |
| JsonValue.Or | index.js:673-674 | `a \|\| b` is one of its operands, truthy exactly when either operand is; it is the first operand when that is truthy and the second otherwise |
| JsonValue.OrAssociative | index.js:673-674 | `a \|\| b \|\| c` is the first truthy operand, or the last one when none is, however it is grouped |
| JsonPrepass.QuoteBigInts | index.js:387 | the rewrite never shortens the text |
| JsonPrepass.QuoteAddsPairs | index.js:387 | the text grows by an even number of characters: quotes are inserted in pairs |
| JsonPrepass.QuoteIdempotent | index.js:387 | running the rewrite on its own output changes nothing |
| JsonPrepass.OnlyQuotesInserted | index.js:387 | the rewrite only inserts double quotes: removing all quotes from input and output gives the same text |
| JsonPrepass.LongRunQuoted | index.js:387 | a maximal run of 16 or more digits after `:` is wrapped in quotes, and the scan goes on after it |
| JsonPrepass.ShortRunKept | index.js:387 | a run of fewer than 16 digits after `:` is kept as it is |
| JsonPrepass.RunAfterOtherKept | index.js:387 | a digit run after any character other than `:`, such as a space or `-`, is kept, however long |
| JsonPrepass.FieldQuoted | index.js:387 | in `key:digits close`, only the long number changes, and it becomes a string |
| JsonPrepass.DecodeBody | index.js:384-392 | the body is the parse of the rewritten text when that parse succeeds, else the original raw text |
| HttpClient.Backoff | index.js:355-358 | the backoff without jitter is between 1000 and 30000 ms, and equals `1000·2^attempt` unless capped |
| HttpClient.BackoffMonotone | index.js:355-358 | later attempts never back off less |
| HttpClient.BackoffCapped | index.js:355-358 | from attempt 5 on, the backoff is the 30000 ms cap |
| HttpClient.RunFrom | index.js:377-420 | past the last attempt the last error is thrown; otherwise the loop makes between 1 and `maxRetries+1-a` calls, with at most one backoff per call |
| HttpClient.Request | index.js:372-421 | the loop's outcome, call count and backoffs are those of `RunFrom` from attempt 0 |
| HttpClient.ReturnedIsLastAnswer | index.js:399-401 | a returned body is the answer of the last transport call |
| HttpClient.FirstHardErrorThrown | index.js:410-418 | after retryable failures, the first error that is neither retryable nor refreshed is thrown at once, after one backoff per earlier failure |
| HttpClient.AllRetryableExhausts | index.js:377-420 | when every attempt fails retryably, the loop makes `maxRetries+1` calls, sleeps backoffs 0..maxRetries-1 and throws the last error |
| HttpClient.RefreshesSleepNothing | index.js:404-409 | a refreshed auth failure uses up an attempt but sleeps no backoff |
| HttpClient.RetryableDecidesRetry | index.js:410-418 | with attempts left, a failure that is not refreshed is followed by another call exactly when it is retryable (no response, a 5xx status, `ECONNRESET` or `ETIMEDOUT`), and the first sleep is that attempt's backoff; any other failure is thrown at once after one call |
| HttpClient.AuthErrorWithoutHookThrown | index.js:402-418 | without an auth hook, a 401 or 403 response is thrown at once, with no retry and no backoff |
| Session.IsTokenExpired | index.js:447-450 | a token is accepted exactly when the record and a non-zero `expiresAt` exist and now is more than an hour before it |
| Session.ExpiryIsPermanent | index.js:447-450 | once expired, a record stays expired as time goes on |
| Fingerprint.HexValue | index.js:281 | `parseInt(hex, 16)` of `n` hex digits is below `16^n` |
| Fingerprint.SlotIndex | index.js:281 | `parseInt(seed.substring(8k, 8k+8), 16) % n` is a valid index into a pool of `n` entries |
| Fingerprint.Generate | index.js:279-315 | every attribute is a member of its pool; the platform is the one the user agent names, and the client hint matches it |
| Fingerprint.SlotsIndependent | index.js:281-311 | each attribute depends only on its own eight hex digits of the seed |
| Fingerprint.TailIgnored | index.js:281-311 | the seed's hex digits after the fortieth decide nothing |
| Onchain.NormalizeDeadline | index.js:882 | a deadline above 10000000000 is divided by 1000 (floor); others are kept |
| Onchain.RemainingInEitherUnit | index.js:881-883 | a deadline sent in milliseconds leaves the same seconds as the same deadline sent in seconds |
| Onchain.RemainingShrinks | index.js:881-883 | the seconds left never grow as the clock advances |
| Onchain.GasLimit | index.js:923-930 | the gas limit is at least 300000, at least the estimate and 150% of it, within 150% when above the floor, and 500000 when estimation throws |
| Onchain.ClassifyThrown | index.js:944-952 | insufficient-funds and nonce errors are reworded, an empty message becomes `Unknown error`, others pass through |
| Onchain.ExecutePayment | index.js:867-952 | the call pays exactly when the deadline converts with at least 60 s left, the total and the balance are read, the balance covers the total, and the permit, parameters, simulation and send all succeed with a non-zero receipt status; a bad deadline fails before anything else; the permit gets the raw deadline; the gas limit is `GasLimit` of the estimate; a paid hash is the receipt's |
| Onchain.PaidWhenAllSucceed | index.js:901-942 | when every check and chain step succeeds, the result is `Paid` with the receipt hash, after the permit with the given deadline and the simulation, at `GasLimit` of the estimate |
| Onchain.ChainFailureTexts | index.js:892-952 | the first failing step decides the error: a thrown amount, balance, permit, parameter or send is passed through `ClassifyThrown`, a simulation revert gives `Simulation failed: ` and its reason, and status 0 gives `Transaction reverted on-chain` |
| Onchain.ExpiredRejected | index.js:885-887 | `remaining <= 0` fails as `Deadline already expired` before the permit or simulation |
| Onchain.TooCloseRejected | index.js:888-890 | `0 < remaining < 60` fails as `Deadline too close` before the permit or simulation |
| Onchain.ShortBalanceRejected | index.js:896-900 | a balance below the total fails as `Insufficient NUSD` before the permit is signed |
| Onchain.InsufficientFundsReworded | index.js:946-948 | a thrown insufficient-funds error becomes an `Insufficient Sepolia ETH` message |
| Catalog.ParseInt | index.js:795 | `parseInt` succeeds exactly when the text, after leading spaces, starts with an optionally signed digit |
| Catalog.ParseIntValue | index.js:795 | leading white space, an optional sign, digits, then any text that does not start with a digit read as the signed decimal value of the digits: `"  -012abc"` is -12 |
| Catalog.ParseIntDecimal | index.js:795 | a rendered number followed by any non-digit text reads back as that number |
| Catalog.ParseIntNegative | index.js:795 | a minus sign before a rendered number gives its negation, whatever text follows |
| Catalog.ParseIntLeadingZero | index.js:795 | a leading zero does not change the value |
| Catalog.ParseIntRoundTrip | index.js:795 | `parseInt` reads a rendered number back |
| Catalog.ParsePrice | index.js:795 | a numeric price is kept, a string price is `parseInt` of the string, an array price is `parseInt` of its comma-joined items, and any other value gives no number |
| Catalog.PriceIsParseOfText | index.js:795 | for every kind of field, the price is `parseInt` of the field's text `String(v)` |
| Catalog.ArrayPriceIsFirstNumber | index.js:795 | an array whose first item is a number reads as that number: `[12]` and `[12, 5]` both give 12 |
| Catalog.PriceSpellingsAgree | index.js:795 | a price sent as the number `n` or as the text of `n` gives the same price `n` |
| Catalog.PriceOf | index.js:795 | `parseInt(p.originalPrice) \|\| 0` is positive exactly when the parse gives a positive number, and a non-zero result is the parsed number |
| Catalog.SortByPrice | index.js:801 | the sorted list is ordered by price and is a permutation of the input |
| Catalog.ProductsOf | index.js:790-801 | the filtered, mapped and sorted products have positive prices in non-decreasing order |
| Catalog.FetchProductList | index.js:784-806 | it succeeds exactly on code 200 with content, and its products are then exactly `ProductsOf` the content, with positive prices in non-decreasing order; a thrown request gives its error |
| Catalog.ListedExactly | index.js:790-800 | a product is listed exactly when some raw entry has status 2, stock above 0 and a positive parsed price, and maps to it |
| Catalog.AffordableProducts | index.js:998 | a product is kept exactly when it is in the list and costs at most the balance |
| Catalog.FilterKeepsSorted | index.js:998 | the affordable list stays in price order |
| Catalog.NothingAffordable | index.js:999-1001 | when nothing is affordable, the cheapest product costs more than the balance |
| Catalog.HalfIndex | index.js:1003 | `max(1, ceil(n/2))` lies between `n/2` and `n` |
| Catalog.Shuffle | index.js:257-264 | the swaps leave a permutation of the array |
| Catalog.BuildTryOrder | index.js:1003-1005 | the full order is a permutation of the first `h` affordable items followed by the rest unchanged; the try list is its first `min(5, n)` items |
| Purchase.ChainShop | index.js:1034-1040 | each payment attempt of the shop is `executePaymentOnChain` run on that attempt's payment data and chain answers |
| Purchase.PayFrom | index.js:1025-1054 | a candidate gets between 1 and 2 payment attempts |
| Purchase.CandidateOutcome | index.js:1011-1054 | a candidate is skipped exactly when its detail or order request fails, with that error; it is confirmed exactly when its payment attempts pay, with the order id and the transaction hash; otherwise it carries the last payment error |
| Purchase.SecondAttemptOnlyAfterRetryableFailure | index.js:1028-1054 | a second attempt happens exactly when the first got payment data and failed on chain without a stop phrase |
| Purchase.InvalidDeadlineNotRetried | index.js:1048-1053 | an invalid deadline ends the candidate after one attempt |
| Purchase.ExpiredDeadlineNotRetried | index.js:1048-1053 | an expired deadline ends the candidate after one attempt |
| Purchase.ShortBalanceNotRetried | index.js:1048-1053 | a short NUSD balance ends the candidate after one attempt, with an error that ends the run |
| Purchase.FirstAttemptConfirms | index.js:1011-1054 | a candidate whose detail and order load and whose first payment attempt passes every check and chain step is confirmed with its order id and the receipt hash |
| Purchase.RunFrom | index.js:1007-1085 | a run that buys nothing ends in one of three failures: `All N products failed` with N the number of candidates, the breaker at a count of at least 5 and above the count it started with, or an insufficient-funds error |
| Purchase.ReachedConfirmedIsBought | index.js:1011-1069 | the first confirmed candidate that the run reaches is the one bought |
| Purchase.BoughtOnlyIfReached | index.js:1011-1069 | only a reached, confirmed candidate is bought, so the run returns at most one success: the first confirmation |
| Purchase.AbortEndsRun | index.js:1078-1081 | an insufficient-funds failure of a reached candidate ends the run with that error |
| Purchase.BreakerNeedsFiveFailures | index.js:1071-1076 | the breaker fires only at a count of 5, after five candidates reached payment and failed |
| Purchase.AllFailedWhenNoneBought | index.js:1085 | when every candidate lets the run go on, it ends with `All N products failed` and the last error |
| Purchase.PayCandidate | index.js:1025-1054 | the inner loop pays or ends with the error that `PayFrom` gives |
| Purchase.TryCandidates | index.js:1007-1085 | the nested loops return what `RunFrom` gives from candidate 0 |
| Purchase.PreChecks | index.js:971-1001 | the run goes on exactly when the balance is non-zero, the gas balance is not below 0.0005 ETH, the list loads and something is affordable; the cheapest-price message names the minimum price |
| Purchase.BuyFrom | index.js:1003-1085 | the shuffled list is a permutation of the affordable products that permutes only the first `h` of them; the try order is its first `min(5, n)` items, all affordable, with the tail in price order; the result is `RunFrom` over it, and a bought product is one of the tried |
| Purchase.PerformPurchase | index.js:967-1087 | a failed pre-check returns its reason and tries nothing; otherwise the shuffled list and the try order are those of `BuyFrom` over the affordable products, the result is the control loop's, and a bought product is affordable |
| Checkin.PerformCheckin | index.js:665-700 | code 200 succeeds with points and streak; code 400 or a done-word answer is "already done"; thrown errors are never success, and "done" is not looked for in them |
| Checkin.CaseDoesNotMatter | index.js:679-683 | the done-words match in any letter case |
| Checkin.AnswerWordsExtendThrownWords | index.js:679-697 | an answer is read as done on the words a thrown error is, and on "done" besides |
| Checkin.DoneOnlyInAnswers | index.js:679-697 | a text whose only done-word is "done" marks a failed answer as done, but the same text thrown is a failure |
| Reviews.GetReviewableOrders | index.js:1089-1101 | it succeeds exactly on code 200 with data; every returned order is paid and unreviewed; the total counts all orders |
| Reviews.ReviewableExactly | index.js:1094-1098 | an order is returned exactly when it is in the list with status 3 (number or string) and no review id |
| Reviews.ReviewableIff | index.js:1095-1097 | an order is reviewable exactly when its status is the number 3 or the string "3" and its review id is falsy (absent, `null`, 0, empty or `false`) |
| Accounts.Lines | index.js:1193-1195 | the kept lines are non-empty and trimmed |
| Accounts.LinesExactly | index.js:1193-1195 | a line is kept exactly when it is non-empty and is the trim of some piece of the text between line feeds |
| Accounts.NormalizeKey | index.js:1206-1207 | the key is the trimmed line, with `0x` prepended unless it is there |
| Accounts.NormalizeKeyIdempotent | index.js:1206-1207 | normalising a normalised key changes nothing |
| Accounts.Candidates | index.js:1205-1214 | account `i` has key line `i` and proxy line `i`, or no proxy when the proxy file is shorter |
| Accounts.ValidAccounts | index.js:1215-1217 | every loaded key has 66 characters and starts with `0x` |
| Accounts.LoadAccounts | index.js:1181-1234 | a missing file and an empty result are errors; a loaded list is non-empty with well-formed keys |
| Accounts.LoadedFromLines | index.js:1181-1234 | an existing accounts file loads the valid accounts of its kept lines, each with the proxy line at the same position, or the no-valid-keys error when there is none |
| Accounts.AccountsExactly | index.js:1205-1217 | an account is loaded exactly when some key line normalises to 66 characters; its proxy is the proxy line at that line's position |
| Accounts.PrefixOptional | index.js:1206-1207 | a key loads the same with or without its `0x` |
| Schedule.DurationParts | index.js:135-141 | minutes and seconds are below 60, and the parts give the duration to within a second; a negative duration counts as 0 |
| Schedule.FormatDecidesSeconds | index.js:135-141 | two durations render the same `Hh Mm Ss` text exactly when they have the same whole seconds |
| Schedule.PartsDecideSeconds | index.js:135-141 | two durations show the same parts exactly when they have the same whole seconds |
| Schedule.NextResetTime | index.js:1365-1370 | the reset is a UTC midnight strictly after now, at most one day ahead |
| Schedule.NextResetIsFirstMidnight | index.js:1365-1370 | no UTC midnight after now comes before the reset |
| Schedule.WaitAtMostADay | index.js:1454-1464 | the countdown shows at most 24 hours, and 24 only when now is itself a midnight |
| BotState.Logged | index.js:143-149 | one push puts the entry last and drops at most the oldest entry; below the limit nothing is dropped, at or above it exactly the oldest is |
| BotState.LoggedBounded | index.js:143-149 | a log within its limit stays within 15 entries; the new entry is last; only the oldest entry is dropped, and only when the log was full |
| BotState.LogKeepsLatest | index.js:143-149 | after any run of calls, the log holds exactly the latest 15 entries, oldest first |
| BotState.State.constructor | index.js:129-132 | the state starts with no rows and an empty log |
| BotState.State.LogToState | index.js:143-149 | the log becomes `Logged` of the old log and the stamped entry; the table is unchanged |
| BotState.FilterIncreasing | index.js:1435-1445 | the still-failing list stays in increasing account order |
| BotState.FirstPassMarks | index.js:1407-1425 | after the first pass, exactly the accounts in the failure list are `FAILED` and all others are `SUCCESS` |
| BotState.RoundMarks | index.js:1435-1445 | a retry round keeps that correspondence with the shrunken list |
| BotState.RetriesMarks | index.js:1427-1446 | at most 5 rounds run; they stop early only when nothing is left; only earlier failures are retried |
| BotState.Retries | index.js:1427-1446 | the rounds keep the table's size, never grow the failure list, run at most 5 times, and stop before 5 only when nothing is left |
| BotState.Close | index.js:1457-1462 | at the close a row is `FAILED` exactly when it was, every other row is `WAITING`, every row gets the next run time, and `lastRun` is kept |
| BotState.Cycle | index.js:1404-1462 | a cycle keeps the table's size, runs at most 5 retry rounds, and leaves every row `FAILED` or `WAITING` with the next UTC midnight as its next run |
| BotState.CycleOutcome | index.js:1404-1462 | at the close a row is `FAILED` exactly when its account is in the final failure list, every other row is `WAITING`, and all rows wait for the next UTC midnight |
| BotState.State.FirstPass | index.js:1407-1425 | the rows and the failure list become those of `FirstPassRows` and `FirstFailures` |
| BotState.State.RetryRound | index.js:1435-1445 | the rows become `AfterRound` and the list becomes the still-failing accounts, in order |
| BotState.State.RetryRounds | index.js:1427-1446 | the rows, list and round count become those of `Retries` |
| BotState.State.CloseCycle | index.js:1457-1462 | the rows become `Close` of the old rows |
| BotState.State.RunCycle | index.js:1404-1462 | the table, final failures and rounds are those of `Cycle` |
| BotState.State.Rearm | index.js:1471-1476 | every row becomes `WAITING` with no next run, and the log is emptied |

## Left out

- HTTP transport, proxies and `getPublicIp`: network I/O. Transport answers are inputs.
- reCAPTCHA scraping and 2Captcha solving, and the login, nonce, points, faucet and review-submission flows. They are network calls around the routines modelled here.
- Wallet derivation, message and EIP-712 signing, contract calls, simulation, gas estimation, sending, and the 120 s receipt race. These are foreign cryptography and RPC. The chain's answers are fields of `Onchain.Chain`.
- SHA-256 and MD5 in `generateFingerprint`, and JWT decoding. These are foreign hashing and decoding. The hex seed is the input to `Fingerprint.Generate`. The canvas and WebGL hashes and `createdAt` are not modelled.
- Fingerprint.Generate: the platform of each pool entry is computed by `PlatformOf` but not proved entry by entry. Proving `includes` on the long user-agent literals is costly.
- File reads and writes of tokens, fingerprints, accounts and `error.log`, plus the process handlers. These are I/O. File contents are inputs to `Accounts.LoadAccounts`, and `process.exit` becomes an `Err`.
- `renderTable`, chalk colours, tables and console output are UI. Log entries are plain text; the timestamp is an input string.
- `delay`, `microPause`, backoff jitter, `Math.random` and the inter-account pause are timing and randomness. The shuffle's random choice is the `pick` input.
- `parseFloat(formatEther(...))` balances are floating point. The NUSD balance is held exactly in wei. A product is affordable when `price·10^18 <= balanceWei`. This ignores float rounding of balances with more than 15 significant digits.
- `formatEther` and `toFixed(4)` renderings are inputs (`formatEther`, `formatEth`), so message texts are not modelled beyond them.
- Catalog.ParseInt: radix prefixes such as `0x` and non-decimal digits are not modelled; decimal text only.
- Catalog.RawProduct: `stockQuantity` is an integer. A non-numeric stock value is not modelled.
- Catalog.SortByPrice: stability is not proved. JavaScript's sort is stable, and equal prices keep their order in the model too, but only sortedness and permutation are stated.
- Purchase.Shop: the payment-data request and the on-chain call of one attempt are one oracle answer, `pay(i, a)`. `Purchase.ChainShop` builds that answer from the payment data and `Onchain.ExecutePayment`. The lemmas about deadlines and balances are stated for such shops.
- Purchase.PerformPurchase: the outer catch (an invalid private key) is not modelled. The inner catch is not either, because every callee catches its own errors. `submitOrderTx` and `logPurchaseActivity` run after success and cannot change the result, so they are not modelled. The success message text is not modelled.
- BotState.State.RunCycle: the cycle's log messages and the two-minute and five-second pauses are not modelled. `FirstPass` and `RetryRound` do set a row to `PROCESSING` or `RETRYING`, but the task runs as one oracle step, `run(round, i)`, whose result and finishing time overwrite that state at once; what another reader of the table would see while the task runs is not modelled.
- Text.ToLower: lowers ASCII letters only. JavaScript's `toLowerCase` also lowers other letters; for instance the Kelvin sign U+212A becomes `k`, so `Checkin.MentionsDone` misses a done-word spelled with it.
- Accounts.ValidAccounts: the key length is counted in code points. JavaScript's `length` counts UTF-16 units, so a key with characters outside the Basic Multilingual Plane is measured differently.
- JsonValue.Value: JSON numbers are integers only. A fractional price (`parseInt(12.5)` is 12), a number of 1e21 or more (`parseInt(1e21)` is 1, from its exponent text) and the loss of precision above 2^53 are not modelled, so `Catalog.ParsePrice` keeps such numbers whole.
- HttpClient.Request: an `onAuthError` hook that throws is not modelled. The hook is the input `refresh`, which only answers whether the token was refreshed.
- Checkin.PerformCheckin: the text of the success and already-done messages is not modelled. Only the classification and the fields are.
- Session.IsTokenExpired: `expiresAt` is a whole number of milliseconds; non-numeric values are not modelled.
