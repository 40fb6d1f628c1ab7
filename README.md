# TimberTON ledger and game sessions in Dafny

TimberTON is a Telegram game bot with a small HTTP API for its Mini App. Users
hold two balances, TON and roubles. A round is started by staking part of one
balance and ended with a score and a win or a loss; a win pays back twice the
stake. Rouble deposits are announced through the bot with a payment id that
the user copies into an SBP (fast-payment) transfer; an operator reads the
pending deposits and withdrawals from an admin endpoint.

All of this lives in `bot.js`. This project models the part that moves
money and game state. Those are five handlers working on the `users`,
`games`, `deposits` and `withdrawals` tables:

- `/start` registers a user;
- `deposit_rub` records a pending rouble deposit;
- `POST /api/game/start` stakes a bet;
- `POST /api/game/end` settles a round;
- `GET /api/admin/stats` lists the pending payments.

The model is in four layers:

- `decimal.dfy`, `rules.dfy`: the pure rules. They cover how a currency
  string picks a balance column, the prize, the status a finished round
  gets, and the payment id. The payment id comes with a parser that reads it
  back, so its round trip can be proved.
- `tables.dfy`, `handlers.dfy`: the tables as one value (`Db`). Each handler
  is a function from the tables before a request to the tables after it and
  the reply. Its contract states what the handler promises. The database
  procedures `decrement_balance` and `increment_balance` are `AddToBalance`.
  They add a signed amount to one column of one user.
- `store.dfy`: the server as a class that holds the tables. Its methods
  perform each handler step by step, in the order the JavaScript does. Each
  handler method is proved to end in exactly the state and reply of the
  matching function, and to keep the tables valid.
- `sessions.dfy`, `corrected.dfy`: properties relating several requests. They
  also give the two findings below, each shown on the code as written and
  fixed in corrected handlers.

Amounts are integers in minor units: nanotons for TON and kopecks for
roubles. Each handler is treated as one atomic step.

## Model

| member | source | states |
|---|---|---|
| `Decimal.NatToString` | bot.js:94 | A user id or a timestamp is rendered as a non-empty run of decimal digits with no leading zero. |
| `Decimal.ParseNatToString` | bot.js:94 | Reading a rendered number back gives the number. |
| `Decimal.NatToStringInjective` | bot.js:94 | Distinct numbers render differently. |
| `Rules.FieldFor` | bot.js:164 | Only the exact string "ton" selects `balance_ton`. Every other currency string selects `balance_rub`. |
| `Rules.Prize` | bot.js:198 | The prize exceeds the stake by exactly the stake, so a won round nets the bet. |
| `Rules.StatusFor` | bot.js:210 | A finished round is never 'playing'. It is 'won' exactly on a win and 'lost' exactly on a loss. |
| `Rules.PaymentId` | bot.js:94 | A deposit id starts with `SBP_`. |
| `Rules.ParsePaymentId` | bot.js:94 | An id that parses carries the `SBP_` prefix. |
| `Rules.PaymentIdRoundTrip` | bot.js:94 | From a payment id, the operator recovers exactly the user id and the millisecond it was built from. |
| `Rules.PaymentIdInjective` | bot.js:94 | Two deposits share an id exactly when the same user made them in the same millisecond. |
| `Tables.AddToBalance` | bot.js:170-174 | A balance procedure changes one column of one user by exactly the amount. The other column, the username and all other users stay as they were. |
| `Tables.PendingOf` | bot.js:229-237 | The filter keeps exactly the rows whose status is "pending": every kept row is pending and from the table, every pending row is kept, and each pending row appears as often as in the table. |
| `Tables.PendingOfSingle` | bot.js:229-237 | A one-row table keeps its row exactly when it is pending. With `PendingOfAppend` this fixes the result to the table order. |
| `Tables.PendingOfAppend` | bot.js:229-237 | Filtering two concatenated parts of a table gives the two filtered parts, concatenated. |
| `Tables.PendingOfEmpty` | bot.js:239-242 | The pending list is empty exactly when no row is pending. |
| `Handlers.DisplayName` | bot.js:24 | The stored name is never empty. A present username is kept and a missing one becomes "unknown". |
| `Handlers.Register` | bot.js:26-39 | A new user is inserted with both balances 0, and the reply says "new". For a known user nothing changes. Validity is kept. |
| `Handlers.StartGame` | bot.js:155-186 | Refused with 'Insufficient balance' and no change exactly when the user is missing or the selected balance is below the bet. Otherwise only that user's selected column drops by the bet. One 'playing' game with score 0 and a new id is inserted. The reply is the old balance minus the bet, which is non-negative. |
| `Handlers.EndGame` | bot.js:188-215 | The game's status is not checked. A win credits the owner exactly twice the bet in the game's currency and leaves the owner's other column and username unchanged. A loss changes no balance. The game gets the score and 'won' or 'lost'. An unknown id changes nothing: it fails on a win and succeeds on a loss. |
| `Handlers.RubDeposit` | bot.js:94-103 | The deposit row has amount 0, currency 'rub', method 'sbp' and status 'pending'. Its id is exactly the `SBP_<user>_<now>` id shown to the user, and it parses back to the user and the time. |
| `Handlers.CreateRubDeposit` | bot.js:93-103 | One such row is appended and its payment id is replied. Users and games are untouched. |
| `Handlers.AdminStats` | bot.js:228-242 | The stats hold exactly the pending deposits and the pending withdrawals, each pending row as often as it occurs in its table. |
| `Server.Store.constructor` | bot.js:18 | The tables start empty except for `withdrawals`, and they are valid. |
| `Server.Store.Register` | bot.js:21-39 | Step-by-step `/start`. It ends in the state and reply of `Handlers.Register` and keeps validity. |
| `Server.Store.DecrementBalance` | bot.js:170-174 | `decrement_balance` subtracts the amount from the field of the user. |
| `Server.Store.IncrementBalance` | bot.js:201-205 | `increment_balance` adds the amount to the field of the user. |
| `Server.Store.InsertGame` | bot.js:176-183 | The row is inserted under a new id that the database hands out. |
| `Server.Store.StartGame` | bot.js:155-186 | Step-by-step game start: read, check, debit, insert, reply. It ends as `Handlers.StartGame` says. |
| `Server.Store.EndGame` | bot.js:188-215 | Step-by-step game end: read, credit on a win, update the row. It ends as `Handlers.EndGame` says. |
| `Server.Store.CreateRubDeposit` | bot.js:93-103 | Step-by-step `deposit_rub`. It ends as `Handlers.CreateRubDeposit` says. |
| `Server.Store.AdminStats` | bot.js:228-242 | It replies the stats of `Handlers.AdminStats` without changing anything. |
| `Sessions.RegisterIdempotent` | bot.js:26-39 | A second `/start` by the same user changes nothing and is answered as a return. |
| `Sessions.RoundNetEffect` | bot.js:164-212 | Across a start and its end, the column debited is the column credited. Its net change is +bet for a won round and -bet for a lost one. The other column and other users are unchanged, and the game records the score and outcome. |
| `Sessions.DoubleSettlementPaysTwice` | bot.js:188-215 | Ending an already won game again with a win succeeds and pays the prize a second time: +4 × bet in all. |
| `Sessions.CreateRubDepositIsListed` | bot.js:93-103 | After `deposit_rub`, the admin stats list the new deposit after the previously pending ones, in the table order the model fixes. |
| `Sessions.Apply` | bot.js:21-242 | One request keeps the tables valid. It never removes a user or a game. A new game gets an id from the counter's fresh range, and on valid tables every existing game keeps its owner, stake and currency. |
| `Sessions.Run` | bot.js:21-242 | Any sequence of requests keeps the tables valid and never removes a user or a game. |
| `Sessions.RunNeverReusesGameIds` | bot.js:176-183 | Every game created by a sequence of requests has an id at or above the starting counter. On valid tables every earlier game keeps its owner, stake and currency, so no start overwrites an existing game. |
| `Corrected.NegativeBetBreaksBalances` | bot.js:166-174 | As written, a user with no money stakes -5. The start is accepted and the balance becomes 5. Losing keeps the 5; winning leaves -5. |
| `Corrected.StartGameKeepsSound` | bot.js:166-185 | A start with a positive stake keeps every balance non-negative and every stake positive. |
| `Corrected.EndGameKeepsSound` | bot.js:197-212 | Ending a game keeps balances non-negative when all stakes are positive. |
| `Corrected.MinBet` | bot.js:44 | The advertised minimum stake, 0.5 TON or 50 roubles, is positive. |
| `Corrected.StartGameChecked` | bot.js:155-186 | Corrected start: a bet below the minimum is refused with no change. Otherwise it is the start as written. Soundness is kept. |
| `Corrected.SettleOnce` | bot.js:188-215 | Corrected end: an unknown game gives NotFound, and a game not 'playing' gives InvalidTransition, both with no change. Otherwise it is the end as written. Soundness is kept. |
| `Corrected.FinishedGameStaysFinished` | bot.js:188-215 | On the corrected handlers, a won or lost game stays in the table, unchanged, after any sequence of requests. |
| `Corrected.SettleOnceIsExactlyOnce` | bot.js:188-215 | After one settlement, whatever requests come in between, every further attempt to end the game is refused and writes nothing, so a game pays out at most once. |
| `Corrected.ApplyCorrected` | bot.js:21-242 | A request handled with both corrections keeps the tables sound and valid, and never changes a won or lost game. |
| `Corrected.RunCorrectedKeepsSound` | bot.js:21-242 | With both corrections, no sequence of requests makes a balance negative or records a non-positive stake. |
| `Corrected.TonRoundAsWritten` | bot.js:155-215 | As written, 1 TON with a bet of 0.5 goes to 0.5 TON. A win brings it to 1.5 TON, and a repeated win to 2.5 TON. |
| `Corrected.TonRoundCorrected` | bot.js:155-215 | In the same round on the corrected handlers, the repeated end is refused and the balance stays 1.5 TON. |

## Findings

| source | as written | input that shows it | evidently intended | confidence | as-written member | corrected member |
|---|---|---|---|---|---|---|
| bot.js:188-215 | The game end never reads the game's status, so a finished game can be settled again. | A game with bet b is already 'won', and `POST /api/game/end` comes again with `win: true`. The owner is credited 2b again. | Settle only a 'playing' game, so that a game pays out at most once. | not executed; high | `Sessions.DoubleSettlementPaysTwice` | `Corrected.SettleOnceIsExactlyOnce` |
| bot.js:166-174 | The only check on the bet is `balance < bet`, so a negative bet passes. The "decrement" then raises the balance. | A user has `balance_rub = 0` and stakes -5. The balance becomes 5 and stays 5 on a loss; a win leaves -5. | Accept only bets of at least the minimum the welcome message advertises (bot.js:44). Then no balance goes negative. | not executed; high | `Corrected.NegativeBetBreaksBalances` | `Corrected.RunCorrectedKeepsSound` |

`Server.Store` performs the handlers as written. The corrected handlers are
`Corrected.StartGameChecked` and `Corrected.SettleOnce`, and the soundness
results are stated over them.

## Left out

- Telegram wiring is not modelled. That covers the bot, its message texts and
  keyboards, the `/deposit`, `check_…` and `withdraw` callbacks, the admin
  notification and `answerCallbackQuery`. These are user interface and
  network I/O, and they change no table.
- Express setup, CORS, JSON parsing, `GET /api/user/:id` and `app.listen` are
  not modelled. They are transport; the user endpoint only reads a row.
- The database client is not modelled. Queries are map lookups and inserts are
  map or sequence updates. A store failure, such as a failed insert after the
  debit of a game start, is not modelled.
- The procedures `decrement_balance` and `increment_balance` are not
  modelled from their bodies, which are not part of this model. They are
  taken to add a signed amount to the named column of the named user.
- Timestamps are not modelled: `created_at` and `finished_at` are not stored.
  `Date.now()` in the payment id is the parameter `now`.
- Concurrency is not modelled. Each handler is one atomic step, so the race
  between the balance read and the debit of a game start is not captured.
- Bets and balances are integers in minor units. Fractional JavaScript numbers,
  and request fields that are missing or not numbers, are not modelled.
- Handlers.EndGame: the reply `Failed` stands for the handler throwing on a
  missing game. The request then gets no reply, and the rejected promise is
  not modelled further.
- The order of query results is not modelled as the program leaves it. The
  `deposits` and `withdrawals` queries have no `.order()`, so the database may
  return rows in any order. The model returns them in table order, with new
  deposits last; `Sessions.CreateRubDepositIsListed` relies on that choice.
- `deposits` is a sequence of rows and an insert appends. Whether the database
  would reject a duplicate `payment_id` depends on a schema that is not part
  of this model.
- `withdrawals` is only read. Its columns beyond `status` are assumed, and no
  handler creates, confirms or rejects a payment.
- Deposit confirmation and the withdrawal workflow are not modelled, because
  `bot.js` has no code for them.
