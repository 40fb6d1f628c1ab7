/**
 * Each handler of bot.js that touches the ledger, as a function from the
 * database before the request to the database after it and the reply. The
 * class in store.dfy performs the same handlers step by step and is proved
 * against these functions; the lemmas in sessions.dfy relate them.
 */
module Handlers {
  import opened Wrappers
  import opened Rules
  import opened Tables

  /** The database after a request and the handler's reply. */
  datatype Step<R> = Step(after: Db, reply: R)

  /** The name stored for a user whose Telegram username is "" (absent). */
  const UnknownName: string := "unknown"

  function DisplayName(username: string): (name: string)
    ensures name != ""
    ensures username != "" ==> name == username
    ensures username == "" ==> name == UnknownName
  {
    if username == "" then UnknownName else username
  }

  /**
   * The `/start` command. The reply says whether the user was new (welcome
   * message) or already known (welcome-back message).
   */
  function Register(db: Db, userId: UserId, username: string): (s: Step<bool>)
    ensures s.reply <==> userId !in db.users
    ensures s.reply ==> s.after == db.(users := db.users[userId := User(DisplayName(username), 0, 0)])
    ensures !s.reply ==> s.after == db
    ensures Valid(db) ==> Valid(s.after)
  {
    if userId in db.users then Step(db, false)
    else Step(db.(users := db.users[userId := User(DisplayName(username), 0, 0)]), true)
  }

  /** The error text of a refused game start. */
  const InsufficientBalance: string := "Insufficient balance"

  /** Reply of `POST /api/game/start`. */
  datatype StartReply = Started(gameId: GameId, balance: int) | Refused(error: string)

  /**
   * `POST /api/game/start`. Refused, with nothing written, when the user is
   * unknown or the selected balance is below the bet. Otherwise the
   * selected balance of that user alone goes down by the bet, one game is
   * inserted in status 'playing' with score 0, and the reply carries its id
   * and the balance read before the debit minus the bet.
   */
  function StartGame(db: Db, userId: UserId, bet: int, currency: string): (s: Step<StartReply>)
    ensures s.reply.Refused? <==> userId !in db.users || Balance(db.users[userId], FieldFor(currency)) < bet
    ensures s.reply.Refused? ==> s.reply.error == InsufficientBalance && s.after == db
    ensures s.reply.Started? ==>
      var f := FieldFor(currency);
      var was := db.users[userId];
      && s.reply.gameId == db.nextGameId
      && s.reply.balance == Balance(was, f) - bet >= 0
      && s.after.users.Keys == db.users.Keys
      && Balance(s.after.users[userId], f) == Balance(was, f) - bet
      && Balance(s.after.users[userId], Other(f)) == Balance(was, Other(f))
      && s.after.users[userId].username == was.username
      && (forall u :: u in db.users && u != userId ==> s.after.users[u] == db.users[u])
      && s.after.games == db.games[db.nextGameId := Game(userId, bet, currency, 0, Playing)]
      && s.after.nextGameId == db.nextGameId + 1
      && s.after.deposits == db.deposits
      && s.after.withdrawals == db.withdrawals
    ensures Valid(db) ==> Valid(s.after)
    ensures Valid(db) && s.reply.Started? ==> s.reply.gameId !in db.games
  {
    var f := FieldFor(currency);
    if userId !in db.users || Balance(db.users[userId], f) < bet then
      Step(db, Refused(InsufficientBalance))
    else
      var users := AddToBalance(db.users, userId, f, -bet);
      var games := db.games[db.nextGameId := Game(userId, bet, currency, 0, Playing)];
      Step(db.(users := users, games := games, nextGameId := db.nextGameId + 1),
           Started(db.nextGameId, Balance(db.users[userId], f) - bet))
  }

  /**
   * Reply of `POST /api/game/end`: `Success` is `{ success: true }`;
   * `Failed` is the handler throwing before it replies (it reads `game.bet`
   * of a game that is not there).
   */
  datatype EndReply = Success | Failed

  /**
   * `POST /api/game/end`. The game's current status is not consulted. On a
   * win the owner's balance in the game's currency grows by twice the bet;
   * the game gets the supplied score and status 'won' or 'lost'. An unknown
   * game id changes nothing; it fails on a win and is answered with success
   * on a loss.
   */
  function EndGame(db: Db, gameId: GameId, score: int, win: bool): (s: Step<EndReply>)
    ensures s.reply.Failed? <==> win && gameId !in db.games
    ensures gameId !in db.games ==> s.after == db
    ensures gameId in db.games ==>
      var g := db.games[gameId];
      var f := FieldFor(g.currency);
      && s.after.games == db.games[gameId := g.(score := score, status := StatusFor(win))]
      && s.after.users.Keys == db.users.Keys
      && (win && g.userId in db.users ==>
            && Balance(s.after.users[g.userId], f) == Balance(db.users[g.userId], f) + 2 * g.bet
            && Balance(s.after.users[g.userId], Other(f)) == Balance(db.users[g.userId], Other(f))
            && s.after.users[g.userId].username == db.users[g.userId].username)
      && (forall u :: u in db.users && (u != g.userId || !win) ==> s.after.users[u] == db.users[u])
      && s.after.nextGameId == db.nextGameId
      && s.after.deposits == db.deposits
      && s.after.withdrawals == db.withdrawals
    ensures Valid(db) ==> Valid(s.after)
  {
    if gameId !in db.games then
      Step(db, if win then Failed else Success)
    else
      var g := db.games[gameId];
      var users := if win then AddToBalance(db.users, g.userId, FieldFor(g.currency), Prize(g.bet)) else db.users;
      var games := db.games[gameId := g.(score := score, status := StatusFor(win))];
      Step(db.(users := users, games := games), Success)
  }

  /** The row the `deposit_rub` button inserts. */
  function RubDeposit(userId: UserId, now: nat): (d: Deposit)
    ensures d.amount == 0 && d.status == Pending
    ensures d.currency == "rub" && d.payMethod == "sbp"
    ensures d.userId == userId
    ensures d.paymentId == PaymentId(userId, now)
    ensures ParsePaymentId(d.paymentId) == Some((userId, now))
  {
    PaymentIdRoundTrip(userId, now);
    Deposit(PaymentId(userId, now), userId, 0, "rub", "sbp", Pending)
  }

  /**
   * The `deposit_rub` callback at time `now` (milliseconds): appends one
   * pending SBP deposit of amount 0 and touches no other table. The reply
   * is the payment id shown to the user.
   */
  function CreateRubDeposit(db: Db, userId: UserId, now: nat): (s: Step<string>)
    ensures s.reply == PaymentId(userId, now)
    ensures s.after.deposits == db.deposits + [RubDeposit(userId, now)]
    ensures s.after.users == db.users && s.after.games == db.games
    ensures s.after.nextGameId == db.nextGameId && s.after.withdrawals == db.withdrawals
    ensures Valid(db) ==> Valid(s.after)
  {
    var d := RubDeposit(userId, now);
    Step(db.(deposits := db.deposits + [d]), d.paymentId)
  }

  /** Reply of `GET /api/admin/stats`. */
  datatype Stats = Stats(pendingDeposits: seq<Deposit>, pendingWithdrawals: seq<Withdrawal>)

  /**
   * `GET /api/admin/stats`: exactly the deposit rows and the withdrawal rows
   * whose status is "pending", each in table order.
   */
  function AdminStats(db: Db): (st: Stats)
    ensures forall i :: 0 <= i < |st.pendingDeposits| ==>
      st.pendingDeposits[i].status == Pending && st.pendingDeposits[i] in db.deposits
    ensures forall i :: 0 <= i < |db.deposits| && db.deposits[i].status == Pending ==>
      db.deposits[i] in st.pendingDeposits
    ensures forall i :: 0 <= i < |st.pendingWithdrawals| ==>
      st.pendingWithdrawals[i].status == Pending && st.pendingWithdrawals[i] in db.withdrawals
    ensures forall i :: 0 <= i < |db.withdrawals| && db.withdrawals[i].status == Pending ==>
      db.withdrawals[i] in st.pendingWithdrawals
    ensures forall d :: multiset(st.pendingDeposits)[d] == (if d.status == Pending then multiset(db.deposits)[d] else 0)
    ensures forall w :: multiset(st.pendingWithdrawals)[w] == (if w.status == Pending then multiset(db.withdrawals)[w] else 0)
  {
    Stats(PendingOf(db.deposits, (d: Deposit) => d.status),
          PendingOf(db.withdrawals, (w: Withdrawal) => w.status))
  }
}
