/**
 * What the handlers of bot.js do together: registration is idempotent, a
 * round debits and credits the same balance column, a deposit button press
 * shows up in the admin stats, and any sequence of requests keeps the
 * tables valid and never removes a user or a game. Also the lemma that
 * shows `POST /api/game/end` paying out a game twice.
 */
module Sessions {
  import opened Rules
  import opened Tables
  import opened Handlers

  /** A second `/start` by the same user changes nothing and is answered as a return visit. */
  lemma RegisterIdempotent(db: Db, userId: UserId, name1: string, name2: string)
    ensures var s1 := Register(db, userId, name1);
            Register(s1.after, userId, name2) == Step(s1.after, false)
  {
  }

  /**
   * A started round followed by its end: the game ends with the supplied
   * score and status, and the balance column chosen at the start gains the
   * bet on a win and has lost it on a loss; nothing else about any user
   * changes.
   */
  lemma RoundNetEffect(db: Db, userId: UserId, bet: int, currency: string, score: int, win: bool)
    requires StartGame(db, userId, bet, currency).reply.Started?
    ensures var s1 := StartGame(db, userId, bet, currency);
            var s2 := EndGame(s1.after, s1.reply.gameId, score, win);
            var f := FieldFor(currency);
            && s2.reply == Success
            && s2.after.games[s1.reply.gameId] == Game(userId, bet, currency, score, StatusFor(win))
            && s2.after.users.Keys == db.users.Keys
            && Balance(s2.after.users[userId], f) == Balance(db.users[userId], f) + (if win then bet else -bet)
            && Balance(s2.after.users[userId], Other(f)) == Balance(db.users[userId], Other(f))
            && (forall u :: u in db.users && u != userId ==> s2.after.users[u] == db.users[u])
  {
  }

  /**
   * `POST /api/game/end` does not look at the status of the game: ending an
   * already won game with a win pays the prize again, so the owner gains
   * four times the bet from two calls.
   */
  lemma DoubleSettlementPaysTwice(db: Db, gameId: GameId, score1: int, score2: int)
    requires gameId in db.games && db.games[gameId].userId in db.users
    ensures var g := db.games[gameId];
            var f := FieldFor(g.currency);
            var s1 := EndGame(db, gameId, score1, true);
            var s2 := EndGame(s1.after, gameId, score2, true);
            && s1.after.games[gameId].status == Won
            && s2.reply == Success
            && s2.after.games[gameId].status == Won
            && Balance(s2.after.users[g.userId], f) == Balance(db.users[g.userId], f) + 4 * g.bet
  {
  }

  /**
   * After the `deposit_rub` button, the admin stats list the new deposit
   * after the ones pending before, and the pending withdrawals are as they were.
   */
  lemma CreateRubDepositIsListed(db: Db, userId: UserId, now: nat)
    ensures var s := CreateRubDeposit(db, userId, now);
            && AdminStats(s.after).pendingDeposits == AdminStats(db).pendingDeposits + [RubDeposit(userId, now)]
            && AdminStats(s.after).pendingWithdrawals == AdminStats(db).pendingWithdrawals
  {
    var status := (d: Deposit) => d.status;
    var d := RubDeposit(userId, now);
    PendingOfAppend(db.deposits, [d], status);
    assert PendingOf([d], status) == [d] by {
      assert [d][1..] == [];
    }
  }

  /** One request to the server. */
  datatype Request =
    | StartCommand(userId: UserId, username: string)
    | GameStart(userId: UserId, bet: int, currency: string)
    | GameEnd(gameId: GameId, score: int, win: bool)
    | DepositRub(userId: UserId, now: nat)
    | AdminStatsQuery

  /** The tables after one request. */
  function Apply(db: Db, r: Request): (db': Db)
    ensures Valid(db) ==> Valid(db')
    ensures db.users.Keys <= db'.users.Keys && db.games.Keys <= db'.games.Keys
    ensures db'.nextGameId >= db.nextGameId
    ensures forall id :: id in db'.games && id !in db.games ==> db.nextGameId <= id < db'.nextGameId
    ensures Valid(db) ==> forall id :: id in db.games ==> Keeps(db.games[id], db'.games[id])
  {
    match r
    case StartCommand(u, name) => Register(db, u, name).after
    case GameStart(u, bet, currency) => StartGame(db, u, bet, currency).after
    case GameEnd(id, score, win) => EndGame(db, id, score, win).after
    case DepositRub(u, now) => CreateRubDeposit(db, u, now).after
    case AdminStatsQuery => db
  }

  /**
   * The tables after a sequence of requests handled one at a time: still
   * valid, and no user and no game is ever removed.
   */
  function Run(db: Db, rs: seq<Request>): (db': Db)
    ensures Valid(db) ==> Valid(db')
    ensures db.users.Keys <= db'.users.Keys && db.games.Keys <= db'.games.Keys
    decreases |rs|
  {
    if rs == [] then db else Run(Apply(db, rs[0]), rs[1..])
  }

  /**
   * A game keeps its owner, stake and currency: only its score and status
   * are ever rewritten.
   */
  ghost predicate Keeps(g: Game, g': Game) {
    g'.userId == g.userId && g'.bet == g.bet && g'.currency == g.currency
  }

  /**
   * Every game created by a sequence of requests has an id no earlier game
   * had, and on valid tables every earlier game keeps its owner, stake and
   * currency, so no start overwrites an existing game.
   */
  lemma {:induction false} RunNeverReusesGameIds(db: Db, rs: seq<Request>)
    ensures Run(db, rs).nextGameId >= db.nextGameId
    ensures forall id :: id in Run(db, rs).games && id !in db.games ==> db.nextGameId <= id < Run(db, rs).nextGameId
    ensures Valid(db) ==> forall id :: id in db.games ==> Keeps(db.games[id], Run(db, rs).games[id])
    decreases |rs|
  {
    if rs != [] {
      var next := Apply(db, rs[0]);
      RunNeverReusesGameIds(next, rs[1..]);
    }
  }
}
