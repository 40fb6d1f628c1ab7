/**
 * Two ways in which the game handlers of bot.js let balances move in ways
 * the rest of the program does not intend, each shown on the code as
 * written, and the corrected handlers with the property they were meant to
 * have:
 *  - `POST /api/game/end` settles a game whatever its status, so a game is
 *    paid out once per call (see also Sessions.DoubleSettlementPaysTwice);
 *    SettleOnce settles a game only from 'playing'.
 *  - `POST /api/game/start` accepts any bet the balance covers, negative
 *    bets included, which credits the player at the start and debits at a
 *    win; StartGameChecked refuses bets below the minimum the welcome
 *    message advertises.
 * With both corrections every balance stays non-negative whatever requests
 * arrive (RunCorrectedKeepsSound).
 */
module Corrected {
  import opened Rules
  import opened Tables
  import opened Handlers
  import opened Sessions

  /** The tables as the game rules intend them: valid, no balance below zero, every stake positive. */
  ghost predicate Sound(db: Db) {
    && Valid(db)
    && (forall u :: u in db.users ==> db.users[u].balanceTon >= 0 && db.users[u].balanceRub >= 0)
    && (forall id :: id in db.games ==> db.games[id].bet > 0)
  }

  /** 1 TON in nanotons, the minor unit used for TON amounts below. */
  const Ton: int := 1_000_000_000

  /**
   * As written: a user with no money starts a rouble round with bet -5; the
   * balance check lets it through and the "debit" raises the balance to 5.
   * Losing keeps the 5; winning credits -10 and leaves the balance at -5.
   */
  lemma NegativeBetBreaksBalances()
    ensures var db := Empty([]).(users := map[1 := User("player", 0, 0)]);
            var s1 := StartGame(db, 1, -5, "rub");
            var lost := EndGame(s1.after, 0, 7, false);
            var won := EndGame(s1.after, 0, 7, true);
            && Sound(db)
            && s1.reply == Started(0, 5)
            && lost.after.users[1].balanceRub == 5
            && won.after.users[1].balanceRub == -5
            && !Sound(won.after)
  {
  }

  /** A start with a positive stake keeps the tables sound: the debit is covered by the balance. */
  lemma StartGameKeepsSound(db: Db, userId: UserId, bet: int, currency: string)
    requires bet > 0
    ensures Sound(db) ==> Sound(StartGame(db, userId, bet, currency).after)
  {
  }

  /** Ending a game of a sound table keeps it sound: the only change to a balance is a positive prize. */
  lemma EndGameKeepsSound(db: Db, gameId: GameId, score: int, win: bool)
    ensures Sound(db) ==> Sound(EndGame(db, gameId, score, win).after)
  {
  }

  /** 1 rouble in kopecks, the minor unit used for rouble amounts. */
  const Rouble: int := 100

  /** The smallest stake the welcome message advertises: 0.5 TON or 50 roubles. */
  function MinBet(f: Field): (m: int)
    ensures m > 0
  {
    match f
    case BalanceTon => Ton / 2
    case BalanceRub => 50 * Rouble
  }

  /** The error text of a refused stake below the minimum. */
  const BetBelowMinimum: string := "Bet below minimum"

  /** `POST /api/game/start` that refuses a stake below the advertised minimum. */
  function StartGameChecked(db: Db, userId: UserId, bet: int, currency: string): (s: Step<StartReply>)
    ensures bet < MinBet(FieldFor(currency)) ==> s == Step(db, Refused(BetBelowMinimum))
    ensures bet >= MinBet(FieldFor(currency)) ==> s == StartGame(db, userId, bet, currency)
    ensures s.reply.Started? ==> bet > 0
    ensures Sound(db) ==> Sound(s.after)
  {
    if bet < MinBet(FieldFor(currency)) then Step(db, Refused(BetBelowMinimum))
    else
      StartGame(db, userId, bet, currency)
  }

  /** Reply of the corrected game end. */
  datatype SettleReply = Settled | NotFound | InvalidTransition

  /**
   * `POST /api/game/end` that settles a game only from 'playing'. An unknown
   * game or a game already won or lost is refused with nothing written;
   * otherwise it does what the handler as written does.
   */
  function SettleOnce(db: Db, gameId: GameId, score: int, win: bool): (s: Step<SettleReply>)
    ensures s.reply == NotFound <==> gameId !in db.games
    ensures s.reply == InvalidTransition <==> gameId in db.games && db.games[gameId].status != Playing
    ensures !s.reply.Settled? ==> s.after == db
    ensures s.reply.Settled? ==> s.after == EndGame(db, gameId, score, win).after
    ensures s.reply.Settled? ==> s.after.games[gameId].status == StatusFor(win)
    ensures Sound(db) ==> Sound(s.after)
  {
    if gameId !in db.games then Step(db, NotFound)
    else if db.games[gameId].status != Playing then Step(db, InvalidTransition)
    else
      Step(EndGame(db, gameId, score, win).after, Settled)
  }

  /** One request to the corrected server. */
  function ApplyCorrected(db: Db, r: Request): (db': Db)
    ensures Sound(db) ==> Sound(db')
    ensures Valid(db) ==> Valid(db')
    ensures forall id :: Valid(db) && id in db.games && db.games[id].status != Playing ==>
      id in db'.games && db'.games[id] == db.games[id]
  {
    match r
    case StartCommand(u, name) => Register(db, u, name).after
    case GameStart(u, bet, currency) => StartGameChecked(db, u, bet, currency).after
    case GameEnd(id, score, win) => SettleOnce(db, id, score, win).after
    case DepositRub(u, now) => CreateRubDeposit(db, u, now).after
    case AdminStatsQuery => db
  }

  /** The corrected server run on a sequence of requests. */
  function RunCorrected(db: Db, rs: seq<Request>): (db': Db)
    decreases |rs|
  {
    if rs == [] then db else RunCorrected(ApplyCorrected(db, rs[0]), rs[1..])
  }

  /**
   * On the corrected server a finished game is never touched again: after
   * any sequence of requests it is still there, unchanged, and the tables
   * are still valid.
   */
  lemma {:induction false} FinishedGameStaysFinished(db: Db, rs: seq<Request>, gameId: GameId)
    requires Valid(db)
    requires gameId in db.games && db.games[gameId].status != Playing
    ensures Valid(RunCorrected(db, rs))
    ensures gameId in RunCorrected(db, rs).games
    ensures RunCorrected(db, rs).games[gameId] == db.games[gameId]
    decreases |rs|
  {
    if rs != [] {
      FinishedGameStaysFinished(ApplyCorrected(db, rs[0]), rs[1..], gameId);
    }
  }

  /**
   * A game is settled once: after a settlement, whatever requests come in
   * between, every further attempt to end the game, with any score and
   * outcome, is refused and writes nothing, so the owner is credited at most
   * one prize for the game.
   */
  lemma SettleOnceIsExactlyOnce(db: Db, gameId: GameId, score1: int, win1: bool,
                                rs: seq<Request>, score2: int, win2: bool)
    requires Valid(db)
    requires SettleOnce(db, gameId, score1, win1).reply.Settled?
    ensures var later := RunCorrected(SettleOnce(db, gameId, score1, win1).after, rs);
            SettleOnce(later, gameId, score2, win2) == Step(later, InvalidTransition)
  {
    var s1 := SettleOnce(db, gameId, score1, win1);
    FinishedGameStaysFinished(s1.after, rs, gameId);
  }

  /**
   * With both corrections, no sequence of requests drives a balance below
   * zero or records a stake that is not positive.
   */
  lemma {:induction false} RunCorrectedKeepsSound(db: Db, rs: seq<Request>)
    requires Sound(db)
    ensures Sound(RunCorrected(db, rs))
    decreases |rs|
  {
    if rs != [] {
      RunCorrectedKeepsSound(ApplyCorrected(db, rs[0]), rs[1..]);
    }
  }

  /**
   * A round in nanotons on the server as written: a balance of 1 TON, a bet
   * of 0.5 TON (0.5 TON left), a win (1.5 TON), and the same game ended again
   * with a win (2.5 TON).
   */
  lemma TonRoundAsWritten()
    ensures var db := Empty([]).(users := map[7 := User("player", Ton, 0)]);
            var s1 := StartGame(db, 7, Ton / 2, "ton");
            var s2 := EndGame(s1.after, 0, 10, true);
            var s3 := EndGame(s2.after, 0, 10, true);
            && s1.reply == Started(0, Ton / 2)
            && s2.after.users[7].balanceTon == 3 * Ton / 2
            && s3.reply == Success && s3.after.users[7].balanceTon == 5 * Ton / 2
  {
  }

  /** The same round on the corrected server: the second end is refused and the balance stays 1.5 TON. */
  lemma TonRoundCorrected()
    ensures var db := Empty([]).(users := map[7 := User("player", Ton, 0)]);
            var s1 := StartGameChecked(db, 7, Ton / 2, "ton");
            var s2 := SettleOnce(s1.after, 0, 10, true);
            var s3 := SettleOnce(s2.after, 0, 10, true);
            && s1.reply == Started(0, Ton / 2)
            && s2.reply == Settled && s2.after.users[7].balanceTon == 3 * Ton / 2
            && s3 == Step(s2.after, InvalidTransition)
  {
  }
}
