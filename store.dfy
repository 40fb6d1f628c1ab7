/**
 * The server of bot.js as an object holding the tables. Each handler reads,
 * checks and writes the tables step by step as the JavaScript does, with the
 * database procedures `decrement_balance` and `increment_balance` as
 * methods of their own. Every handler is proved to leave the tables and to
 * reply exactly as the matching function of module Handlers says, and to
 * keep the tables valid.
 */
module Server {
  import opened Rules
  import opened Tables
  import opened Handlers

  class Store {
    var users: map<UserId, User>
    var games: map<GameId, Game>
    var nextGameId: GameId
    var deposits: seq<Deposit>
    var withdrawals: seq<Withdrawal>

    /** The tables as one value. */
    function Snapshot(): Db
      reads this
    {
      Db(users, games, nextGameId, deposits, withdrawals)
    }

    ghost predicate Valid()
      reads this
    {
      Tables.Valid(Snapshot())
    }

    /** Empty `users`, `games` and `deposits`; `withdrawals` as filled in elsewhere. */
    constructor (withdrawals: seq<Withdrawal>)
      ensures Valid()
      ensures Snapshot() == Empty(withdrawals)
    {
      users, games, nextGameId, deposits := map[], map[], 0, [];
      this.withdrawals := withdrawals;
    }

    /** The `/start` command: insert the user with zero balances unless a row exists. */
    method Register(userId: UserId, username: string) returns (isNew: bool)
      requires Valid()
      modifies this
      ensures Valid()
      ensures Snapshot() == Handlers.Register(old(Snapshot()), userId, username).after
      ensures isNew == Handlers.Register(old(Snapshot()), userId, username).reply
    {
      if userId in users {
        isNew := false;
      } else {
        users := users[userId := User(DisplayName(username), 0, 0)];
        isNew := true;
      }
    }

    /** The procedure `decrement_balance`. */
    method DecrementBalance(userId: UserId, amount: int, field: Field)
      modifies this`users
      ensures users == AddToBalance(old(users), userId, field, -amount)
    {
      if userId in users {
        var u := users[userId];
        users := users[userId := WithBalance(u, field, Balance(u, field) - amount)];
      }
    }

    /** The procedure `increment_balance`. */
    method IncrementBalance(userId: UserId, amount: int, field: Field)
      modifies this`users
      ensures users == AddToBalance(old(users), userId, field, amount)
    {
      if userId in users {
        var u := users[userId];
        users := users[userId := WithBalance(u, field, Balance(u, field) + amount)];
      }
    }

    /** Insert a row of `games`; the database picks the id. */
    method InsertGame(g: Game) returns (id: GameId)
      modifies this`games, this`nextGameId
      ensures id == old(nextGameId) && nextGameId == id + 1
      ensures games == old(games)[id := g]
    {
      id := nextGameId;
      games := games[id := g];
      nextGameId := nextGameId + 1;
    }

    /** `POST /api/game/start`. */
    method StartGame(userId: UserId, bet: int, currency: string) returns (reply: StartReply)
      requires Valid()
      modifies this
      ensures Valid()
      ensures Snapshot() == Handlers.StartGame(old(Snapshot()), userId, bet, currency).after
      ensures reply == Handlers.StartGame(old(Snapshot()), userId, bet, currency).reply
    {
      ghost var before := Snapshot();
      var field := FieldFor(currency);
      if userId !in users || Balance(users[userId], field) < bet {
        return Refused(InsufficientBalance);
      }
      var user := users[userId];
      DecrementBalance(userId, bet, field);
      var gameId := InsertGame(Game(userId, bet, currency, 0, Playing));
      reply := Started(gameId, Balance(user, field) - bet);
      assert Snapshot() == Handlers.StartGame(before, userId, bet, currency).after;
    }

    /** `POST /api/game/end`. */
    method EndGame(gameId: GameId, score: int, win: bool) returns (reply: EndReply)
      requires Valid()
      modifies this
      ensures Valid()
      ensures Snapshot() == Handlers.EndGame(old(Snapshot()), gameId, score, win).after
      ensures reply == Handlers.EndGame(old(Snapshot()), gameId, score, win).reply
    {
      ghost var before := Snapshot();
      if win {
        if gameId !in games {
          return Failed;
        }
        var game := games[gameId];
        var prize := Prize(game.bet);
        var field := FieldFor(game.currency);
        IncrementBalance(game.userId, prize, field);
      }
      if gameId in games {
        games := games[gameId := games[gameId].(score := score, status := StatusFor(win))];
      }
      reply := Success;
      assert Snapshot() == Handlers.EndGame(before, gameId, score, win).after;
    }

    /** The `deposit_rub` callback at time `now`; returns the payment id shown to the user. */
    method CreateRubDeposit(userId: UserId, now: nat) returns (paymentId: string)
      requires Valid()
      modifies this
      ensures Valid()
      ensures Snapshot() == Handlers.CreateRubDeposit(old(Snapshot()), userId, now).after
      ensures paymentId == Handlers.CreateRubDeposit(old(Snapshot()), userId, now).reply
    {
      paymentId := PaymentId(userId, now);
      deposits := deposits + [Deposit(paymentId, userId, 0, "rub", "sbp", Pending)];
    }

    /** `GET /api/admin/stats`; reads the tables only. */
    method AdminStats() returns (stats: Stats)
      ensures stats == Handlers.AdminStats(Snapshot())
    {
      var pendingDeposits := PendingOf(deposits, (d: Deposit) => d.status);
      var pendingWithdrawals := PendingOf(withdrawals, (w: Withdrawal) => w.status);
      stats := Stats(pendingDeposits, pendingWithdrawals);
    }
  }
}
