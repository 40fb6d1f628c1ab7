/**
 * The three tables the handlers of bot.js read and write (`users`, `games`,
 * `deposits`) and the `withdrawals` table the admin stats read, held as
 * values: users and games keyed by id, deposits and withdrawals as rows.
 */
module Tables {
  import opened Rules

  /** Telegram user id. */
  type UserId = nat
  /** Id the database assigns to a new row of `games`. */
  type GameId = nat

  /** A row of `users`; balances are integers in minor units of each currency. */
  datatype User = User(username: string, balanceTon: int, balanceRub: int)

  /** A row of `games`; `currency` is the string the request carried. */
  datatype Game = Game(userId: UserId, bet: int, currency: string, score: int, status: GameStatus)

  /** A row of `deposits`; `payMethod` is the `method` column. */
  datatype Deposit = Deposit(paymentId: string, userId: UserId, amount: int, currency: string, payMethod: string, status: string)

  /** A row of `withdrawals` (the table is only read). */
  datatype Withdrawal = Withdrawal(userId: UserId, amount: int, currency: string, status: string)

  /**
   * The database. `nextGameId` is the id the database hands to the next
   * inserted game.
   */
  datatype Db = Db(
    users: map<UserId, User>,
    games: map<GameId, Game>,
    nextGameId: GameId,
    deposits: seq<Deposit>,
    withdrawals: seq<Withdrawal>)

  /** The database with no rows. */
  function Empty(withdrawals: seq<Withdrawal>): Db {
    Db(map[], map[], 0, [], withdrawals)
  }

  /**
   * What every handler keeps true: game ids already handed out are below
   * `nextGameId`, and every game belongs to a registered user.
   */
  ghost predicate Valid(db: Db) {
    && (forall id :: id in db.games ==> id < db.nextGameId)
    && (forall id :: id in db.games ==> db.games[id].userId in db.users)
  }

  /** The value of one balance column of a user. */
  function Balance(u: User, f: Field): int {
    match f
    case BalanceTon => u.balanceTon
    case BalanceRub => u.balanceRub
  }

  /** `u` with column `f` set to `v`. */
  function WithBalance(u: User, f: Field, v: int): (u': User)
    ensures Balance(u', f) == v
    ensures Balance(u', Other(f)) == Balance(u, Other(f))
    ensures u'.username == u.username
  {
    match f
    case BalanceTon => u.(balanceTon := v)
    case BalanceRub => u.(balanceRub := v)
  }

  /**
   * The effect of the database procedures `increment_balance` (delta > 0 is
   * the amount) and `decrement_balance` (delta is minus the amount): add
   * `delta` to column `f` of user `id`; no row changes when there is no
   * such user.
   */
  function AddToBalance(users: map<UserId, User>, id: UserId, f: Field, delta: int): (users': map<UserId, User>)
    ensures users'.Keys == users.Keys
    ensures id in users ==> Balance(users'[id], f) == Balance(users[id], f) + delta
    ensures id in users ==> Balance(users'[id], Other(f)) == Balance(users[id], Other(f))
    ensures id in users ==> users'[id].username == users[id].username
    ensures forall u :: u in users && u != id ==> users'[u] == users[u]
  {
    if id in users then users[id := WithBalance(users[id], f, Balance(users[id], f) + delta)] else users
  }

  /**
   * The rows whose status is "pending", in table order: what
   * `.select('*').eq('status', 'pending')` returns.
   */
  function PendingOf<T(!new)>(rows: seq<T>, status: T -> string): (r: seq<T>)
    ensures |r| <= |rows|
    ensures forall i :: 0 <= i < |r| ==> status(r[i]) == Pending && r[i] in rows
    ensures forall i :: 0 <= i < |rows| && status(rows[i]) == Pending ==> rows[i] in r
    ensures forall x :: multiset(r)[x] == if status(x) == Pending then multiset(rows)[x] else 0
  {
    if rows == [] then []
    else
      var tail := PendingOf(rows[1..], status);
      assert forall i :: 1 <= i < |rows| ==> rows[i] == rows[1..][i - 1];
      assert rows == [rows[0]] + rows[1..];
      assert multiset(rows) == multiset([rows[0]]) + multiset(rows[1..]);
      if status(rows[0]) == Pending then [rows[0]] + tail else tail
  }

  /** A table of one row: the row is kept exactly when it is pending. */
  lemma PendingOfSingle<T(!new)>(x: T, status: T -> string)
    ensures PendingOf([x], status) == if status(x) == Pending then [x] else []
  {
    assert [x][1..] == [];
  }

  /** Filtering a table of two parts filters each part. */
  lemma {:induction false} PendingOfAppend<T(!new)>(a: seq<T>, b: seq<T>, status: T -> string)
    ensures PendingOf(a + b, status) == PendingOf(a, status) + PendingOf(b, status)
    decreases |a|
  {
    if a != [] {
      assert (a + b)[1..] == a[1..] + b;
      PendingOfAppend(a[1..], b, status);
    } else {
      assert a + b == b;
    }
  }

  /** There is nothing pending exactly when no row is pending. */
  lemma PendingOfEmpty<T(!new)>(rows: seq<T>, status: T -> string)
    ensures PendingOf(rows, status) == [] <==> forall i :: 0 <= i < |rows| ==> status(rows[i]) != Pending
  {
  }
}
