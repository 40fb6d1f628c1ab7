/**
 * The pure rules buried in the handlers of bot.js: which balance column a
 * currency string selects, the prize of a won round, the status a finished
 * round gets, and the identifier of an SBP (rouble fast-payment) deposit.
 */
module Rules {
  import opened Wrappers
  import opened Decimal

  /** The two balance columns of the `users` table. */
  datatype Field = BalanceTon | BalanceRub

  /** The column that is not `f`. */
  function Other(f: Field): (g: Field)
    ensures g != f
  {
    match f
    case BalanceTon => BalanceRub
    case BalanceRub => BalanceTon
  }

  /**
   * The balance column a request's currency string selects. The comparison
   * is exact: only "ton" selects the TON column, and every other string
   * ("rub", "TON", "", ...) selects the rouble column.
   */
  function FieldFor(currency: string): (f: Field)
    ensures f == BalanceTon <==> currency == "ton"
    ensures f == BalanceRub <==> currency != "ton"
  {
    if currency == "ton" then BalanceTon else BalanceRub
  }

  /** The fixed payout multiplier of a won round. */
  const PayoutMultiplier: int := 2

  /** The prize credited for a won round: the player gets back the stake and wins as much again. */
  function Prize(bet: int): (p: int)
    ensures p - bet == bet
    ensures bet > 0 ==> p > bet
  {
    bet * PayoutMultiplier
  }

  /** Status of a row of the `games` table: 'playing', 'won' or 'lost'. */
  datatype GameStatus = Playing | Won | Lost

  /** The status a finished round is given. */
  function StatusFor(win: bool): (s: GameStatus)
    ensures s != Playing
    ensures s == Won <==> win
    ensures s == Lost <==> !win
  {
    if win then Won else Lost
  }

  /** The status string of a deposit or withdrawal awaiting an operator. */
  const Pending: string := "pending"

  const SbpPrefix: string := "SBP_"

  /**
   * The payment id of a rouble deposit: "SBP_", the user's id, "_" and the
   * creation time in milliseconds, as the user copies it into the transfer
   * comment.
   */
  function PaymentId(userId: nat, now: nat): (id: string)
    ensures |id| > |SbpPrefix| && id[..|SbpPrefix|] == SbpPrefix
  {
    SbpPrefix + NatToString(userId) + "_" + NatToString(now)
  }

  /** Position of the first `c` in `s`, if any. */
  function FirstIndexOf(s: string, c: char): (r: Option<nat>)
    ensures r.Some? ==> r.value < |s| && s[r.value] == c && c !in s[..r.value]
    ensures r.None? ==> c !in s
  {
    if s == [] then None
    else if s[0] == c then Some(0)
    else
      match FirstIndexOf(s[1..], c)
      case None => None
      case Some(i) =>
        assert s[1..][..i] == s[1..i + 1];
        assert s[..i + 1] == [s[0]] + s[1..i + 1];
        Some(i + 1)
  }

  /** What an operator reads off a transfer comment: the user id and the time. */
  function ParsePaymentId(id: string): (r: Option<(nat, nat)>)
    ensures r.Some? ==> |id| > |SbpPrefix| && id[..|SbpPrefix|] == SbpPrefix
  {
    if |id| < |SbpPrefix| || id[..|SbpPrefix|] != SbpPrefix then None
    else
      var rest := id[|SbpPrefix|..];
      match FirstIndexOf(rest, '_')
      case None => None
      case Some(i) =>
        if IsDecimal(rest[..i]) && IsDecimal(rest[i + 1..])
        then Some((ParseNat(rest[..i]), ParseNat(rest[i + 1..])))
        else None
  }

  /** The operator recovers exactly the user and the time a payment id was made from. */
  lemma PaymentIdRoundTrip(userId: nat, now: nat)
    ensures ParsePaymentId(PaymentId(userId, now)) == Some((userId, now))
  {
    var a, b := NatToString(userId), NatToString(now);
    var id := PaymentId(userId, now);
    var rest := id[|SbpPrefix|..];
    assert rest == a + "_" + b;
    var r := FirstIndexOf(rest, '_');
    assert rest[|a|] == '_';
    assert forall j :: 0 <= j < |a| ==> rest[j] == a[j] && IsDigit(rest[j]);
    assert '_' in rest;
    assert forall j :: 0 <= j < r.value ==> rest[..r.value][j] == rest[j];
    assert rest[..|a|] == a;
    assert rest[|a| + 1..] == b;
    ParseNatToString(userId);
    ParseNatToString(now);
  }

  /** Two deposits get the same payment id only when made by the same user in the same millisecond. */
  lemma PaymentIdInjective(u1: nat, t1: nat, u2: nat, t2: nat)
    ensures PaymentId(u1, t1) == PaymentId(u2, t2) <==> u1 == u2 && t1 == t2
  {
    PaymentIdRoundTrip(u1, t1);
    PaymentIdRoundTrip(u2, t2);
  }
}
