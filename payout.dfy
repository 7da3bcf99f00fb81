/**
 * The ledger part of the administrator's `markpaid <userId> <amount>` command:
 * its checks, the balance move from pending to paid, and the payout record.
 */
module Payouts {
  import opened Wrappers
  import opened Records

  /**
   * The command's answer. `Malformed` stands for the exceptions the handler
   * lets escape: more than two arguments, or an amount that is not a number.
   */
  datatype Reply =
    | Paid(user: string, amount: real)
    | NotAuthorized
    | Usage
    | Malformed
    | UserNotFound
    | ExceedsPending

  /** The user map and payout list after the command, and its answer. */
  datatype PayoutOutcome = PayoutOutcome(users: map<string, User>, payouts: seq<Payout>, reply: Reply)

  /** The checks `markpaid` makes, in its order, before touching any balance. */
  function Check(users: map<string, User>, caller: int, admin: int, args: seq<string>,
                 parseAmount: string -> Option<real>): (r: Reply)
    ensures r.Paid? ==> && caller == admin && |args| == 2 && args[0] == r.user
                        && parseAmount(args[1]) == Some(r.amount)
                        && r.user in users && r.amount <= users[r.user].earningsPending
  {
    if caller != admin then NotAuthorized
    else if |args| < 2 then Usage
    else if |args| > 2 then Malformed
    else if parseAmount(args[1]).None? then Malformed
    else if args[0] !in users then UserNotFound
    else if parseAmount(args[1]).value > users[args[0]].earningsPending then ExceedsPending
    else Paid(args[0], parseAmount(args[1]).value)
  }

  /** `u["earnings_pending"] -= amt; u["earnings_paid"] += amt`. */
  function Move(u: User, amount: real): (m: User)
    ensures m.earningsTotal == u.earningsTotal
    ensures m.earningsPending + m.earningsPaid == u.earningsPending + u.earningsPaid
    ensures m.earningsPending == u.earningsPending - amount
  {
    u.(earningsPending := u.earningsPending - amount, earningsPaid := u.earningsPaid + amount)
  }

  /**
   * `markpaid`: when every check passes, move the amount from pending to paid
   * and append one payout record stamped with `time`; otherwise change nothing.
   */
  function MarkPaid(users: map<string, User>, payouts: seq<Payout>, caller: int, admin: int,
                    args: seq<string>, parseAmount: string -> Option<real>, time: string): (o: PayoutOutcome)
    ensures o.users.Keys == users.Keys
    ensures !o.reply.Paid? ==> o.users == users && o.payouts == payouts
    ensures o.reply.Paid? ==> |o.payouts| == |payouts| + 1 && o.payouts[..|payouts|] == payouts
  {
    var reply := Check(users, caller, admin, args, parseAmount);
    match reply
    case Paid(uid, amount) =>
      PayoutOutcome(users[uid := Move(users[uid], amount)], payouts + [Payout(uid, amount, time)], reply)
    case _ => PayoutOutcome(users, payouts, reply)
  }

  /**
   * Each rejection, in the order the handler checks: a caller other than the
   * administrator, fewer than two arguments, an argument list it cannot unpack
   * or an amount it cannot parse, an unknown user, an amount above the pending
   * balance.
   */
  lemma MarkPaidRejections(users: map<string, User>, payouts: seq<Payout>, caller: int, admin: int,
                           args: seq<string>, parseAmount: string -> Option<real>, time: string)
    ensures var r := MarkPaid(users, payouts, caller, admin, args, parseAmount, time).reply;
      && (r == NotAuthorized <==> caller != admin)
      && (r == Usage <==> caller == admin && |args| < 2)
      && (r == Malformed <==> caller == admin && |args| >= 2 && (|args| > 2 || parseAmount(args[1]).None?))
      && (r == UserNotFound <==> caller == admin && |args| == 2 && parseAmount(args[1]).Some? && args[0] !in users)
      && (r == ExceedsPending <==> caller == admin && |args| == 2 && parseAmount(args[1]).Some? && args[0] in users
                                   && parseAmount(args[1]).value > users[args[0]].earningsPending)
  {
  }

  /**
   * A payout succeeds exactly when the administrator names a known user and an
   * amount no greater than that user's pending balance; then pending drops and
   * paid rises by the amount, the record `{user, amount, time}` is appended, and
   * no other user changes.
   */
  lemma MarkPaidSuccess(users: map<string, User>, payouts: seq<Payout>, caller: int, admin: int,
                        args: seq<string>, parseAmount: string -> Option<real>, time: string)
    ensures var o := MarkPaid(users, payouts, caller, admin, args, parseAmount, time);
      && (o.reply.Paid? <==> caller == admin && |args| == 2 && parseAmount(args[1]).Some?
                             && args[0] in users && parseAmount(args[1]).value <= users[args[0]].earningsPending)
      && (o.reply.Paid? ==>
            var uid, amount := args[0], parseAmount(args[1]).value;
            && o.reply == Paid(uid, amount)
            && o.users[uid].earningsPending == users[uid].earningsPending - amount
            && o.users[uid].earningsPaid == users[uid].earningsPaid + amount
            && o.users[uid].earningsTotal == users[uid].earningsTotal
            && o.users[uid] == users[uid].(earningsPending := o.users[uid].earningsPending,
                                          earningsPaid := o.users[uid].earningsPaid)
            && o.payouts == payouts + [Payout(uid, amount, time)]
            && forall k :: k in users && k != uid ==> o.users[k] == users[k])
  {
  }

  /** A payout keeps every record well formed: total == pending + paid still holds. */
  lemma MarkPaidPreservesValid(users: map<string, User>, payouts: seq<Payout>, caller: int, admin: int,
                               args: seq<string>, parseAmount: string -> Option<real>, time: string)
    requires UsersValid(users)
    ensures UsersValid(MarkPaid(users, payouts, caller, admin, args, parseAmount, time).users)
  {
    var o := MarkPaid(users, payouts, caller, admin, args, parseAmount, time);
    if o.reply.Paid? {
      var uid := o.reply.user;
      assert RecordValid(o.users[uid]);
    }
  }

  /** No payout, whatever its amount, leaves a pending balance below zero. */
  lemma MarkPaidPreservesSolvent(users: map<string, User>, payouts: seq<Payout>, caller: int, admin: int,
                                 args: seq<string>, parseAmount: string -> Option<real>, time: string)
    ensures Solvent(users) ==> Solvent(MarkPaid(users, payouts, caller, admin, args, parseAmount, time).users)
  {
  }

  /**
   * The handler never checks that the amount is positive: a negative amount is
   * accepted, raises the pending balance and lowers the paid one, and is logged.
   */
  lemma NegativeAmountAccepted(users: map<string, User>, payouts: seq<Payout>, admin: int,
                               uid: string, text: string, parseAmount: string -> Option<real>, time: string)
    requires uid in users && parseAmount(text).Some? && parseAmount(text).value < 0.0
    requires users[uid].earningsPending >= 0.0
    ensures var o := MarkPaid(users, payouts, admin, admin, [uid, text], parseAmount, time);
      && o.reply == Paid(uid, parseAmount(text).value)
      && o.users[uid].earningsPending > users[uid].earningsPending
      && o.users[uid].earningsPaid < users[uid].earningsPaid
      && o.payouts == payouts + [Payout(uid, parseAmount(text).value, time)]
  {
  }
}
