/**
 * The bot's in-memory state, `USERS`, `PAYOUTS` and the insertion order of the
 * user dictionary, and the command logic that updates it in place.
 */
module Engine {
  import opened Wrappers
  import opened Records
  import Referral
  import Crediting
  import Payouts
  import Queries

  /** Every listed id is known, none twice, and every known id is listed. */
  predicate OrderValid(users: map<string, User>, order: seq<string>) {
    && NoDuplicates(order)
    && (forall i :: 0 <= i < |order| ==> order[i] in users)
    && (forall k :: k in users ==> k in order)
  }

  /** `USERS.values()`: the records in the order their ids were first seen. */
  function InOrder(users: map<string, User>, order: seq<string>): (vals: seq<User>)
    requires OrderValid(users, order)
    ensures |vals| == |users|
  {
    var vals := seq(|order|, i requires 0 <= i < |order| => users[order[i]]);
    ListsEveryKey(users, order, vals);
    vals
  }

  /** A duplicate-free list of ids has as many distinct ids as entries. */
  lemma {:induction false} DistinctCount(s: seq<string>)
    requires NoDuplicates(s)
    ensures |set x | x in s| == |s|
    decreases |s|
  {
    if s != [] {
      var init := s[..|s| - 1];
      DistinctCount(init);
      assert (set x | x in s) == (set x | x in init) + {s[|s| - 1]};
      assert s[|s| - 1] !in (set x | x in init);
    }
  }

  /** Looking up every id of a valid order reaches every record of the map, once per key. */
  lemma ListsEveryKey(users: map<string, User>, order: seq<string>, vals: seq<User>)
    requires OrderValid(users, order)
    requires |vals| == |order| && forall i :: 0 <= i < |order| ==> vals[i] == users[order[i]]
    ensures |vals| == |users|
    ensures forall k :: k in users ==> users[k] in vals
  {
    DistinctCount(order);
    assert (set x | x in order) == users.Keys;
    forall k | k in users ensures users[k] in vals {
      var i :| 0 <= i < |order| && order[i] == k;
      assert vals[i] == users[k];
    }
  }

  /**
   * In a well-formed map the listed records are exactly the users' records,
   * each listed once.
   */
  lemma InOrderListsEachUserOnce(users: map<string, User>, order: seq<string>)
    requires UsersValid(users) && OrderValid(users, order)
    ensures var vals := InOrder(users, order);
      && (forall k :: k in users ==> users[k] in vals)
      && (forall v :: v in vals ==> v.id in users && users[v.id] == v)
      && NoDuplicates(vals)
  {
    var vals := InOrder(users, order);
    ListsEveryKey(users, order, vals);
    forall v | v in vals ensures v.id in users && users[v.id] == v {
      var i :| 0 <= i < |vals| && vals[i] == v;
      assert v == users[order[i]];
    }
    forall i, j | 0 <= i < j < |vals| ensures vals[i] != vals[j] {
      assert vals[i] == users[order[i]] && vals[j] == users[order[j]];
    }
  }

  /**
   * The pending listing of the whole map: a user is listed exactly when they
   * are owed at least `minPayout`, every listed entry is a user's record, and
 * nobody is listed twice.
   */
  lemma PendingListsEveryOwedUser(users: map<string, User>, order: seq<string>, minPayout: real)
    requires UsersValid(users) && OrderValid(users, order)
    ensures var listed := Queries.PendingUsers(InOrder(users, order), minPayout);
      && (forall k :: k in users ==> (users[k] in listed <==> users[k].earningsPending >= minPayout))
      && (forall v :: v in listed ==> v.id in users && users[v.id] == v)
      && NoDuplicates(listed)
  {
    Queries.PendingUsersExact(InOrder(users, order), minPayout);
    InOrderListsEachUserOnce(users, order);
    Queries.PendingUsersNoDuplicates(InOrder(users, order), minPayout);
  }

  /**
   * The leaderboard of the whole map shows ten users, or all when there are
   * fewer; each shown entry is a user's record, and every user left off earns
   * no more than the last one shown.
   */
  lemma LeaderboardRanksEveryUser(users: map<string, User>, order: seq<string>)
    requires UsersValid(users) && OrderValid(users, order)
    ensures var board := Queries.Leaderboard(InOrder(users, order));
      && |board| == (if |users| < Queries.BoardSize then |users| else Queries.BoardSize)
      && (forall v :: v in board ==> v.id in users && users[v.id] == v)
      && (forall k :: k in users && users[k] !in board ==>
            users[k].earningsTotal <= board[|board| - 1].earningsTotal)
  {
    var vals := InOrder(users, order);
    var board := Queries.Leaderboard(vals);
    Queries.LeaderboardCorrect(vals);
    InOrderListsEachUserOnce(users, order);
    forall v | v in board ensures v.id in users && users[v.id] == v {
      assert v in multiset(board);
      assert v in multiset(vals);
    }
  }

  /** `get_user`: the map with a zeroed record for `uid` added when it is absent. */
  function Registered(users: map<string, User>, uid: string, username: Option<string>,
                      firstName: Option<string>): (r: map<string, User>)
    ensures r.Keys == users.Keys + {uid}
    ensures forall k :: k in users ==> r[k] == users[k]
    ensures uid !in users ==> r[uid] == NewUser(uid, username, firstName)
  {
    if uid in users then users else users[uid := NewUser(uid, username, firstName)]
  }

  /** Registering a user never removes or alters anyone, so the invariants survive. */
  lemma RegisteredPreservesValid(users: map<string, User>, uid: string, username: Option<string>,
                                 firstName: Option<string>)
    requires UsersValid(users) && uid != ""
    ensures UsersValid(Registered(users, uid, username, firstName))
    ensures Solvent(users) ==> Solvent(Registered(users, uid, username, firstName))
  {
    var r := Registered(users, uid, username, firstName);
    forall k | k in r
      ensures r[k].referrer.Some? ==> r[k].referrer.value in r && r[k].referrer.value != k
    {
      if k in users && r[k].referrer.Some? {
        assert r[k] == users[k];
      }
    }
  }

  /** Changing records but not keys keeps the insertion order valid. */
  lemma SameKeysKeepOrder(users: map<string, User>, users': map<string, User>, order: seq<string>)
    requires OrderValid(users, order) && users'.Keys == users.Keys
    ensures OrderValid(users', order)
  {
  }

  class Ledger {
    /** `USERS`, keyed by the decimal chat id. */
    var users: map<string, User>
    /** The order in which the keys of `USERS` were inserted. */
    var order: seq<string>
    /** `PAYOUTS`, append-only. */
    var payouts: seq<Payout>

    ghost predicate Valid()
      reads this
    {
      UsersValid(users) && OrderValid(users, order)
    }

    /** No user is owed a negative amount. */
    ghost predicate Solvent()
      reads this
    {
      Records.Solvent(users)
    }

    /**
     * `USERS.values()`: one entry per user, in insertion order;
     * `InOrderListsEachUserOnce` shows each user's record appears exactly once.
     */
    function Values(): (vals: seq<User>)
      reads this
      requires Valid()
      ensures |vals| == |users|
    {
      InOrder(users, order)
    }

    /** An empty ledger, as on a first run. */
    constructor ()
      ensures Valid() && Solvent()
      ensures users == map[] && order == [] && payouts == []
    {
      users, order, payouts := map[], [], [];
    }

    /** `get_user`: insert a zeroed record on first contact and return the user's record. */
    method GetUser(uid: string, username: Option<string>, firstName: Option<string>) returns (u: User)
      requires Valid() && uid != ""
      modifies this
      ensures Valid() && (old(Solvent()) ==> Solvent())
      ensures users == Registered(old(users), uid, username, firstName)
      ensures order == if uid in old(users) then old(order) else old(order) + [uid]
      ensures payouts == old(payouts)
      ensures u == users[uid]
    {
      RegisteredPreservesValid(users, uid, username, firstName);
      if uid !in users {
        users := users[uid := NewUser(uid, username, firstName)];
        order := order + [uid];
      }
      u := users[uid];
    }

    /** `handle_referral`: bind the code's target as the user's referrer, if allowed. */
    method HandleReferral(uid: string, code: string)
      requires Valid() && uid in users && Referral.IsReferralCode(code)
      modifies this
      ensures Valid() && (old(Solvent()) ==> Solvent())
      ensures users == Referral.Bind(old(users), uid, code)
      ensures order == old(order) && payouts == old(payouts)
    {
      Referral.BindPreservesValid(users, uid, code);
      var target := Referral.ReferralTarget(code);
      if target == uid {
        return;
      }
      if Truthy(users[uid].referrer) {
        return;
      }
      if target !in users {
        return;
      }
      users := users[uid := users[uid].(referrer := Some(target))];
    }

    /** The ledger part of `/start [arg]`: register, then follow a `ref_` argument. */
    method Start(uid: string, username: Option<string>, firstName: Option<string>, args: seq<string>)
      requires Valid() && uid != ""
      modifies this
      ensures Valid() && (old(Solvent()) ==> Solvent())
      ensures var registered := Registered(old(users), uid, username, firstName);
        users == if |args| > 0 && Referral.IsReferralCode(args[0])
                 then Referral.Bind(registered, uid, args[0]) else registered
      ensures order == if uid in old(users) then old(order) else old(order) + [uid]
      ensures payouts == old(payouts)
    {
      var _ := GetUser(uid, username, firstName);
      if |args| > 0 {
        var arg := args[0];
        if Referral.IsReferralCode(arg) {
          HandleReferral(uid, arg);
        }
      }
    }

    /** `credit`: pay the user's referrer for their first activity at `tier`. */
    method Credit(uid: string, tier: Tier, settings: Settings) returns (r: Option<Crediting.Credited>)
      requires Valid() && uid in users && Crediting.Priced(users, uid, tier, settings)
      modifies this
      ensures Valid()
      ensures NonNegativePayouts(settings) && old(Solvent()) ==> Solvent()
      ensures var o := Crediting.Credit(old(users), uid, tier, settings);
        users == o.users && r == o.issued
      ensures order == old(order) && payouts == old(payouts)
    {
      Crediting.CreditPreservesValid(users, uid, tier, settings);
      Crediting.CreditPreservesSolvent(users, uid, tier, settings);
      ghost var o := Crediting.Credit(users, uid, tier, settings);
      SameKeysKeepOrder(users, o.users, order);
      var u := users[uid];
      if !Truthy(u.referrer) {
        return None;
      }
      if tier in u.creditedTiers {
        return None;
      }
      var ref := u.referrer.value;
      var amount := settings.referralPayouts[tier];
      PayPromoter(ref, tier, amount);
      users := users[uid := users[uid].(creditedTiers := users[uid].creditedTiers + [tier])];
      r := Some(Crediting.Credited(users[ref], amount));
    }

    /** The promoter's side of a credit: one more referral, and `amount` more earned and pending. */
    method PayPromoter(ref: string, tier: Tier, amount: real)
      requires ref in users && tier in users[ref].referralsByTier
      modifies this
      ensures users == old(users)[ref := Crediting.Promote(old(users)[ref], tier, amount)]
      ensures order == old(order) && payouts == old(payouts)
    {
      var promoter := users[ref];
      promoter := promoter.(referralsTotal := promoter.referralsTotal + 1);
      promoter := promoter.(referralsByTier := promoter.referralsByTier[tier := promoter.referralsByTier[tier] + 1]);
      promoter := promoter.(earningsTotal := promoter.earningsTotal + amount);
      promoter := promoter.(earningsPending := promoter.earningsPending + amount);
      users := users[ref := promoter];
    }

    /** `user["tables"][tier] += 1`. */
    method CountTable(uid: string, tier: Tier)
      requires Valid() && uid in users
      modifies this
      ensures Valid() && (old(Solvent()) ==> Solvent())
      ensures users == old(users)[uid := Crediting.CountActivity(old(users)[uid], tier)]
      ensures order == old(order) && payouts == old(payouts)
    {
      ghost var counted := users[uid := Crediting.CountActivity(users[uid], tier)];
      Crediting.CountActivityPreservesValid(users, uid, tier);
      SameKeysKeepOrder(users, counted, order);
      var u := users[uid];
      var tables := u.tables[tier := u.tables[tier] + 1];
      assert u.(tables := tables) == Crediting.CountActivity(u, tier);
      users := users[uid := u.(tables := tables)];
    }

    /** `log_table`: register the caller, count the table, then attempt the credit. */
    method LogTable(uid: string, username: Option<string>, firstName: Option<string>, tier: Tier,
                    settings: Settings) returns (r: Option<Crediting.Credited>)
      requires Valid() && uid != "" && (uid in users ==> Crediting.Priced(users, uid, tier, settings))
      modifies this
      ensures Valid()
      ensures NonNegativePayouts(settings) && old(Solvent()) ==> Solvent()
      ensures var o := Crediting.LogTable(Registered(old(users), uid, username, firstName), uid, tier, settings);
        users == o.users && r == o.issued
      ensures order == if uid in old(users) then old(order) else old(order) + [uid]
      ensures payouts == old(payouts)
    {
      var _ := GetUser(uid, username, firstName);
      CountTable(uid, tier);
      r := Credit(uid, tier, settings);
    }

    /** `markpaid`: check the command, then move the amount and log the payout. */
    method MarkPaid(caller: int, admin: int, args: seq<string>, parseAmount: string -> Option<real>,
                    time: string) returns (reply: Payouts.Reply)
      requires Valid()
      modifies this
      ensures Valid() && (old(Solvent()) ==> Solvent())
      ensures var o := Payouts.MarkPaid(old(users), old(payouts), caller, admin, args, parseAmount, time);
        users == o.users && payouts == o.payouts && reply == o.reply
      ensures order == old(order)
    {
      Payouts.MarkPaidPreservesValid(users, payouts, caller, admin, args, parseAmount, time);
      Payouts.MarkPaidPreservesSolvent(users, payouts, caller, admin, args, parseAmount, time);
      ghost var o := Payouts.MarkPaid(users, payouts, caller, admin, args, parseAmount, time);
      SameKeysKeepOrder(users, o.users, order);
      if caller != admin {
        return Payouts.NotAuthorized;
      }
      if |args| < 2 {
        return Payouts.Usage;
      }
      if |args| > 2 {
        return Payouts.Malformed;
      }
      var uid, text := args[0], args[1];
      var amount := parseAmount(text);
      if amount.None? {
        return Payouts.Malformed;
      }
      if uid !in users {
        return Payouts.UserNotFound;
      }
      if amount.value > users[uid].earningsPending {
        return Payouts.ExceedsPending;
      }
      Settle(uid, amount.value);
      payouts := payouts + [Payout(uid, amount.value, time)];
      reply := Payouts.Paid(uid, amount.value);
    }

    /** `u["earnings_pending"] -= amt` then `u["earnings_paid"] += amt`. */
    method Settle(uid: string, amount: real)
      requires uid in users
      modifies this
      ensures users == old(users)[uid := Payouts.Move(old(users)[uid], amount)]
      ensures order == old(order) && payouts == old(payouts)
    {
      users := users[uid := users[uid].(earningsPending := users[uid].earningsPending - amount)];
      users := users[uid := users[uid].(earningsPaid := users[uid].earningsPaid + amount)];
    }

    /** `/leaderboard`: one line per shown user, best earner first. */
    method Leaderboard() returns (rows: seq<Queries.Row>)
      requires Valid()
      ensures rows == Queries.Rows(Queries.Leaderboard(Values()), Queries.TotalEarnings)
    {
      var vals := Values();
      var arr := Queries.SortByEarnings(vals);
      var top := arr[..if |arr| < Queries.BoardSize then |arr| else Queries.BoardSize];
      rows := BoardLines(top);
    }

    /** `/pending`: for the administrator, the users owed at least the configured minimum. */
    method Pending(caller: int, admin: int, settings: Settings) returns (rows: Option<seq<Queries.Row>>)
      requires Valid()
      ensures caller != admin ==> rows == None
      ensures caller == admin ==>
        rows == Some(Queries.Rows(Queries.PendingUsers(Values(), settings.minPayout), Queries.PendingEarnings))
    {
      if caller != admin {
        return None;
      }
      var lines := PendingLines(Values(), settings.minPayout);
      rows := Some(lines);
    }
  }

  /** The `enumerate(arr[:10])` loop of `/leaderboard`: one line per shown user. */
  method BoardLines(top: seq<User>) returns (rows: seq<Queries.Row>)
    ensures rows == Queries.Rows(top, Queries.TotalEarnings)
  {
    rows := [];
    for i := 0 to |top|
      invariant rows == Queries.Rows(top[..i], Queries.TotalEarnings)
    {
      assert top[..i + 1] == top[..i] + [top[i]];
      Queries.RowsAppend(top[..i], top[i], Queries.TotalEarnings);
      rows := rows + [Queries.RowOf(top[i], Queries.TotalEarnings)];
    }
    assert top[..|top|] == top;
  }

  /** The loop of `/pending`: one line for each user owed at least `minp`, in order. */
  method PendingLines(vals: seq<User>, minp: real) returns (lines: seq<Queries.Row>)
    ensures lines == Queries.Rows(Queries.PendingUsers(vals, minp), Queries.PendingEarnings)
  {
    lines := [];
    ghost var chosen := [];
    for i := 0 to |vals|
      invariant chosen == Queries.PendingUsers(vals[..i], minp)
      invariant lines == Queries.Rows(chosen, Queries.PendingEarnings)
    {
      assert vals[..i + 1][..i] == vals[..i];
      if vals[i].earningsPending >= minp {
        Queries.RowsAppend(chosen, vals[i], Queries.PendingEarnings);
        lines := lines + [Queries.RowOf(vals[i], Queries.PendingEarnings)];
        chosen := chosen + [vals[i]];
      }
    }
    assert vals[..|vals|] == vals;
  }
}
