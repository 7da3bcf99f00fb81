/**
 * Activity logging and referral crediting: every logged table is counted, and
 * a referred user's first activity at a tier credits their referrer once.
 */
module Crediting {
  import opened Wrappers
  import opened Records

  /** What a successful credit reports: the promoter's updated record and the amount. */
  datatype Credited = Credited(promoter: User, amount: real)

  /** The user map after a credit attempt, and the credit issued, if any. */
  datatype CreditOutcome = CreditOutcome(users: map<string, User>, issued: Option<Credited>)

  /** A user credits their referrer for a tier when they have one and have not yet credited that tier. */
  predicate Eligible(u: User, tier: Tier) {
    Truthy(u.referrer) && tier !in u.creditedTiers
  }

  /**
   * The tier has a configured amount whenever `credit` reads it, which is only
   * once the user has passed both guards.
   */
  predicate Priced(users: map<string, User>, uid: string, tier: Tier, settings: Settings)
    requires uid in users
  {
    Eligible(users[uid], tier) ==> tier in settings.referralPayouts
  }

  /** What `credit` relies on once the user is eligible: an amount, a promoter, and their counter. */
  predicate CanCredit(users: map<string, User>, uid: string, tier: Tier, settings: Settings)
    requires uid in users
  {
    && Priced(users, uid, tier, settings)
    && (Eligible(users[uid], tier) ==>
          users[uid].referrer.value in users && tier in users[users[uid].referrer.value].referralsByTier)
  }

  /** The promoter's record after being credited `amount` for one referral at `tier`. */
  function Promote(p: User, tier: Tier, amount: real): (q: User)
    requires tier in p.referralsByTier
    ensures q.(referralsTotal := p.referralsTotal, referralsByTier := p.referralsByTier,
               earningsTotal := p.earningsTotal, earningsPending := p.earningsPending) == p
    ensures q.earningsPending + q.earningsPaid == p.earningsPending + p.earningsPaid + amount
    ensures RecordValid(p) ==> RecordValid(q)
  {
    p.(referralsTotal := p.referralsTotal + 1,
       referralsByTier := p.referralsByTier[tier := p.referralsByTier[tier] + 1],
       earningsTotal := p.earningsTotal + amount,
       earningsPending := p.earningsPending + amount)
  }

  /**
   * `credit(u, tier)`: if the user is eligible, credit their referrer the
   * configured amount for the tier and remember the tier as credited.
   */
  function Credit(users: map<string, User>, uid: string, tier: Tier, settings: Settings): (o: CreditOutcome)
    requires uid in users && CanCredit(users, uid, tier, settings)
    ensures o.users.Keys == users.Keys
    ensures o.issued.Some? <==> Eligible(users[uid], tier)
    ensures o.issued == None ==> o.users == users
  {
    var u := users[uid];
    if !Truthy(u.referrer) then CreditOutcome(users, None)
    else if tier in u.creditedTiers then CreditOutcome(users, None)
    else
      var ref := u.referrer.value;
      var amount := settings.referralPayouts[tier];
      var promoted := users[ref := Promote(users[ref], tier, amount)];
      var done := promoted[uid := promoted[uid].(creditedTiers := promoted[uid].creditedTiers + [tier])];
      CreditOutcome(done, Some(Credited(done[ref], amount)))
  }

  /**
   * A successful credit adds the tier's amount to the promoter's total and
   * pending earnings, counts one more referral overall and at the tier, appends
   * the tier to the referred user's credited tiers, and changes nothing else.
   */
  lemma CreditEffect(users: map<string, User>, uid: string, tier: Tier, settings: Settings)
    requires UsersValid(users) && uid in users && Priced(users, uid, tier, settings)
    requires Eligible(users[uid], tier)
    ensures var o := Credit(users, uid, tier, settings);
      var ref := users[uid].referrer.value;
      var amount := settings.referralPayouts[tier];
      var p, q := users[ref], o.users[ref];
      && ref in users && ref != uid
      && o.issued == Some(Credited(q, amount))
      && q.earningsTotal == p.earningsTotal + amount
      && q.earningsPending == p.earningsPending + amount
      && q.earningsPaid == p.earningsPaid
      && q.referralsTotal == p.referralsTotal + 1
      && q.referralsByTier == p.referralsByTier[tier := p.referralsByTier[tier] + 1]
      && q.tables == p.tables && q.referrer == p.referrer && q.creditedTiers == p.creditedTiers
      && q.id == p.id && q.username == p.username && q.firstName == p.firstName
      && o.users[uid] == users[uid].(creditedTiers := users[uid].creditedTiers + [tier])
      && forall k :: k in users && k != uid && k != ref ==> o.users[k] == users[k]
  {
  }

  /** Crediting keeps the user map well formed, including total == pending + paid. */
  lemma CreditPreservesValid(users: map<string, User>, uid: string, tier: Tier, settings: Settings)
    requires UsersValid(users) && uid in users && Priced(users, uid, tier, settings)
    ensures UsersValid(Credit(users, uid, tier, settings).users)
  {
    var o := Credit(users, uid, tier, settings);
    if Eligible(users[uid], tier) {
      CreditEffect(users, uid, tier, settings);
      var c := users[uid].creditedTiers;
      AppendFresh(c, tier);
      var ref := users[uid].referrer.value;
      forall k | k in o.users
        ensures && k != "" && o.users[k].id == k && RecordValid(o.users[k])
                && (o.users[k].referrer.Some? ==> o.users[k].referrer.value in o.users && o.users[k].referrer.value != k)
      {
        assert users[k].referrer == o.users[k].referrer;
      }
    }
  }

  /** Appending a tier not yet present keeps the list free of duplicates. */
  lemma AppendFresh(c: seq<Tier>, tier: Tier)
    requires NoDuplicates(c) && tier !in c
    ensures NoDuplicates(c + [tier])
  {
    forall i, j | 0 <= i < j < |c + [tier]| ensures (c + [tier])[i] != (c + [tier])[j] {
      if j == |c| { assert (c + [tier])[i] == c[i]; }
    }
  }

  /** With non-negative configured amounts no pending balance becomes negative. */
  lemma CreditPreservesSolvent(users: map<string, User>, uid: string, tier: Tier, settings: Settings)
    requires UsersValid(users) && uid in users && Priced(users, uid, tier, settings)
    ensures NonNegativePayouts(settings) && Solvent(users) ==> Solvent(Credit(users, uid, tier, settings).users)
  {
    if Eligible(users[uid], tier) {
      CreditEffect(users, uid, tier, settings);
    }
  }

  /**
   * With the shipped settings every credit has its amount, and crediting never
   * leaves a pending balance negative.
   */
  lemma ShippedSettingsCredit(users: map<string, User>, uid: string, tier: Tier)
    requires UsersValid(users) && uid in users
    ensures Priced(users, uid, tier, DefaultSettings())
    ensures Solvent(users) ==> Solvent(Credit(users, uid, tier, DefaultSettings()).users)
  {
    CreditPreservesSolvent(users, uid, tier, DefaultSettings());
  }

  /** Crediting the same user at the same tier again issues nothing and changes nothing. */
  lemma CreditIdempotent(users: map<string, User>, uid: string, tier: Tier, settings: Settings)
    requires UsersValid(users) && uid in users && Priced(users, uid, tier, settings)
    ensures var once := Credit(users, uid, tier, settings);
      Credit(once.users, uid, tier, settings) == CreditOutcome(once.users, None)
  {
    var once := Credit(users, uid, tier, settings);
    CreditPreservesValid(users, uid, tier, settings);
    if Eligible(users[uid], tier) {
      CreditEffect(users, uid, tier, settings);
      assert tier in once.users[uid].creditedTiers;
    }
  }

  /** `tables[tier] += 1` on one record. */
  function CountActivity(u: User, tier: Tier): User
    requires tier in u.tables
  {
    u.(tables := u.tables[tier := u.tables[tier] + 1])
  }

  /**
   * Counting a table adds exactly one to the count for that tier, leaves the
   * other tiers' counts alone and touches no identity, referral or earnings field.
   */
  lemma CountActivityOnlyCounts(u: User, tier: Tier)
    requires tier in u.tables
    ensures var c := CountActivity(u, tier);
      && c.id == u.id && c.username == u.username && c.firstName == u.firstName
      && c.referrer == u.referrer && c.creditedTiers == u.creditedTiers
      && c.referralsTotal == u.referralsTotal && c.referralsByTier == u.referralsByTier
      && c.earningsTotal == u.earningsTotal && c.earningsPending == u.earningsPending
      && c.earningsPaid == u.earningsPaid
      && c.tables == u.tables[tier := u.tables[tier] + 1]
  {
  }

  /** Counting activity changes no balance, referrer or credited tier, so every invariant survives. */
  lemma CountActivityPreservesValid(users: map<string, User>, uid: string, tier: Tier)
    requires UsersValid(users) && uid in users
    ensures UsersValid(users[uid := CountActivity(users[uid], tier)])
    ensures Solvent(users) ==> Solvent(users[uid := CountActivity(users[uid], tier)])
  {
    var counted := users[uid := CountActivity(users[uid], tier)];
    forall k | k in counted
      ensures counted[k].referrer.Some? ==> counted[k].referrer.value in counted
    {
    }
  }

  /**
   * The ledger part of `log_table`, for a user already in the map: count the
   * activity, then attempt the credit.
   */
  function LogTable(users: map<string, User>, uid: string, tier: Tier, settings: Settings): (o: CreditOutcome)
    requires uid in users && tier in users[uid].tables && CanCredit(users, uid, tier, settings)
    ensures o.users.Keys == users.Keys
    ensures o.issued.Some? <==> Eligible(users[uid], tier)
  {
    Credit(users[uid := CountActivity(users[uid], tier)], uid, tier, settings)
  }

  /**
   * Logging a table always adds exactly one to the caller's count for that tier
   * and leaves every other activity count alone, whether or not a credit follows.
   */
  lemma LogTableCountsActivity(users: map<string, User>, uid: string, tier: Tier, settings: Settings)
    requires UsersValid(users) && uid in users && Priced(users, uid, tier, settings)
    ensures var o := LogTable(users, uid, tier, settings);
      && o.users[uid].tables == users[uid].tables[tier := users[uid].tables[tier] + 1]
      && (forall k :: k in users && k != uid ==> o.users[k].tables == users[k].tables)
  {
    var counted := users[uid := CountActivity(users[uid], tier)];
    assert counted[uid].tables == users[uid].tables[tier := users[uid].tables[tier] + 1];
    CreditKeepsTables(counted, uid, tier, settings);
  }

  /** A credit never touches an activity count. */
  lemma CreditKeepsTables(users: map<string, User>, uid: string, tier: Tier, settings: Settings)
    requires uid in users && CanCredit(users, uid, tier, settings)
    ensures var o := Credit(users, uid, tier, settings);
      forall k :: k in users ==> o.users[k].tables == users[k].tables
  {
    if Eligible(users[uid], tier) {
      var ref := users[uid].referrer.value;
      var promoted := users[ref := Promote(users[ref], tier, settings.referralPayouts[tier])];
      assert promoted[ref].tables == users[ref].tables;
    }
  }

  /** Logging a table keeps the user map well formed. */
  lemma LogTablePreservesValid(users: map<string, User>, uid: string, tier: Tier, settings: Settings)
    requires UsersValid(users) && uid in users && Priced(users, uid, tier, settings)
    ensures UsersValid(LogTable(users, uid, tier, settings).users)
  {
    var counted := users[uid := CountActivity(users[uid], tier)];
    CountActivityPreservesValid(users, uid, tier);
    CreditPreservesValid(counted, uid, tier, settings);
  }

  /**
   * Repeated activity at one tier credits the referrer at most once: the second
   * log issues no credit and only counts the activity.
   */
  lemma RepeatedActivityCreditsOnce(users: map<string, User>, uid: string, tier: Tier, settings: Settings)
    requires UsersValid(users) && uid in users && Priced(users, uid, tier, settings)
    ensures var first := LogTable(users, uid, tier, settings);
      UsersValid(first.users) &&
      var second := LogTable(first.users, uid, tier, settings);
      && second.issued == None
      && second.users == first.users[uid := CountActivity(first.users[uid], tier)]
  {
    var counted := users[uid := CountActivity(users[uid], tier)];
    CountActivityPreservesValid(users, uid, tier);
    LogTablePreservesValid(users, uid, tier, settings);
    var first := LogTable(users, uid, tier, settings);
    if Eligible(users[uid], tier) {
      CreditEffect(counted, uid, tier, settings);
      assert tier in first.users[uid].creditedTiers;
    } else {
      assert first.users == counted;
    }
    var recount := first.users[uid := CountActivity(first.users[uid], tier)];
    assert !Eligible(recount[uid], tier);
  }
}
