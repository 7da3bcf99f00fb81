/**
 * The entities of the referral ledger: tiers, user records, settings and
 * payout records, and the invariants a well-formed user map keeps.
 */
module Records {
  import opened Wrappers

  /** The three activity tiers, labelled "5", "10" and "20" by the bot. */
  datatype Tier = Five | Ten | Twenty

  /** A per-tier counter, like the `{"5":0,"10":0,"20":0}` dictionaries. */
  type TierCounts = map<Tier, nat>

  /**
   * One user record. `referrer` is the referring user's id, `creditedTiers`
   * the tiers for which this user has already credited their referrer.
   */
  datatype User = User(
    id: string,
    username: Option<string>,
    firstName: Option<string>,
    referrer: Option<string>,
    referralsTotal: nat,
    referralsByTier: TierCounts,
    earningsTotal: real,
    earningsPending: real,
    earningsPaid: real,
    tables: TierCounts,
    creditedTiers: seq<Tier>)

  /** Process-wide configuration: the amount paid per tier and the listing threshold. */
  datatype Settings = Settings(referralPayouts: map<Tier, real>, minPayout: real)

  /** An append-only payout record; `time` is an opaque timestamp supplied by the caller. */
  datatype Payout = Payout(user: string, amount: real, time: string)

  /** Python truthiness of an optional string: `None` and `""` are false. */
  predicate Truthy(s: Option<string>)
    ensures Truthy(s) <==> s !in {None, Some("")}
  {
    s.Some? && s.value != ""
  }

  /** Every tier has an entry. */
  predicate AllTiers<V>(m: map<Tier, V>) {
    Five in m && Ten in m && Twenty in m
  }

  predicate NoDuplicates<T(==)>(s: seq<T>) {
    forall i, j :: 0 <= i < j < |s| ==> s[i] != s[j]
  }

  /** The configuration shipped with the bot. */
  function DefaultSettings(): (s: Settings)
    ensures AllTiers(s.referralPayouts) && NonNegativePayouts(s)
    ensures s.referralPayouts[Five] < s.referralPayouts[Ten] < s.referralPayouts[Twenty]
    ensures s.minPayout > 0.0
  {
    Settings(map[Five := 2.0, Ten := 4.0, Twenty := 6.0], 5.0)
  }

  predicate NonNegativePayouts(s: Settings) {
    forall t :: t in s.referralPayouts ==> s.referralPayouts[t] >= 0.0
  }

  function ZeroCounts(): (m: TierCounts)
    ensures AllTiers(m) && m[Five] == 0 && m[Ten] == 0 && m[Twenty] == 0
  {
    map[Five := 0, Ten := 0, Twenty := 0]
  }

  /** The record created for a user seen for the first time. */
  function NewUser(uid: string, username: Option<string>, firstName: Option<string>): (u: User)
    ensures u.id == uid && u.username == username && u.firstName == firstName
    ensures RecordValid(u) && u.earningsPending == 0.0
    ensures u.referrer == None && u.creditedTiers == [] && u.referralsTotal == 0
    ensures u.referralsByTier == ZeroCounts() && u.tables == ZeroCounts()
    ensures u.earningsTotal == 0.0 && u.earningsPaid == 0.0
  {
    User(uid, username, firstName, None, 0, ZeroCounts(), 0.0, 0.0, 0.0, ZeroCounts(), [])
  }

  /** The invariants of a single record. */
  predicate RecordValid(u: User) {
    && AllTiers(u.tables)
    && AllTiers(u.referralsByTier)
    && NoDuplicates(u.creditedTiers)
    && u.earningsTotal == u.earningsPending + u.earningsPaid
  }

  /**
   * The invariants of the user map: every record is stored under its own id,
   * which is not empty (ids are decimal renderings of chat ids), is well
   * formed, and names as referrer an existing user other than itself.
   */
  predicate UsersValid(users: map<string, User>) {
    forall k {:trigger users[k]} :: k in users ==>
      && k != ""
      && users[k].id == k
      && RecordValid(users[k])
      && (users[k].referrer.Some? ==> users[k].referrer.value in users && users[k].referrer.value != k)
  }

  /** No pending balance is negative. */
  predicate Solvent(users: map<string, User>) {
    forall k {:trigger users[k]} :: k in users ==> users[k].earningsPending >= 0.0
  }

  /**
   * Because a user credits each tier at most once, a referred user credits
   * their referrer at most three times.
   */
  lemma CreditedTiersAtMostThree(s: seq<Tier>)
    requires NoDuplicates(s)
    ensures |s| <= 3
  {
    if |s| > 3 {
      TwoOfFourAgree(s[0], s[1], s[2], s[3]);
    }
  }

  /** Among any four tiers two are the same. */
  lemma TwoOfFourAgree(a: Tier, b: Tier, c: Tier, d: Tier)
    ensures a == b || a == c || a == d || b == c || b == d || c == d
  {
  }

  /** The name shown for a user: username, else first name, else id. */
  function DisplayName(u: User): (name: string)
    ensures name in {u.id} + (if u.username.Some? then {u.username.value} else {})
                           + (if u.firstName.Some? then {u.firstName.value} else {})
    ensures name == "" <==> !Truthy(u.username) && !Truthy(u.firstName) && u.id == ""
  {
    if Truthy(u.username) then u.username.value
    else if Truthy(u.firstName) then u.firstName.value
    else u.id
  }

  /**
   * `a or b or c`: a usable username wins, a usable first name comes next, and
   * the id is shown only when neither name is usable.
   */
  lemma DisplayNameFallback(u: User)
    ensures Truthy(u.username) ==> DisplayName(u) == u.username.value
    ensures !Truthy(u.username) && Truthy(u.firstName) ==> DisplayName(u) == u.firstName.value
    ensures !Truthy(u.username) && !Truthy(u.firstName) ==> DisplayName(u) == u.id
  {
  }
}
