# Referral-credit ledger of the affiliate bot

This project models the ledger behind a chat bot. People get referral links,
refer other people, and log "table" activity at three tiers ("5", "10", "20").
When a referred user is active, their referrer earns a pending amount. The
administrator later marks that amount as paid.

The model keeps the bot's in-memory state, without the chat transport or the
JSON files:

- `USERS`, a dictionary from user id to user record. It is modelled as a map
  `users` plus a sequence `order` that holds the dictionary's insertion order.
  The leaderboard breaks ties in that order, and the pending listing uses it.
- `PAYOUTS`, an append-only list of payout records, modelled as `payouts`.
- `SETTINGS`, the amount paid per tier and the listing threshold. It is passed
  in as an immutable `Settings` value.

The state lives in the class `Engine.Ledger`. Its methods update the fields in
place, the way `get_user`, `handle_referral`, `credit`, `log_table` and `markpaid`
do. Each state-changing method ensures that the new fields equal a pure function
of the old ones: `Registered`, `Referral.Bind`, `Crediting.Credit`,
`Crediting.LogTable` or `Payouts.MarkPaid`. The lemmas about those functions
state what the bot promises:

- a referral is bound at most once, never to the user themself, and only to a
  known user;
- a referrer is credited at most once per tier per referred user;
- `earnings_total == earnings_pending + earnings_paid` always holds;
- pending never drops below zero;
- a payout either changes nothing or moves the amount and appends exactly one
  record;
- the leaderboard is a stable sort, best first, cut to ten;
- the pending listing holds exactly the users owed at least the minimum.

Money is an exact `real`. Python truthiness of `None`/`""` for `referrer_id`,
`username` and `first_name` is modelled by `Records.Truthy`.

The code is looser than its documented design in two places, and the model
follows the code:

- `referrals_total` goes up once per credit (`main.py:153`), not once per
  distinct referred user. One referred user can count three times, once per tier.
  `Records.CreditedTiersAtMostThree` bounds this.
- `markpaid` never checks that the amount is positive (`main.py:202-211`).
  `Payouts.NegativeAmountAccepted` shows what a negative amount does: it raises
  pending and lowers paid.

Files: `wrappers.dfy` (Option), `records.dfy` (entities and invariants),
`referral.dfy`, `credit.dfy`, `payout.dfy`, `queries.dfy`, `engine.dfy` (the
`Ledger` class).

## Model

| member | source | states |
|---|---|---|
| `Records.DefaultSettings` | main.py:32-39 | The shipped settings pay a configured, non-negative amount for every tier, rising from tier 5 to tier 20, with a positive listing threshold. |
| `Records.NewUser` | main.py:71-83 | A first-contact record keeps the given id, username and first name. It has no referrer and no credited tiers. Its referral count, per-tier referral counts, table counts and all three earnings are zero. It satisfies every record invariant, including total == pending + paid. |
| `Records.Truthy` | main.py:145 | Python truthiness of an optional string: it is false exactly for `None` and the empty string. |
| `Records.CreditedTiersAtMostThree` | main.py:147-158 | Because the guard keeps `credited_tiers` free of duplicates, one referred user credits their referrer at most three times. |
| `Records.DisplayName` | main.py:139 | The shown name is always the id, the username or the first name. It is empty only when neither name is usable and the id is empty. |
| `Records.DisplayNameFallback` | main.py:139 | `a or b or c`: a usable username wins, else a usable first name, and otherwise the id is shown. |
| `Referral.Split` | main.py:88 | `str.split` on one character: at least one piece, at least two exactly when the separator occurs, and no piece contains the separator. |
| `Referral.JoinSplit` | main.py:88 | Joining the pieces of a split with the separator gives back the original string. |
| `Referral.SplitJoin` | main.py:88 | Splitting a join of separator-free pieces gives back the pieces. |
| `Referral.FirstPiece` | main.py:88 | The first piece of a split is the longest separator-free prefix. |
| `Referral.IsReferralCode` | main.py:103 | `startswith("ref_")`: the code is `ref_` followed by the rest of the code. |
| `Referral.ReferralTarget` | main.py:88 | The target read from a code never contains an underscore. |
| `Referral.ReferralTargetSpec` | main.py:87-88 | For a code starting with `ref_`, the target is the text after `ref_` up to the next underscore or the end. |
| `Referral.ReferralTargetOfLink` | main.py:119 | The code `ref_<id>` in a user's referral link names that same id, for ids without underscores. |
| `Referral.Bind` | main.py:87-97 | Only the claiming user's `referrer_id` can change, and no id is added or removed. The map is unchanged if the target is the user, the user already has a truthy referrer, or the target is unknown. Otherwise the referrer becomes the target. |
| `Referral.BindPreservesValid` | main.py:93-96 | After a bind, every referrer still names an existing user other than the referred user. |
| `Referral.NoSelfReferral` | main.py:89-90 | No code can make a user their own referrer. |
| `Referral.FirstClaimWins` | main.py:91-92 | Once a user has a referrer, a later code leaves the map unchanged. |
| `Crediting.Credit` | main.py:143-161 | A credit is issued exactly when the user has a truthy referrer and has not credited this tier. Otherwise nothing changes and nothing is returned. No id is added or removed. |
| `Crediting.Promote` | main.py:153-156 | The promoter's update changes only the referral counts, total and pending. Owed plus paid rises by exactly the amount, and a well-formed record stays well formed. |
| `Crediting.CreditEffect` | main.py:150-161 | A successful credit adds the tier's amount to the promoter's total and pending (paid unchanged). It adds one to `referrals_total` and to `referrals_by_tier[tier]`, appends the tier to the referred user's `credited_tiers`, and returns the promoter with the amount. Every other field and every other user is unchanged. |
| `Crediting.CreditPreservesValid` | main.py:150-158 | Crediting keeps every invariant: total == pending + paid, no duplicate credited tiers, and known referrers. |
| `Crediting.CreditPreservesSolvent` | main.py:155-156 | With non-negative configured amounts, no pending balance becomes negative. |
| `Crediting.ShippedSettingsCredit` | main.py:32-39 | The shipped settings configure an amount for every credit, and crediting with them never leaves a pending balance negative. |
| `Crediting.CreditIdempotent` | main.py:147-148 | Crediting the same user at the same tier a second time issues nothing and changes nothing. |
| `Crediting.CountActivityOnlyCounts` | main.py:165 | Counting a table (`CountActivity`) adds exactly one to the count for that tier. It leaves the other tiers' counts unchanged, and every other field too: id, username, first name, referrer, credited tiers, referral counts and earnings. |
| `Crediting.CreditKeepsTables` | main.py:150-158 | A credit changes no user's activity counts. |
| `Crediting.CountActivityPreservesValid` | main.py:165 | Counting a table keeps every invariant and every non-negative pending balance. |
| `Crediting.LogTable` | main.py:164-168 | Counting and crediting never add or remove a user. A credit is issued exactly when the caller is eligible: a truthy referrer and the tier not yet credited. |
| `Crediting.LogTableCountsActivity` | main.py:165-168 | Logging a table always adds exactly one to the caller's count for that tier, whether or not a credit follows. Every other activity count is unchanged. |
| `Crediting.LogTablePreservesValid` | main.py:164-168 | Logging a table keeps every invariant of the user map. |
| `Crediting.RepeatedActivityCreditsOnce` | main.py:147-148 | A second table at the same tier issues no credit and only adds one to the caller's count. |
| `Payouts.Check` | main.py:196-208 | The command is accepted only from the administrator, with exactly two arguments, an amount that parses, a known user, and an amount no greater than that user's pending. The accepted reply names that user and amount. |
| `Payouts.Move` | main.py:210-211 | Settling moves the amount from pending to paid. Total and pending + paid are unchanged. |
| `Payouts.MarkPaid` | main.py:195-215 | A rejected command changes neither users nor payouts. A successful one appends exactly one record and keeps the earlier ones. No id is added or removed. |
| `Payouts.MarkPaidRejections` | main.py:196-208 | Each rejection holds exactly under its condition, in the handler's order: not the administrator, fewer than two arguments, too many arguments or an unparsable amount, unknown user, amount above pending. |
| `Payouts.MarkPaidSuccess` | main.py:207-214 | A payout succeeds exactly when the administrator gives a known user and an amount no greater than that user's pending. Pending then drops and paid rises by the amount, and total is unchanged. The record `{user, amount, time}` is appended, and no other user changes. |
| `Payouts.MarkPaidPreservesValid` | main.py:210-211 | After a payout, total == pending + paid still holds for every user. |
| `Payouts.MarkPaidPreservesSolvent` | main.py:207-210 | No payout leaves a pending balance below zero. |
| `Payouts.NegativeAmountAccepted` | main.py:202-211 | A negative amount is accepted, raises pending, lowers paid and is logged as a payout. |
| `Queries.Insert` | main.py:136 | Placing one user into a ranking adds exactly one entry. |
| `Queries.InsertPermutes` | main.py:136 | The result of an insertion is a permutation of the user plus the old ranking. |
| `Queries.InsertSorted` | main.py:136 | Inserting into a ranking that is non-increasing by total earnings keeps it non-increasing. |
| `Queries.InsertStable` | main.py:136 | The inserted user goes before its equals, so every group of equal earners keeps its input order. |
| `Queries.SortByEarnings` | main.py:136 | The sort returns as many entries as it was given. |
| `Queries.SortByEarningsCorrect` | main.py:136 | The sort returns a permutation of the users, with non-increasing `earnings_total`. It is stable: users with equal totals keep their original order. |
| `Queries.Leaderboard` | main.py:136-138 | The board shows ten users, or all of them when there are fewer. |
| `Queries.LeaderboardCorrect` | main.py:136-138 | The board has min(10, number of users) entries, best first, all taken from the users. Nobody left off earns more than the last entry shown. Equal earners appear in insertion order. |
| `Queries.PendingUsers` | main.py:189-190 | The listing is no longer than its input. Everyone listed comes from the input and is owed at least the minimum. |
| `Queries.PendingUsersExact` | main.py:189-190 | A user is listed exactly when they are in the input and owed at least the minimum. |
| `Queries.PendingUsersSubmultiset` | main.py:189-190 | The listing holds each input entry at most as many times as the input does, as a single pass that appends each user at most once. |
| `Queries.PendingUsersNoDuplicates` | main.py:189-190 | A duplicate-free input gives a duplicate-free listing: nobody is listed twice. |
| `Queries.Rows` | main.py:138-140 | A listing has one line per user, in order, with the display name and the chosen amount. |
| `Engine.Registered` | main.py:68-85 | `get_user` adds the id, with a fresh record only when the id was absent. Existing records are untouched. |
| `Engine.RegisteredPreservesValid` | main.py:70-83 | Registering a user keeps every invariant and every non-negative pending balance. |
| `Engine.InOrder` | main.py:136 | `USERS.values()` has exactly as many entries as the map has users. |
| `Engine.InOrderListsEachUserOnce` | main.py:189 | `USERS.values()` lists every user's record, contains nothing else, and lists no record twice. |
| `Engine.PendingListsEveryOwedUser` | main.py:187-192 | Over the whole map, a user is on the pending listing exactly when owed at least `min_payout`, and every listed entry is a user's current record, and nobody is listed twice. |
| `Engine.LeaderboardRanksEveryUser` | main.py:136-138 | Over the whole map, the board shows ten users, or all when fewer. Each entry is a user's current record, and every user left off earns no more than the last one shown. |
| `Engine.BoardLines` | main.py:138-140 | The loop over the shown users yields one line per user, in order, with display name and total. |
| `Engine.PendingLines` | main.py:189-192 | The loop over `USERS.values()` yields one line, with display name and pending amount, for each user owed at least the minimum, in order. |
| `Engine.Ledger.Values` | main.py:136 | `USERS.values()` of the ledger has one entry per user. |
| `Engine.Ledger.constructor` | main.py:55-56 | The first-run ledger has no users, no insertion order and no payouts, and it satisfies the invariants. |
| `Engine.Ledger.GetUser` | main.py:68-85 | The map becomes `Registered(old map)`. The id is appended to the insertion order only if it is new. Payouts are unchanged, and the user's record is returned. |
| `Engine.Ledger.HandleReferral` | main.py:87-97 | The map becomes `Bind(old map)`. The invariants are kept, and order and payouts are unchanged. |
| `Engine.Ledger.Start` | main.py:99-104 | The user is registered. The bind is applied only when the first argument starts with `ref_`. |
| `Engine.Ledger.Credit` | main.py:143-161 | The map and the result are those of `Crediting.Credit`. The invariants are kept, and pending stays non-negative under non-negative amounts. |
| `Engine.Ledger.PayPromoter` | main.py:153-156 | The four in-place increments on the promoter's record, and nothing else. |
| `Engine.Ledger.CountTable` | main.py:165 | `tables[tier] += 1` on the caller's record, keeping the invariants. |
| `Engine.Ledger.LogTable` | main.py:163-168 | The map and the result are those of `Crediting.LogTable` applied after registration. |
| `Engine.Ledger.MarkPaid` | main.py:195-215 | Users, payouts and the reply are those of `Payouts.MarkPaid`. The invariants are kept, and so is a non-negative pending balance. |
| `Engine.Ledger.Settle` | main.py:210-211 | Pending drops and paid rises by the amount on one record, and nothing else changes. |
| `Engine.Ledger.Leaderboard` | main.py:135-140 | The lines are the display name and total of each user on `Queries.Leaderboard` of the users in insertion order. |
| `Engine.Ledger.Pending` | main.py:183-192 | A caller other than the administrator gets nothing. The administrator gets one line, with name and pending amount, for each user whose pending reaches `min_payout`, in insertion order. |

## Left out

- The chat transport is not modelled: `Update`, `ContextTypes`, the async
  handlers, `reply_text`, `run` and handler registration. They are I/O through a
  foreign library. The reply texts of `start`, `myref` and `mystats` and the
  formatting of listing lines are presentation only.
- JSON persistence is not modelled: `load_json`, `save_json`, `ensure_files`, the
  fallback to defaults on a corrupt file, and the crash window between the two
  saves of a payout. The ledger starts empty, as on a first run, and is never
  reloaded from a file that might break the invariants.
- `BOT_TOKEN` is not modelled, because it only matters at startup. `ADMIN_ID` and
  the caller's id are the integer parameters `admin` and `caller`.
- Floating point is not modelled. Money is an exact `real`, so rounding, NaN and
  infinity are out of scope, and so is the `:.2f` formatting. Parsing the amount
  with `float(...)` is the parameter `parseAmount`, where `None` means a
  `ValueError`.
- The payout timestamp from `datetime.utcnow()` is the opaque parameter `time`.
- Payouts.Reply: the handler raises on more than two arguments (tuple
  unpacking) and on an unparsable amount. Both are modelled as the reply
  `Malformed`, with no state change, which is what the raised exception leaves.
- Engine.Ledger.GetUser: requires a non-empty id, because ids are decimal
  renderings of chat ids and are never empty.
- Engine.Ledger.Start: requires a non-empty id, for the same reason as `GetUser`,
  which it calls.
- Engine.Ledger.LogTable: requires a non-empty id, for the same reason as
  `GetUser`, which it calls.
- Engine.Ledger.Credit: requires an amount for the tier only when the user is
  eligible, that is, past both guards of `credit` and so at the point where the
  source reads `SETTINGS`. With a settings file that lacks the tier, the source
  then raises `KeyError`. The model does not cover that crash.
- Engine.Ledger.LogTable: has the same requirement as `Credit`. In the source's
  `KeyError` case the table would already be counted and saved.
- Engine.Ledger.Credit: keeps pending balances non-negative only when the
  configured amounts are non-negative. The source never checks the settings.
