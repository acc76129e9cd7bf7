# Ads-Skip bot: entitlement state machine

This project models the entitlement logic of the Ads-Skip Telegram bot
(`bot.py`). The bot keeps one document per Telegram user in its `users`
collection: a daily link counter `count` and the day `date` it belongs to,
a premium expiry day, a `trial_used` flag and a `referrals` counter. Two
handlers, `start` and `clean`, change that collection. Both call the
database helper `get_user` first, then write with `update_one`:

- `get_user` finds a user's record. For an unknown user it first inserts a
  premium trial that expires tomorrow.
- The quota block of `clean` rolls the counter to today when it belongs to
  another day. It then refuses a free user who has used 4 links today,
  charges one link to a free user under the limit, and lets a premium user
  through uncharged. It does this before the link is followed.
- The referral block of `start` credits the user named by `/start <id>` when
  that id is non-zero, is not the caller's own and names a known user. The
  referrer's tenth, twentieth, ... referral sets their premium expiry to
  tomorrow.

The model works as follows:

- `wrappers.dfy` defines `Option`.
- `entitlement.dfy` (module `Entitlement`) holds the record, `IsPremium` and
  the rules as pure functions over a record and over the table
  (`map<int, Record>`, keyed by user id).
- `bot.dfy` (module `Bot`) holds the class `UserStore`. Its field `users` is
  the collection. Its methods follow the handlers step by step, and each
  method's contract states the new table and ties it to the pure rule.
- `quota.dfy` and `referral.dfy` prove what happens over many calls.

Days are day numbers, and the current day is a parameter of every operation.
The quota block compares the stored ISO date string with today's for
equality, which holds exactly when the two days are equal. `is_premium` parses
the stored expiry into a date and compares dates, which order as their day
numbers do.

What the bot does and does not do, as the model states it:

- It does not extend an existing expiry. A reward overwrites it with
  tomorrow (`RewardReplacesExpiry`).
- It does not record who referred a user, so a repeated `/start <id>`
  credits again (`RepeatedStart`).
- It keeps no count of rewards granted.
- A user is premium through the expiry day itself (`expiry >= today`).
  The trial and each reward set the expiry to tomorrow, so each gives two
  calendar days of premium (`TrialCoversTwoDays`, `TenthReferralRewards`).
  The bot's own messages promise one day ("Unlimited links today",
  "1 Day Premium").
- The welcome message promises a reward for 10 friends. The bot counts
  `/start <id>` calls, so one friend repeating it ten times earns the same
  reward (`RepeatedStart`).
- It charges a link before following it, so a failed resolution still uses
  quota (`Bot.UserStore.Clean`).
- It strips no query parameters and follows no meta-refresh. It replies
  with the address the HTTP redirects end at.

## Model

| member | source | states |
|---|---|---|
| Entitlement.IsPremium | bot.py:33-36 | never premium without an expiry; with one, premium iff today is not after it (inclusive); its behaviour over time is PremiumThroughExpiry |
| Entitlement.NewRecord | bot.py:20-29 | the trial record: count 0, date today, expiry today+1, trial flag set, 0 referrals; premium today and tomorrow, not the day after |
| Entitlement.CreditsReferrer | bot.py:50-52 | a credit happens iff the argument is present, non-zero, not the caller's id and names a stored user |
| Entitlement.Credit | bot.py:53-57 | referrals +1; expiry today+1 iff the new total is divisible by 10, otherwise kept; count, date and trial flag kept |
| Entitlement.PremiumThroughExpiry | bot.py:33-36 | premium holds through the expiry day and stops after it, never without an expiry; a fresh record is premium exactly on its creation day and the next |
| Entitlement.WithUser | bot.py:16-31 | a known id: table unchanged and the stored record returned; an unknown id: exactly that key added, holding the trial record, every other record kept |
| Entitlement.QuotaGate | bot.py:73-82 | window moves to today; unlimited iff premium; refused iff not premium, window already today's and count at least 4, and then nothing changes; a charge adds exactly 1 to the (rolled) count and never exceeds 4; premium leaves the rolled count; expiry, referrals and trial flag untouched |
| Entitlement.Cleaned | bot.py:69-82 | only the caller's record can change or appear; a first-time caller is unlimited and is left holding the uncharged trial record; a refusal changes no record |
| Entitlement.Referred | bot.py:42-57 | no change at all unless the argument is a non-zero id other than the caller's naming a known user; then only the referrer changes: referrals +1, expiry set to tomorrow iff the new total is a multiple of 10, otherwise kept, count, date and trial flag kept |
| Entitlement.Started | bot.py:39-57 | the caller ends up in the table, with its stored record or the trial record; no other key is added |
| Bot.UserStore.constructor | bot.py:11-13 | the collection starts empty and satisfies the record invariant |
| Bot.UserStore.StoredUsersKeepDailyLimit | bot.py:73-82 | in a valid store every record's count is at most 4, and whatever `clean` calls that user makes later and whatever referral credits reach them in between (bot.py:53-57), on a non-decreasing clock, at most 4 calls are charged on any day |
| Bot.UserStore.GetUser | bot.py:16-31 | unknown id: inserts exactly one record with count 0, date today, expiry today+1, trial used, 0 referrals, and returns it; known id: returns the stored record, table unchanged; keeps the invariant (count at most 4, trial flag set) |
| Bot.UserStore.CleanQuota | bot.py:73-82 | other records untouched; the caller's date becomes today; unlimited iff premium; a refusal changes nothing; a charge adds 1 to the rolled count; a premium user's count is only rolled; result equals QuotaGate; keeps count at most 4 |
| Bot.UserStore.Clean | bot.py:69-90 | the table afterwards is Cleaned's (for a first-time caller: the trial record added, uncharged), the same whether or not the link resolved; limit reply iff the gate refused; otherwise the resolved address or the failure reply |
| Bot.UserStore.CreditReferral | bot.py:42-57 | no-op unless the referrer is known, non-zero and not the caller; then referrer's referrals +1, expiry today+1 iff the new total is divisible by 10, else unchanged; no other field or record changes |
| Bot.UserStore.Start | bot.py:39-57 | caller created with the trial record if new, then the referral credit, as Started |
| QuotaProperties.FreeDay | bot.py:78-82 | for a free user, call i of the day is charged iff the window count plus i is under 4, refused otherwise; the count stops at 4 |
| QuotaProperties.FreshWindowFiveCalls | bot.py:73-82 | from a rolled or empty window a free user's five calls give charged four times then refused, leaving count 4 |
| QuotaProperties.PremiumDay | bot.py:73-82 | every call by a premium user is unlimited and the record is at most rolled to today |
| QuotaProperties.RollsOncePerDay | bot.py:73-76 | a second call on the same day starts from the count the first left (no second reset) |
| QuotaProperties.TrialCoversTwoDays | bot.py:16-36 | a new user's calls are unlimited on the first day and the next, and the call two days later is charged (count 1) |
| QuotaProperties.ReplayBound | bot.py:73-82 | over any interleaving of the user's `clean` calls and referral credits reaching them, with a non-decreasing clock: count stays at most 4, the window's day never moves back, and charges on a day plus the count already held for it never exceed the count left for it (or 4 for a finished day) |
| QuotaProperties.AtMostLimitPerDay | bot.py:73-82 | from any record with count at most 4, with a non-decreasing clock, no day has more than 4 charged calls, however the calls are spread and whatever referral credits (which may grant or end premium) come in between |
| ReferralProperties.CreditRun | bot.py:53-57 | k credits add exactly k referrals; the expiry becomes tomorrow iff the total passed a multiple of 10, otherwise stays; count, date and trial flag unchanged |
| ReferralProperties.TenthReferralRewards | bot.py:55-57 | reaching a multiple of 10 makes the referrer premium today and tomorrow and not the day after |
| ReferralProperties.RewardReplacesExpiry | bot.py:55-57 | the reward overwrites the expiry, so a referrer premium for 30 more days loses that premium |
| ReferralProperties.NoCreditWithoutKnownOtherReferrer | bot.py:42-52 | with no argument, 0, the caller's own id or an unknown id, `start` only creates the caller |
| ReferralProperties.RepeatedStart | bot.py:39-57 | n repeated `/start <id>` by the same caller credit the referrer n times; only the caller is added and no one else changes |

## Left out

- Telegram plumbing: the handlers' `Update`/context objects, reply texts, the welcome message and its referral link, the application builder and polling loop. This is I/O.
- Following the link with an HTTP HEAD request that follows redirects with a 10-second timeout. It is a network call into a library. `Bot.UserStore.Clean` takes its outcome as the parameter `resolved` (the final address, or None when the request raised). The link text's whitespace stripping is not modelled.
- The MongoDB connection and environment configuration. The collection is an in-memory map. The `user_id` field is the map key. The constructor starts from an empty collection.
- Parsing the `/start` argument with `int()` and swallowing the exception. The parsed result is an `Option<int>` argument.
- `datetime.date.today()` and the ISO date strings. The current day is an integer parameter, one per handler call. The source reads the clock separately in `get_user`, `is_premium`, the quota block and the reward, so a handler that runs across midnight and sees two different days is not modelled.
- Races between concurrent handlers between `find_one` and `update_one`. Operations are sequential.
- The `trial_used` flag is written but never read. The model carries it and nothing depends on it.
- Bot.UserStore.GetUser and the other methods ensure the record invariant (count at most 4, trial flag set) only when it held before, because a collection written by other code need not satisfy it.
- QuotaProperties.AtMostLimitPerDay assumes the clock never goes back. If the day number decreases, the window rolls again and a day can see more charges.
