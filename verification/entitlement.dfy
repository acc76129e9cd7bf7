/**
 * The entitlement rules of the Ads-Skip bot, as pure functions over one user's
 * record and over the `users` collection (a map from Telegram user id to record).
 *
 * Calendar days are day numbers; the current day is always a parameter. The
 * stored ISO date strings compare equal exactly when the days are equal, and
 * ISO dates order like the days they name.
 */
module Entitlement {
  import opened Wrappers

  /** A calendar day, as a day number. */
  type Day = int

  /** A free user may clean this many links per calendar day. */
  const DailyLimit: nat := 4

  /** Every time a referrer's total reaches a multiple of this, they earn premium. */
  const ReferralsPerReward: nat := 10

  /**
   * How many days after today the sign-up trial and a referral reward expire.
   * Premium includes the expiry day, so 1 gives today and tomorrow.
   */
  const PremiumDays: nat := 1

  /** One document of the `users` collection (its `user_id` is the table key). */
  datatype Record = Record(
    count: nat,                 // links cleaned in the window `date`
    date: Day,                  // the day the quota window `count` belongs to
    premiumExpiry: Option<Day>, // last day of premium, if the field is set
    trialUsed: bool,
    referrals: nat)             // referral credits received so far

  type Table = map<int, Record>

  /** The record `get_user` inserts for an id it has not seen: a one-day trial. */
  function NewRecord(today: Day): (rec: Record)
    ensures rec.count == 0 && rec.date == today && rec.trialUsed && rec.referrals == 0
    ensures rec.premiumExpiry == Some(today + PremiumDays)
    ensures IsPremium(rec, today) && IsPremium(rec, today + 1) && !IsPremium(rec, today + 2)
  {
    Record(0, today, Some(today + PremiumDays), true, 0)
  }

  /** `is_premium`: premium through the expiry day itself, and never without an expiry. */
  predicate IsPremium(r: Record, today: Day): (premium: bool)
    ensures premium ==> r.premiumExpiry.Some?
    ensures r.premiumExpiry.Some? ==> (premium <==> today <= r.premiumExpiry.value)
  {
    r.premiumExpiry.Some? && r.premiumExpiry.value >= today
  }

  /**
   * Premium lasts through the expiry day and ends after it for good; a fresh
   * record is premium on its creation day and the day after, and not later.
   */
  lemma PremiumThroughExpiry(r: Record, today: Day, later: Day, d: Day)
    requires today <= later
    ensures IsPremium(r, later) ==> IsPremium(r, today)
    ensures r.premiumExpiry.Some? ==> IsPremium(r, r.premiumExpiry.value) && !IsPremium(r, r.premiumExpiry.value + 1)
    ensures r.premiumExpiry.None? ==> !IsPremium(r, today)
    ensures IsPremium(NewRecord(d), today) <==> today <= d + 1
  {
  }

  /** `get_user`: the table afterwards and the record returned. */
  function WithUser(users: Table, id: int, today: Day): (res: (Table, Record))
    ensures id in res.0 && res.0[id] == res.1
    ensures id in users ==> res.0 == users && res.1 == users[id]
    ensures id !in users ==> res.0.Keys == users.Keys + {id} && res.1 == NewRecord(today)
    ensures forall k :: k in users ==> k in res.0 && res.0[k] == users[k]
  {
    if id in users then (users, users[id])
    else (users[id := NewRecord(today)], NewRecord(today))
  }

  /** What the quota gate of `clean` decides. */
  datatype Verdict =
    | Denied     // a free user at the daily limit: refused
    | Charged    // a free user under the limit: one unit used
    | Unlimited  // a premium user: never charged

  /**
   * The quota gate of `clean` on the caller's record: roll the window to today
   * if it belongs to another day, then refuse, charge or let through.
   */
  function QuotaGate(r: Record, today: Day): (res: (Verdict, Record))
    ensures res.1.date == today
    ensures res.1.premiumExpiry == r.premiumExpiry
    ensures res.1.trialUsed == r.trialUsed && res.1.referrals == r.referrals
    ensures res.0 == Unlimited <==> IsPremium(r, today)
    ensures res.0 == Denied <==> !IsPremium(r, today) && r.date == today && r.count >= DailyLimit
    ensures res.0 == Denied ==> res.1 == r
    ensures res.0 == Charged ==> res.1.count == (if r.date == today then r.count else 0) + 1
    ensures res.0 == Charged ==> res.1.count <= DailyLimit
    ensures res.0 == Unlimited ==> res.1.count == (if r.date == today then r.count else 0)
  {
    var rolled := if r.date != today then r.(count := 0, date := today) else r;
    if IsPremium(rolled, today) then (Unlimited, rolled)
    else if rolled.count >= DailyLimit then (Denied, rolled)
    else (Charged, rolled.(count := rolled.count + 1))
  }

  /** The table effect of `clean`: `get_user` for the caller, then the quota gate. */
  function Cleaned(users: Table, uid: int, today: Day): (res: (Verdict, Table))
    ensures res.1.Keys == users.Keys + {uid}
    ensures forall k :: k in users && k != uid ==> res.1[k] == users[k]
    ensures uid !in users ==> res.0 == Unlimited && res.1 == users[uid := NewRecord(today)]
    ensures res.0 == Denied ==> res.1 == users
    ensures uid in users ==> (res.0, res.1[uid]) == QuotaGate(users[uid], today)
  {
    var withUser := WithUser(users, uid, today);
    var gate := QuotaGate(withUser.1, today);
    (gate.0, withUser.0[uid := gate.1])
  }

  /**
   * Whether `/start` from `caller` with parsed argument `ref` credits a
   * referrer: the argument must be a non-zero id other than the caller's own,
   * naming a user already in the table.
   */
  predicate CreditsReferrer(users: Table, caller: int, ref: Option<int>): (credits: bool)
    ensures credits ==> ref.Some? && ref.value in users && ref.value != caller && ref.value != 0
    ensures ref.Some? && ref.value in users && ref.value != caller && ref.value != 0 ==> credits
  {
    ref.Some? && ref.value != 0 && ref.value != caller && ref.value in users
  }

  /** One referral credit on the referrer's record. */
  function Credit(r: Record, today: Day): (now: Record)
    ensures now.referrals == r.referrals + 1
    ensures now.premiumExpiry ==
      (if now.referrals % ReferralsPerReward == 0 then Some(today + PremiumDays) else r.premiumExpiry)
    ensures now.count == r.count && now.date == r.date && now.trialUsed == r.trialUsed
  {
    var bumped := r.(referrals := r.referrals + 1);
    if bumped.referrals % ReferralsPerReward == 0
    then bumped.(premiumExpiry := Some(today + PremiumDays))
    else bumped
  }

  /** The referral block of `start`: the table after crediting. */
  function Referred(users: Table, caller: int, ref: Option<int>, today: Day): (users': Table)
    ensures users'.Keys == users.Keys
    ensures !CreditsReferrer(users, caller, ref) ==> users' == users
    ensures forall k :: k in users && (ref.None? || k != ref.value) ==> users'[k] == users[k]
    ensures CreditsReferrer(users, caller, ref) ==>
      var was, now := users[ref.value], users'[ref.value];
      && now.referrals == was.referrals + 1
      && now.premiumExpiry ==
           (if now.referrals % ReferralsPerReward == 0 then Some(today + PremiumDays) else was.premiumExpiry)
      && now.count == was.count && now.date == was.date && now.trialUsed == was.trialUsed
  {
    if CreditsReferrer(users, caller, ref)
    then users[ref.value := Credit(users[ref.value], today)]
    else users
  }

  /** The table effect of `start`: `get_user` for the caller, then the referral block. */
  function Started(users: Table, caller: int, ref: Option<int>, today: Day): (users': Table)
    ensures users'.Keys == users.Keys + {caller}
    ensures caller in users ==> users'[caller] == users[caller]
    ensures caller !in users ==> users'[caller] == NewRecord(today)
  {
    Referred(WithUser(users, caller, today).0, caller, ref, today)
  }
}
