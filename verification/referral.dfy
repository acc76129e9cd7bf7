/**
 * What the referral block of `start` promises over many calls: each credit
 * adds exactly one referral, a reward is granted exactly when the total
 * reaches a multiple of ten, and, as nothing records who referred whom, the
 * same caller repeating `/start <id>` credits the referrer every time.
 */
module ReferralProperties {
  import opened Wrappers
  import opened Entitlement

  /** The referrer's record after `k` credits on the same day. */
  function CreditedTimes(r: Record, today: Day, k: nat): (after: Record)
    decreases k
  {
    if k == 0 then r else Credit(CreditedTimes(r, today, k - 1), today)
  }

  lemma DivStep(n: nat)
    ensures (n + 1) / ReferralsPerReward
      == n / ReferralsPerReward + (if (n + 1) % ReferralsPerReward == 0 then 1 else 0)
  {
  }

  /**
   * `k` credits add `k` referrals; the expiry becomes tomorrow exactly when
   * the total passed a multiple of ten on the way, and is otherwise untouched.
   */
  lemma {:induction false} CreditRun(r: Record, today: Day, k: nat)
    ensures var after := CreditedTimes(r, today, k);
      && after.referrals == r.referrals + k
      && after.premiumExpiry ==
           (if (r.referrals + k) / ReferralsPerReward > r.referrals / ReferralsPerReward
            then Some(today + PremiumDays) else r.premiumExpiry)
      && after.count == r.count && after.date == r.date && after.trialUsed == r.trialUsed
    decreases k
  {
    if k > 0 {
      CreditRun(r, today, k - 1);
      DivStep(r.referrals + k - 1);
    }
  }

  /** A referrer one short of a multiple of ten gets premium until tomorrow, whatever the old expiry. */
  lemma TenthReferralRewards(r: Record, today: Day)
    requires r.referrals % ReferralsPerReward == ReferralsPerReward - 1
    ensures Credit(r, today).premiumExpiry == Some(today + PremiumDays)
    ensures IsPremium(Credit(r, today), today) && IsPremium(Credit(r, today), today + 1)
    ensures !IsPremium(Credit(r, today), today + 2)
  {
  }

  /** The reward replaces the expiry: a later expiry is cut back to tomorrow. */
  lemma RewardReplacesExpiry(r: Record, today: Day)
    requires r.referrals % ReferralsPerReward == ReferralsPerReward - 1
    requires r.premiumExpiry == Some(today + 30)
    ensures IsPremium(r, today + 30)
    ensures !IsPremium(Credit(r, today), today + 30)
  {
  }

  /** No credit reaches anyone for a missing or zero argument, a self-referral or an unknown id. */
  lemma NoCreditWithoutKnownOtherReferrer(users: Table, caller: int, ref: Option<int>, today: Day)
    requires ref.None? || ref.value == 0 || ref.value == caller || ref.value !in users
    ensures Started(users, caller, ref, today) == WithUser(users, caller, today).0
  {
  }

  /** `n` times `/start` by one caller with the same argument. */
  function StartedTimes(users: Table, caller: int, ref: Option<int>, today: Day, n: nat): (after: Table)
    decreases n
  {
    if n == 0 then users else Started(StartedTimes(users, caller, ref, today, n - 1), caller, ref, today)
  }

  /**
   * Repeating `/start <ref>` credits the referrer once per repetition: after
   * `n` of them the referrer's record has had `n` credits, the caller has a
   * record, and no one else changed.
   */
  lemma {:induction false} RepeatedStart(users: Table, caller: int, ref: int, today: Day, n: nat)
    requires ref != 0 && ref != caller && ref in users
    ensures var after := StartedTimes(users, caller, Some(ref), today, n);
      && after.Keys == users.Keys + (if n == 0 then {} else {caller})
      && after[ref] == CreditedTimes(users[ref], today, n)
      && after[ref].referrals == users[ref].referrals + n
      && (forall k :: k in users && k != ref ==> after[k] == users[k])
    decreases n
  {
    CreditRun(users[ref], today, n);
    if n > 0 {
      RepeatedStart(users, caller, ref, today, n - 1);
    }
  }
}
