/**
 * The bot's `users` collection and the handlers that change it, step by step
 * as the bot does: `get_user`, the referral block of `start` and the quota
 * block of `clean`. Each method's contract states the new table outright and
 * ties it to the pure rule of module Entitlement that the lemmas reason about.
 */
module Bot {
  import opened Wrappers
  import opened Entitlement
  import QuotaProperties

  /** What `clean` answers the user. */
  datatype Reply =
    | LimitReached          // daily free limit reached
    | CleanLink(url: string) // the address the link resolved to
    | CouldNotClean         // resolving the link failed

  /** The `users` collection. */
  class UserStore {
    var users: Table

    /** Every record was written by the handlers below: within the free limit, trial marked. */
    ghost predicate Valid()
      reads this
    {
      forall id :: id in users ==> users[id].count <= DailyLimit && users[id].trialUsed
    }

    /**
     * In a valid store every user's record is within the free limit, so
     * whatever `clean` calls that user makes later and whatever referral
     * credits reach them in between, on a clock that never goes back, no day
     * sees more than DailyLimit charged calls.
     */
    lemma StoredUsersKeepDailyLimit(id: int, events: seq<QuotaProperties.Event>, t: Day)
      requires Valid() && id in users
      requires QuotaProperties.Nondecreasing(events)
      ensures users[id].count <= DailyLimit
      ensures QuotaProperties.ChargedOn(events, QuotaProperties.Replay(users[id], events).0, t) <= DailyLimit
    {
      QuotaProperties.AtMostLimitPerDay(users[id], events, t);
    }

    constructor ()
      ensures users == map[] && Valid()
    {
      users := map[];
    }

    /** `get_user`: return the stored record, or insert and return a fresh one-day trial. */
    method GetUser(id: int, today: Day) returns (user: Record)
      modifies this
      ensures id in old(users) ==> user == old(users)[id] && users == old(users)
      ensures id !in old(users) ==>
        && user.count == 0 && user.date == today && user.premiumExpiry == Some(today + PremiumDays)
        && user.trialUsed && user.referrals == 0
        && users == old(users)[id := user]
      ensures (users, user) == WithUser(old(users), id, today)
      ensures old(Valid()) ==> Valid()
    {
      if id in users {
        user := users[id];
      } else {
        user := NewRecord(today);
        users := users[id := user];
      }
    }

    /**
     * The quota block of `clean`, run on the record `get_user` just returned:
     * roll a window that belongs to another day, then refuse a free user at
     * the limit or charge one under it; a premium user passes uncharged.
     */
    method CleanQuota(uid: int, today: Day) returns (verdict: Verdict)
      requires uid in users
      modifies this
      ensures users.Keys == old(users).Keys
      ensures users == old(users)[uid := users[uid]]
      ensures var was, now := old(users)[uid], users[uid];
        && now.date == today
        && now.premiumExpiry == was.premiumExpiry && now.referrals == was.referrals
        && now.trialUsed == was.trialUsed
        && (verdict == Unlimited <==> IsPremium(was, today))
        && (verdict == Denied ==> users == old(users))
        && (verdict == Charged ==> now.count == (if was.date == today then was.count else 0) + 1)
        && (verdict == Unlimited ==> now.count == (if was.date == today then was.count else 0))
      ensures (verdict, users[uid]) == QuotaGate(old(users)[uid], today)
      ensures old(Valid()) ==> Valid()
    {
      // `user` is the local copy of the record `get_user` returned to `clean`:
      // the window check and the premium test read it, the updates go to the table
      var user := users[uid];
      if user.date != today {
        users := users[uid := users[uid].(count := 0, date := today)];
        user := user.(count := 0);
      }
      if !IsPremium(user, today) {
        if user.count >= DailyLimit {
          return Denied;
        }
        users := users[uid := users[uid].(count := users[uid].count + 1)];
        return Charged;
      }
      return Unlimited;
    }

    /**
     * The `clean` handler. `resolved` is what following the link's redirects
     * gave: the final address, or None when the request failed. The quota is
     * settled before the link is followed, so the table afterwards does not
     * depend on `resolved`.
     */
    method Clean(uid: int, today: Day, resolved: Option<string>) returns (reply: Reply)
      modifies this
      ensures users == Cleaned(old(users), uid, today).1
      ensures reply == LimitReached <==> Cleaned(old(users), uid, today).0 == Denied
      ensures reply != LimitReached ==>
        reply == (if resolved.Some? then CleanLink(resolved.value) else CouldNotClean)
      ensures old(Valid()) ==> Valid()
    {
      var user := GetUser(uid, today);
      // GetUser ensures users[uid] == user: CleanQuota reads this same record back
      var verdict := CleanQuota(uid, today);
      if verdict == Denied {
        return LimitReached;
      }
      match resolved {
        case Some(url) => reply := CleanLink(url);
        case None => reply := CouldNotClean;
      }
    }

    /**
     * The referral block of `start`: credit the user `ref` names, if that is a
     * known user other than the caller, and reward every tenth referral with
     * premium until tomorrow, replacing whatever expiry was there.
     */
    method CreditReferral(caller: int, ref: Option<int>, today: Day)
      modifies this
      ensures users.Keys == old(users).Keys
      ensures !CreditsReferrer(old(users), caller, ref) ==> users == old(users)
      ensures CreditsReferrer(old(users), caller, ref) ==>
        var id := ref.value;
        var was, now := old(users)[id], users[id];
        && now.referrals == was.referrals + 1
        && now.premiumExpiry ==
             (if now.referrals % ReferralsPerReward == 0 then Some(today + PremiumDays) else was.premiumExpiry)
        && now.count == was.count && now.date == was.date && now.trialUsed == was.trialUsed
        && forall k :: k in users && k != id ==> users[k] == old(users)[k]
      ensures users == Referred(old(users), caller, ref, today)
      ensures old(Valid()) ==> Valid()
    {
      if ref.Some? && ref.value != 0 && ref.value != caller {
        var refId := ref.value;
        if refId in users {
          users := users[refId := users[refId].(referrals := users[refId].referrals + 1)];
          var refUser := users[refId];
          if refUser.referrals % ReferralsPerReward == 0 {
            users := users[refId := users[refId].(premiumExpiry := Some(today + PremiumDays))];
          }
        }
      }
    }

    /**
     * The table effect of the `start` handler: `get_user` for the caller, then
     * the referral block with the parsed argument (None when there is none or
     * it is not an integer). Nothing records who referred whom, so every
     * `/start` with the same argument credits again.
     */
    method Start(caller: int, ref: Option<int>, today: Day)
      modifies this
      ensures users == Started(old(users), caller, ref, today)
      ensures caller !in old(users) ==> users[caller] == NewRecord(today)
      ensures old(Valid()) ==> Valid()
    {
      var user := GetUser(caller, today);
      CreditReferral(caller, ref, today);
    }
  }
}
