/**
 * What the quota gate of `clean` promises over many calls: four charged links
 * per day for a free user, then refusals; a premium user never charged; and,
 * over any run of calls and referral credits whose clock never goes back, at
 * most the free limit charged on any one day.
 */
module QuotaProperties {
  import opened Wrappers
  import opened Entitlement

  /** The verdicts of `n` consecutive `clean` calls by one user on one day, and the record after them. */
  function SameDay(r: Record, today: Day, n: nat): (res: (seq<Verdict>, Record))
    decreases n
  {
    if n == 0 then ([], r)
    else
      var step := QuotaGate(r, today);
      var rest := SameDay(step.1, today, n - 1);
      ([step.0] + rest.0, rest.1)
  }

  /** The count a call on `today` starts from: the stored one if the window is today's, else 0. */
  function WindowCount(r: Record, today: Day): (start: nat)
  {
    if r.date == today then r.count else 0
  }

  /**
   * A free user's day: call number i (from 0) is charged exactly when the
   * window's count plus i is under the limit, refused otherwise; the count
   * stops at the limit.
   */
  lemma {:induction false} FreeDay(r: Record, today: Day, n: nat)
    requires !IsPremium(r, today)
    ensures var (vs, last) := SameDay(r, today, n);
      && |vs| == n
      && (forall i :: 0 <= i < n ==>
            vs[i] == if WindowCount(r, today) + i < DailyLimit then Charged else Denied)
      && last.date == (if n == 0 then r.date else today)
      && last.count == (if n == 0 then r.count
                        else if WindowCount(r, today) >= DailyLimit then WindowCount(r, today)
                        else if WindowCount(r, today) + n <= DailyLimit then WindowCount(r, today) + n
                        else DailyLimit)
    decreases n
  {
    if n > 0 {
      var step := QuotaGate(r, today);
      FreeDay(step.1, today, n - 1);
      var rest := SameDay(step.1, today, n - 1);
      var vs := SameDay(r, today, n).0;
      forall i | 0 <= i < n
        ensures vs[i] == if WindowCount(r, today) + i < DailyLimit then Charged else Denied
      {
        if i > 0 {
          assert vs[i] == rest.0[i - 1];
        }
      }
    }
  }

  /** From a fresh window, a free user's first four calls are charged and the fifth refused. */
  lemma FreshWindowFiveCalls(r: Record, today: Day)
    requires !IsPremium(r, today)
    requires r.date != today || r.count == 0
    ensures SameDay(r, today, 5).0 == [Charged, Charged, Charged, Charged, Denied]
    ensures SameDay(r, today, 5).1.count == DailyLimit
  {
    FreeDay(r, today, 5);
  }

  /** A premium user's calls are never charged: the record only has its window rolled. */
  lemma {:induction false} PremiumDay(r: Record, today: Day, n: nat)
    requires IsPremium(r, today)
    ensures var (vs, last) := SameDay(r, today, n);
      && |vs| == n
      && (forall i :: 0 <= i < n ==> vs[i] == Unlimited)
      && last == (if n == 0 || r.date == today then r else r.(count := 0, date := today))
    decreases n
  {
    if n > 0 {
      var step := QuotaGate(r, today);
      PremiumDay(step.1, today, n - 1);
    }
  }

  /** A second call on the same day never resets the window: it starts from the count the first left. */
  lemma RollsOncePerDay(r: Record, today: Day)
    ensures var first := QuotaGate(r, today).1;
      var second := QuotaGate(first, today);
      second.1.count == (if second.0 == Charged then first.count + 1 else first.count)
  {
  }

  /** A user who first writes on day d is unlimited on d and d + 1, and charged again on d + 2. */
  lemma TrialCoversTwoDays(users: Table, uid: int, d: Day)
    requires uid !in users
    ensures var day0 := Cleaned(users, uid, d);
      var day1 := Cleaned(day0.1, uid, d + 1);
      var day2 := Cleaned(day1.1, uid, d + 2);
      && day0.0 == Unlimited && day1.0 == Unlimited && day2.0 == Charged
      && day2.1[uid].count == 1
  {
  }

  /**
   * What can happen to an existing user's record between two of their own
   * calls: a `clean` call by the user, or a referral credit from another
   * user's `/start <id>` naming them. (A `/start` by the user themselves
   * leaves their stored record as it is.)
   */
  datatype Event =
    | CleanCall(day: Day)  // the user's `clean` on `day`
    | Credited(day: Day)   // a referral credit for the user on `day`

  /**
   * Replays the events on the user's record: the quota gate's verdict for
   * each `clean` call (None for a credit), and the record after them all.
   */
  function Replay(r: Record, events: seq<Event>): (res: (seq<Option<Verdict>>, Record))
    ensures |res.0| == |events|
    decreases |events|
  {
    if events == [] then ([], r)
    else
      match events[0]
      case CleanCall(d) =>
        var step := QuotaGate(r, d);
        var rest := Replay(step.1, events[1..]);
        ([Some(step.0)] + rest.0, rest.1)
      case Credited(d) =>
        var rest := Replay(Credit(r, d), events[1..]);
        ([None] + rest.0, rest.1)
  }

  /** How many of the `clean` calls on day `t` were charged. */
  function ChargedOn(events: seq<Event>, vs: seq<Option<Verdict>>, t: Day): (charged: nat)
    requires |vs| == |events|
    decreases |events|
  {
    if events == [] then 0
    else (if events[0] == CleanCall(t) && vs[0] == Some(Charged) then 1 else 0)
         + ChargedOn(events[1..], vs[1..], t)
  }

  /** The clock never goes back from one event to a later one. */
  ghost predicate Nondecreasing(events: seq<Event>)
  {
    forall i, j :: 0 <= i < j < |events| ==> events[i].day <= events[j].day
  }

  lemma {:induction false} NoneChargedBefore(events: seq<Event>, vs: seq<Option<Verdict>>, t: Day)
    requires |vs| == |events|
    requires forall i :: 0 <= i < |events| ==> t < events[i].day
    ensures ChargedOn(events, vs, t) == 0
    decreases |events|
  {
    if events != [] {
      NoneChargedBefore(events[1..], vs[1..], t);
    }
  }

  /**
   * The invariant behind the daily limit: the charges made on day t, plus the
   * count the record already held for t, never exceed the count the record
   * ends with for t (or the limit, for a day that is over). Referral credits
   * in between may make the user premium or free again; they never touch the
   * count or its day.
   */
  lemma {:induction false} ReplayBound(r: Record, events: seq<Event>, t: Day)
    requires r.count <= DailyLimit
    requires Nondecreasing(events)
    requires events != [] ==> r.date <= events[0].day
    ensures var (vs, last) := Replay(r, events);
      && last.count <= DailyLimit
      && r.date <= last.date
      && ChargedOn(events, vs, t) + (if r.date == t then r.count else 0)
           <= (if t == last.date then last.count else DailyLimit)
    decreases |events|
  {
    if events != [] {
      var vs := Replay(r, events).0;
      match events[0]
      case CleanCall(d) =>
        var step := QuotaGate(r, d);
        var rest := Replay(step.1, events[1..]);
        ReplayBound(step.1, events[1..], t);
        assert vs[1..] == rest.0;
        if t != d && r.date == t {
          NoneChargedBefore(events[1..], rest.0, t);
        }
      case Credited(d) =>
        var rest := Replay(Credit(r, d), events[1..]);
        ReplayBound(Credit(r, d), events[1..], t);
        assert vs[1..] == rest.0;
    }
  }

  /**
   * The daily limit itself: from any record within the limit, however the
   * user's `clean` calls are spread over days and whatever referral credits
   * reach the user in between, as long as the clock never goes back no day
   * has more than DailyLimit charged calls.
   */
  lemma {:induction false} AtMostLimitPerDay(r: Record, events: seq<Event>, t: Day)
    requires r.count <= DailyLimit
    requires Nondecreasing(events)
    ensures ChargedOn(events, Replay(r, events).0, t) <= DailyLimit
    decreases |events|
  {
    if events != [] {
      var vs := Replay(r, events).0;
      match events[0]
      case CleanCall(d) =>
        var step := QuotaGate(r, d);
        var rest := Replay(step.1, events[1..]);
        ReplayBound(step.1, events[1..], t);
        assert vs[1..] == rest.0;
      case Credited(d) =>
        var rest := Replay(Credit(r, d), events[1..]);
        AtMostLimitPerDay(Credit(r, d), events[1..], t);
        assert vs[1..] == rest.0;
    }
  }
}
