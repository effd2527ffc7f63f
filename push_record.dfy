// A push subscription record: its quota, the recent message ids it has
// seen, its application server key and its unregister retries.

module PushRecordModel {
  import opened Wrappers

  /** kMaxUnregisterTries */
  const MaxUnregisterTries := 3

  /** A script number as `+suggestedQuota` produces it. */
  datatype JsNumber = NaN | Num(value: real) | PositiveInfinity | NegativeInfinity

  /** A record's quota: a number of messages, or Infinity. */
  datatype Quota = Finite(n: real) | Infinite

  /** What toSubscription reports. */
  datatype Subscription = Subscription(
    endpoint: string, lastPush: int, pushCount: int, appServerKey: Option<seq<int>>,
    quota: Quota, systemRecord: bool)

  /** The quota setQuota gives a record subject to quota: the suggested
      value when it is a number >= 0, else the preference's maximum. */
  function QuotaFor(suggested: JsNumber, maxQuota: int): (q: Quota)
    ensures suggested.NaN? || suggested.NegativeInfinity? ==> q == Finite(maxQuota as real)
    ensures suggested.Num? ==> q == if suggested.value >= 0.0 then Finite(suggested.value) else Finite(maxQuota as real)
    ensures suggested.PositiveInfinity? ==> q == Infinite
  {
    match suggested
    case Num(v) => if v >= 0.0 then Finite(v) else Finite(maxQuota as real)
    case PositiveInfinity => Infinite
    case _ => Finite(maxQuota as real)
  }

  /** `Math.max(quota - 1, 0)` */
  function DecrementQuota(q: Quota): (r: Quota)
    ensures q.Finite? && q.n >= 1.0 ==> r == Finite(q.n - 1.0)
    ensures q.Finite? && q.n < 1.0 ==> r == Finite(0.0)
    ensures q.Infinite? ==> r == Infinite
  {
    match q
    case Finite(n) => if n - 1.0 > 0.0 then Finite(n - 1.0) else Finite(0.0)
    case Infinite => Infinite
  }

  /** A decrement never leaves a finite quota below zero, lowers a positive
      one and keeps one at zero at zero. */
  lemma DecrementQuotaBounds(q: Quota)
    requires q.Finite?
    ensures DecrementQuota(q).Finite? && DecrementQuota(q).n >= 0.0
    ensures q.n > 0.0 ==> DecrementQuota(q).n < q.n
    ensures q.n <= 0.0 ==> DecrementQuota(q) == Finite(0.0)
  {
  }

  /** `k` successive reduceQuota calls on a record subject to quota. */
  function DecrementTimes(q: Quota, k: nat): Quota
    decreases k
  {
    if k == 0 then q else DecrementTimes(DecrementQuota(q), k - 1)
  }

  /** A record with a whole quota of `n` messages expires after `n`
      reductions, and stays expired after more. */
  lemma {:induction false} QuotaRunsOutAfterItsSize(n: nat, k: nat)
    requires k >= n
    ensures DecrementTimes(Finite(n as real), k) == Finite(0.0)
  {
    if k > 0 {
      if n >= 1 {
        assert DecrementQuota(Finite(n as real)) == Finite((n - 1) as real);
        QuotaRunsOutAfterItsSize(n - 1, k - 1);
      } else {
        assert DecrementQuota(Finite(0.0)) == Finite(0.0);
        QuotaRunsOutAfterItsSize(0, k - 1);
      }
    }
  }

  /** The recent-id list after noting `id` with the preference `maxPref`:
      the id goes first, and the list is cut to min(length, max(pref, 0)). */
  function NotedIds(ids: Option<seq<string>>, id: string, maxPref: int): (r: seq<string>)
    ensures var full := [id] + (if ids.Some? then ids.value else []);
      |r| == (if maxPref < 0 then 0 else if maxPref < |full| then maxPref else |full|)
      && r == full[..|r|]
  {
    var full := [id] + (if ids.Some? then ids.value else []);
    var keep := if |full| < (if maxPref < 0 then 0 else maxPref) then |full| else (if maxPref < 0 then 0 else maxPref);
    full[..keep]
  }

  /** Noting an id with a positive preference makes it the first and
      newest entry; the kept entries after it are the older ones, newest
      first, and the list never grows beyond the preference. */
  lemma NotedIdsKeepNewestFirst(ids: Option<seq<string>>, id: string, maxPref: int)
    requires maxPref > 0
    ensures var r := NotedIds(ids, id, maxPref);
      |r| >= 1 && r[0] == id && id in r && |r| <= maxPref
      && r[1..] == (if ids.Some? then ids.value else [])[..|r| - 1]
  {
    var r := NotedIds(ids, id, maxPref);
    var old_ := if ids.Some? then ids.value else [];
    assert ([id] + old_)[1..] == old_;
    assert r[1..] == ([id] + old_)[1..|r|];
  }

  /** `props.x || 0` on an integer property: 0 when it is missing. */
  function OrZero(x: Option<int>): (r: int)
    ensures x.Some? ==> r == x.value
    ensures x.None? ==> r == 0
  {
    if x.Some? then x.value else 0
  }

  class PushRecord {
    var pushEndpoint: string
    const scope: string
    const systemRecord: bool
    /** isInstalledAppNotPWA(): a B2G app whose scope host ends in ".localhost". */
    const installedAppNotPwa: bool
    var appServerKey: Option<seq<int>>
    var recentMessageIDs: Option<seq<string>>
    var quota: Quota
    var pushCount: int
    var lastPush: int
    var lastVisit: int
    var ctime: int
    var unregisterTries: int
    var authenticationSecret: Option<seq<int>>

    /** System records are never subject to quota. */
    ghost predicate Valid()
      reads this
    {
      systemRecord ==> quota == Infinite
    }

    /** PushRecord(props): the counters and times are None when `props`
        lacks them, and then become 0; ctime is None when it is not a
        number. The quota comes from setQuota. */
    constructor (pushEndpoint: string, scope: string, systemRecord: bool, installedAppNotPwa: bool,
                 appServerKey: Option<seq<int>>, recentMessageIDs: Option<seq<string>>,
                 suggestedQuota: JsNumber, maxQuota: int,
                 authenticationSecret: Option<seq<int>>,
                 pushCount: Option<int>, lastPush: Option<int>, lastVisit: Option<int>,
                 ctime: Option<int>, unregisterTries: Option<int>)
      ensures Valid()
      ensures this.pushEndpoint == pushEndpoint && this.scope == scope
      ensures this.systemRecord == systemRecord && this.installedAppNotPwa == installedAppNotPwa
      ensures this.appServerKey == appServerKey && this.authenticationSecret == authenticationSecret
      ensures this.recentMessageIDs == recentMessageIDs
      ensures quota == if systemRecord then Infinite else QuotaFor(suggestedQuota, maxQuota)
      ensures this.pushCount == OrZero(pushCount) && this.lastPush == OrZero(lastPush)
      ensures this.lastVisit == OrZero(lastVisit) && this.ctime == OrZero(ctime)
      ensures this.unregisterTries == OrZero(unregisterTries)
    {
      this.pushEndpoint := pushEndpoint;
      this.scope := scope;
      this.systemRecord := systemRecord;
      this.installedAppNotPwa := installedAppNotPwa;
      this.appServerKey := appServerKey;
      this.recentMessageIDs := recentMessageIDs;
      this.pushCount := OrZero(pushCount);
      this.lastPush := OrZero(lastPush);
      this.lastVisit := OrZero(lastVisit);
      this.ctime := OrZero(ctime);
      this.unregisterTries := OrZero(unregisterTries);
      this.authenticationSecret := authenticationSecret;
      quota := Infinite;
      new;
      SetQuota(suggestedQuota, maxQuota);
    }

    /** quotaApplies: a record exempt from quota has an infinite one. */
    function QuotaApplies(): (r: bool)
      reads this
      ensures Valid() && !r ==> quota == Infinite
    {
      !systemRecord
    }

    /** setQuota: the converted suggestion for a record subject to quota,
        Infinity otherwise. */
    method SetQuota(suggestedQuota: JsNumber, maxQuota: int)
      modifies this`quota
      ensures Valid()
      ensures quota == if QuotaApplies() then QuotaFor(suggestedQuota, maxQuota) else Infinite
    {
      if QuotaApplies() {
        quota := QuotaFor(suggestedQuota, maxQuota);
      } else {
        quota := Infinite;
      }
    }

    /** resetQuota */
    method ResetQuota(maxQuota: int)
      modifies this`quota
      ensures Valid()
      ensures quota == if QuotaApplies() then Finite(maxQuota as real) else Infinite
    {
      quota := if QuotaApplies() then Finite(maxQuota as real) else Infinite;
    }

    /** isExpired: the quota is exactly 0, which only a record subject to
        quota can have. */
    function IsExpired(): (r: bool)
      reads this
      ensures r ==> quota.Finite? && quota.n == 0.0
      ensures Valid() && r ==> QuotaApplies()
    {
      quota == Finite(0.0)
    }

    /** A system record never expires. */
    lemma SystemRecordsNeverExpire()
      requires Valid() && systemRecord
      ensures !IsExpired()
    {
    }

    /** reduceQuota: one message less, never below zero; records not subject
        to quota and installed apps keep theirs. */
    method ReduceQuota()
      requires Valid()
      modifies this`quota
      ensures Valid()
      ensures !QuotaApplies() || installedAppNotPwa ==> quota == old(quota)
      ensures QuotaApplies() && !installedAppNotPwa ==> quota == DecrementQuota(old(quota))
    {
      if !QuotaApplies() || installedAppNotPwa {
        return;
      }
      quota := DecrementQuota(quota);
    }

    /** updateQuota, with the decay `Math.min(Math.round(8 * daysElapsed^-0.8),
        maxQuota)` given as `decayedQuota`: an expired or exempt record is
        left alone; a cleared history expires it; a visit since the last
        push resets it to the decayed value. */
    method UpdateQuota(lastVisit: int, decayedQuota: real)
      requires Valid()
      modifies this`quota
      ensures Valid()
      ensures old(IsExpired()) || !QuotaApplies() || installedAppNotPwa ==> quota == old(quota)
      ensures !old(IsExpired()) && QuotaApplies() && !installedAppNotPwa ==>
        quota == (if lastVisit < 0 then Finite(0.0) else if lastVisit > lastPush then Finite(decayedQuota) else old(quota))
    {
      if IsExpired() || !QuotaApplies() || installedAppNotPwa {
        return;
      }
      if lastVisit < 0 {
        quota := Finite(0.0);
        return;
      }
      if lastVisit > lastPush {
        quota := Finite(decayedQuota);
      }
    }

    /** receivedPush: updates the quota, counts the push and stamps it with `now`. */
    method ReceivedPush(lastVisit: int, decayedQuota: real, now: int)
      requires Valid()
      modifies this`quota, this`pushCount, this`lastPush
      ensures Valid()
      ensures pushCount == old(pushCount) + 1 && this.lastPush == now
      ensures old(IsExpired()) || !QuotaApplies() || installedAppNotPwa ==> quota == old(quota)
      ensures !old(IsExpired()) && QuotaApplies() && !installedAppNotPwa ==>
        quota == (if lastVisit < 0 then Finite(0.0) else if lastVisit > old(this.lastPush) then Finite(decayedQuota) else old(quota))
    {
      UpdateQuota(lastVisit, decayedQuota);
      pushCount := pushCount + 1;
      this.lastPush := now;
    }

    /** noteRecentMessageID, with the preference
        maxRecentMessageIDsPerSubscription as `maxPref`. */
    method NoteRecentMessageID(id: string, maxPref: int)
      modifies this`recentMessageIDs
      ensures recentMessageIDs == Some(NotedIds(old(recentMessageIDs), id, maxPref))
    {
      var ids := [id] + if recentMessageIDs.Some? then recentMessageIDs.value else [];
      var limit := if maxPref < 0 then 0 else maxPref;
      var keep := if |ids| < limit then |ids| else limit;
      recentMessageIDs := Some(ids[..keep]);
    }

    /** hasRecentMessageID: only a record with recent ids has one, and the
        newest one is always found. */
    function HasRecentMessageID(id: string): (r: bool)
      reads this
      ensures r ==> recentMessageIDs.Some? && |recentMessageIDs.value| > 0
      ensures recentMessageIDs.Some? && |recentMessageIDs.value| > 0 && recentMessageIDs.value[0] == id ==> r
    {
      recentMessageIDs.Some? && id in recentMessageIDs.value
    }

    /** matchesAppServerKey: without a stored key only a missing key
        matches; otherwise the lengths and every element must agree. */
    function MatchesAppServerKey(key: Option<seq<int>>): (r: bool)
      reads this
      ensures r <==> appServerKey == key
    {
      if appServerKey.None? then key.None?
      else if key.None? then false
      else
        var stored, given := appServerKey.value, key.value;
        if |stored| == |given| && forall i | 0 <= i < |given| :: stored[i] == given[i] then
          assert stored == given;
          true
        else false
    }

    /** toSubscription: a system record reports quota -1. */
    function ToSubscription(): (s: Subscription)
      reads this
      ensures s.quota == if systemRecord then Finite(-1.0) else quota
      ensures s.endpoint == pushEndpoint && s.pushCount == pushCount && s.lastPush == lastPush
      ensures s.appServerKey == appServerKey && s.systemRecord == systemRecord
    {
      Subscription(pushEndpoint, lastPush, pushCount, appServerKey,
                   if QuotaApplies() then quota else Finite(-1.0), systemRecord)
    }

    /** hasAuthenticationSecret: a secret of exactly 16 bytes. */
    function HasAuthenticationSecret(): (r: bool)
      reads this
      ensures r <==> authenticationSecret.Some? && |authenticationSecret.value| == 16
    {
      match authenticationSecret
      case None => false
      case Some(secret) => |secret| == 16
    }

    /** matchesOriginAttributes, with ChromeUtils' pattern match given as
        `patternMatches`: a system record matches no pattern. */
    function MatchesOriginAttributes(patternMatches: bool): (r: bool)
      reads this
      ensures r <==> !systemRecord && patternMatches
    {
      if systemRecord then false else patternMatches
    }

    /** reachMaxUnregisterTries */
    function ReachMaxUnregisterTries(): (r: bool)
      reads this
      ensures r <==> unregisterTries >= MaxUnregisterTries
    {
      if unregisterTries >= MaxUnregisterTries then true else false
    }

    /** getLastVisit on B2G, with `tabOpen` for isTabOpen(): records exempt
        from quota, installed apps and open sites report `now`; any other
        reports its last visit, or its creation time when it has none. */
    function GetLastVisit(now: int, tabOpen: bool): (r: int)
      reads this
      ensures !QuotaApplies() || installedAppNotPwa || tabOpen ==> r == now
      ensures QuotaApplies() && !installedAppNotPwa && !tabOpen ==> r == if lastVisit == 0 then ctime else lastVisit
    {
      if !QuotaApplies() || installedAppNotPwa || tabOpen then now
      else if lastVisit == 0 then ctime
      else lastVisit
    }
  }

  /** Once an id is noted with a positive preference, the record has it. */
  lemma NotedIdIsRecent(r: PushRecord, id: string, maxPref: int, before: Option<seq<string>>)
    requires maxPref > 0
    requires r.recentMessageIDs == Some(NotedIds(before, id, maxPref))
    ensures r.HasRecentMessageID(id)
  {
    NotedIdsKeepNewestFirst(before, id, maxPref);
  }
}
