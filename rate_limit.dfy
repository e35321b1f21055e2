/** The fixed-window rate limiter of the analyze handler: a per-client count of admitted
    requests that restarts once an hour has passed since the client's window opened. */
module RateLimit {

  /** Requests admitted per client within one window. */
  const MaxRequestsPerHour: nat := 10

  /** Length of a window, in seconds. */
  const Window: int := 3600

  /** A client's record: how many requests were admitted since `windowStart`. */
  datatype RateRecord = RateRecord(count: nat, windowStart: int)

  /** The record's window is over at `now`. */
  predicate Elapsed(r: RateRecord, now: int) {
    now - r.windowStart > Window
  }

  /** The record admission works from: the stored one while its window lasts, otherwise a
      fresh record opening a window at `now`. */
  function Effective(limits: map<string, RateRecord>, ip: string, now: int): RateRecord {
    if ip in limits && !Elapsed(limits[ip], now) then limits[ip] else RateRecord(0, now)
  }

  /** The records of `limits` whose window has not elapsed at `now`. */
  function Prune(limits: map<string, RateRecord>, now: int): map<string, RateRecord> {
    map k | k in limits && !Elapsed(limits[k], now) :: limits[k]
  }

  /** Every stored record holds between one and the ceiling of admitted requests. */
  predicate CountsBounded(limits: map<string, RateRecord>) {
    forall k :: k in limits ==> 0 < limits[k].count <= MaxRequestsPerHour
  }

  /** The answer of one admission check and the store it leaves behind. */
  datatype Admission = Admission(allowed: bool, limits: map<string, RateRecord>)

  /** One admission check for client `ip` at time `now`. A client at the ceiling is denied and
      the store is left as it was; otherwise the client's count goes up by one, its window
      start is kept, and every record whose window has elapsed is dropped. */
  function CheckRateLimit(limits: map<string, RateRecord>, ip: string, now: int): (r: Admission)
    ensures r.allowed <==> Effective(limits, ip, now).count < MaxRequestsPerHour
    ensures !r.allowed ==> r.limits == limits
    ensures r.allowed ==> ip in r.limits
                          && r.limits[ip].count == Effective(limits, ip, now).count + 1
                          && r.limits[ip].windowStart == Effective(limits, ip, now).windowStart
                          && r.limits[ip].count <= MaxRequestsPerHour
    ensures r.allowed ==> forall k :: k in r.limits <==> k == ip || (k in limits && !Elapsed(limits[k], now))
    ensures r.allowed ==> forall k :: k in r.limits && k != ip ==> r.limits[k] == limits[k]
    ensures r.allowed ==> forall k :: k in r.limits ==> !Elapsed(r.limits[k], now)
    ensures CountsBounded(limits) ==> CountsBounded(r.limits)
  {
    var record := Effective(limits, ip, now);
    if record.count >= MaxRequestsPerHour then
      Admission(false, limits)
    else
      Admission(true, Prune(limits[ip := record.(count := record.count + 1)], now))
  }

  /** A client with no record, or whose window has elapsed, is admitted and starts a new
      window at `now` with a count of one, whatever it was denied before. */
  lemma AdmittedAfterWindow(limits: map<string, RateRecord>, ip: string, now: int)
    requires ip !in limits || Elapsed(limits[ip], now)
    ensures CheckRateLimit(limits, ip, now).allowed
    ensures CheckRateLimit(limits, ip, now).limits[ip] == RateRecord(1, now)
  {
  }

  /** The answers to successive admission checks for one client at the given times. */
  function AdmitSeries(limits: map<string, RateRecord>, ip: string, times: seq<int>): (answers: seq<bool>)
    ensures |answers| == |times|
    decreases |times|
  {
    if times == [] then []
    else
      var a := CheckRateLimit(limits, ip, times[0]);
      [a.allowed] + AdmitSeries(a.limits, ip, times[1..])
  }

  /** The store left behind by successive admission checks for one client. */
  function AdmitAfter(limits: map<string, RateRecord>, ip: string, times: seq<int>): map<string, RateRecord>
    decreases |times|
  {
    if times == [] then limits
    else AdmitAfter(CheckRateLimit(limits, ip, times[0]).limits, ip, times[1..])
  }

  /** Running two series of checks one after the other gives the answers of the first
      followed by those of the second, started from the store the first left behind. */
  lemma {:induction false} AdmitSeriesAppend(limits: map<string, RateRecord>, ip: string, first: seq<int>, second: seq<int>)
    ensures AdmitSeries(limits, ip, first + second)
            == AdmitSeries(limits, ip, first) + AdmitSeries(AdmitAfter(limits, ip, first), ip, second)
    decreases |first|
  {
    if first == [] {
      assert first + second == second;
    } else {
      var a := CheckRateLimit(limits, ip, first[0]);
      assert (first + second)[0] == first[0];
      assert (first + second)[1..] == first[1..] + second;
      AdmitSeriesAppend(a.limits, ip, first[1..], second);
    }
  }

  /** While a client's window lasts, the checks that follow a record holding `count` admit
      exactly as many requests as are left below the ceiling and deny the rest. */
  lemma {:induction false} SeriesWithinWindow(limits: map<string, RateRecord>, ip: string, times: seq<int>, count: nat, start: int)
    requires ip in limits && limits[ip] == RateRecord(count, start)
    requires forall i :: 0 <= i < |times| ==> times[i] - start <= Window
    ensures forall i :: 0 <= i < |times| ==> AdmitSeries(limits, ip, times)[i] == (count + i < MaxRequestsPerHour)
    ensures ip in AdmitAfter(limits, ip, times) && AdmitAfter(limits, ip, times)[ip].windowStart == start
    decreases |times|
  {
    if times != [] {
      var a := CheckRateLimit(limits, ip, times[0]);
      var next := if a.allowed then count + 1 else count;
      assert a.limits[ip] == RateRecord(next, start);
      SeriesWithinWindow(a.limits, ip, times[1..], next, start);
      var answers := AdmitSeries(limits, ip, times);
      forall i | 0 <= i < |times|
        ensures answers[i] == (count + i < MaxRequestsPerHour)
      {
        if i > 0 {
          assert answers[i] == AdmitSeries(a.limits, ip, times[1..])[i - 1];
        }
      }
    }
  }

  /** A client starting afresh at `times[0]` is admitted exactly ten times within one window:
      the first ten checks succeed and every later one is denied. */
  lemma FreshClientGetsCeiling(limits: map<string, RateRecord>, ip: string, times: seq<int>)
    requires times != []
    requires ip !in limits || Elapsed(limits[ip], times[0])
    requires forall i :: 0 <= i < |times| ==> times[i] - times[0] <= Window
    ensures forall i :: 0 <= i < |times| ==> AdmitSeries(limits, ip, times)[i] == (i < MaxRequestsPerHour)
    ensures ip in AdmitAfter(limits, ip, times) && AdmitAfter(limits, ip, times)[ip].windowStart == times[0]
  {
    var a := CheckRateLimit(limits, ip, times[0]);
    AdmittedAfterWindow(limits, ip, times[0]);
    SeriesWithinWindow(a.limits, ip, times[1..], 1, times[0]);
    var answers := AdmitSeries(limits, ip, times);
    forall i | 0 < i < |times|
      ensures answers[i] == (i < MaxRequestsPerHour)
    {
      assert answers[i] == AdmitSeries(a.limits, ip, times[1..])[i - 1];
    }
  }

  /** `n` copies of `x`. */
  function Repeated<T>(x: T, n: nat): (s: seq<T>)
    ensures |s| == n && forall i :: 0 <= i < n ==> s[i] == x
  {
    seq(n, _ => x)
  }

  /** The window is fixed, not sliding: a client that fills its window at `t` and returns just
      after the window closes is admitted the ceiling again, twenty requests in 3601 seconds. */
  lemma BoundaryBurst(limits: map<string, RateRecord>, ip: string, t: int)
    requires ip !in limits || Elapsed(limits[ip], t)
    ensures AdmitSeries(limits, ip, Repeated(t, MaxRequestsPerHour) + Repeated(t + Window + 1, MaxRequestsPerHour))
            == Repeated(true, 2 * MaxRequestsPerHour)
  {
    var first := Repeated(t, MaxRequestsPerHour);
    var second := Repeated(t + Window + 1, MaxRequestsPerHour);
    FreshClientGetsCeiling(limits, ip, first);
    var after := AdmitAfter(limits, ip, first);
    FreshClientGetsCeiling(after, ip, second);
    AdmitSeriesAppend(limits, ip, first, second);
    var answers := AdmitSeries(limits, ip, first + second);
    var firstAnswers := AdmitSeries(limits, ip, first);
    var secondAnswers := AdmitSeries(after, ip, second);
    assert answers == firstAnswers + secondAnswers;
    forall i | 0 <= i < 2 * MaxRequestsPerHour
      ensures answers[i]
    {
      if i < MaxRequestsPerHour {
        assert answers[i] == firstAnswers[i];
      } else {
        assert answers[i] == secondAnswers[i - MaxRequestsPerHour];
      }
    }
  }

  /** The in-memory rate-limit store. A missing or unreadable store file reads as empty, so a
      new limiter starts with no records. */
  class RateLimiter {
    var limits: map<string, RateRecord>

    ghost predicate Valid()
      reads this
    {
      CountsBounded(limits)
    }

    constructor ()
      ensures Valid() && limits == map[]
    {
      limits := map[];
    }

    /** Decides whether client `ip` may make a request at `now`, recording it when it may. */
    method Admit(ip: string, now: int) returns (allowed: bool)
      modifies this
      ensures allowed == CheckRateLimit(old(limits), ip, now).allowed
      ensures limits == CheckRateLimit(old(limits), ip, now).limits
      ensures old(Valid()) ==> Valid()
    {
      var record := if ip in limits then limits[ip] else RateRecord(0, now);
      if now - record.windowStart > Window {
        record := RateRecord(0, now);
      }
      if record.count >= MaxRequestsPerHour {
        return false;
      }
      record := record.(count := record.count + 1);
      limits := limits[ip := record];
      limits := Prune(limits, now);
      return true;
    }
  }
}
