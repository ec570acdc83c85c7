/** `RemoteWeatherServiceProxy`: cache-aside in front of the remote weather
    API. A forecast is looked up under a `weather:{n}` key of an
    `IDistributedCache`; a null or blank value counts as a miss, which
    fetches the forecast text from the API and caches it as fetched. */
module WeatherProxy {
  import opened Wrappers
  import opened Text
  import opened Seqs
  import opened Calendar
  import opened CacheWrapper
  import opened DistributedCaches

  /** A request to the remote API: `api/weather/{date}` formatted with the
      date's default `ToString()` (by `GetWeather`), or with the day written
      `yyyy-MM-dd` (by `GetWeather6Days`). */
  datatype Request = WeatherAt(date: DateTime) | WeatherOn(day: string)

  /** The `HttpClient` of the remote API: `respond` is the body it returns
      for each request, `None` where `GetStringAsync` throws; `requests`
      logs what was asked. */
  class WeatherApi {
    const respond: Request -> Option<string>
    var requests: seq<Request>

    constructor (respond: Request -> Option<string>)
      ensures this.respond == respond && requests == []
    {
      this.respond := respond;
      requests := [];
    }

    method GetString(request: Request) returns (body: Option<string>)
      modifies this
      ensures body == respond(request)
      ensures requests == old(requests) + [request]
    {
      body := respond(request);
      requests := requests + [request];
    }
  }

  /** The key of `GetWeather`: `weather:{date.Date.Second}`. The seconds of
      a midnight are 0, so every date shares the one key `weather:0`. */
  function WeatherKey(date: DateTime): (key: string)
    ensures key == "weather:0"
  {
    "weather:" + NatToString(Date(date).second)
  }

  /** The key of one day in `GetWeather6Days`: `weather:{Year + Month + Day}`. */
  function DayKey(day: DateTime): string
    requires Valid(day)
  {
    "weather:" + NatToString(DaySum(day))
  }

  /** Two days share a key exactly when their day sums are equal. */
  lemma DayKeyShared(a: DateTime, b: DateTime)
    requires Valid(a) && Valid(b)
    ensures DayKey(a) == DayKey(b) <==> DaySum(a) == DaySum(b)
  {
    if DayKey(a) == DayKey(b) {
      assert NatToString(DaySum(a)) == DayKey(a)[8..] == DayKey(b)[8..] == NatToString(DaySum(b));
      NatToStringInjective(DaySum(a), DaySum(b));
    }
  }

  /** `n` in decimal, left-padded with zeros to `width` digits. */
  function Padded(n: nat, width: nat): (s: string)
    ensures |s| >= width
  {
    var digits := NatToString(n);
    if |digits| >= width then digits else Repeat('0', width - |digits|) + digits
  }

  /** `ToString("yyyy-MM-dd")`. */
  function FormatDay(day: DateTime): string
    requires Valid(day)
  {
    Padded(day.year, 4) + "-" + Padded(day.month, 2) + "-" + Padded(day.day, 2)
  }

  /** What one `GetWeather` call leaves: the cache, the forecast text it
      deserialises (`None` when the fetch threw), and the requests it made. */
  datatype Served = Served(entries: map<string, string>, forecast: Option<string>, requests: seq<Request>)

  /** `GetWeather(date)`: a cached value that is not blank is served as is;
      otherwise the forecast for `date` is fetched, cached under the key as
      fetched (blank or not) and served. */
  function ServeWeather(entries: map<string, string>, date: DateTime, respond: Request -> Option<string>)
    : Served
  {
    var key := WeatherKey(date);
    var cached := Get(entries, key);
    if !IsNullOrWhiteSpace(cached) then Served(entries, cached, [])
    else match respond(WeatherAt(date))
      case None => Served(entries, None, [WeatherAt(date)])
      case Some(body) => Served(entries[key := body], Some(body), [WeatherAt(date)])
  }

  /** Because the key ignores the date, once any date's forecast is cached,
      every other date is served that same forecast, without a request. */
  lemma ForecastServedForEveryDate(entries: map<string, string>, d1: DateTime, d2: DateTime,
                                   respond: Request -> Option<string>)
    requires IsNullOrWhiteSpace(Get(entries, WeatherKey(d1)))
    requires respond(WeatherAt(d1)).Some? && !IsNullOrWhiteSpace(respond(WeatherAt(d1)))
    ensures var first := ServeWeather(entries, d1, respond);
            && first.forecast == respond(WeatherAt(d1))
            && ServeWeather(first.entries, d2, respond) == Served(first.entries, first.forecast, [])
  {
  }

  /** A blank forecast is cached as fetched, yet reads as a miss: every
      later call fetches again. */
  lemma BlankForecastRefetched(entries: map<string, string>, d1: DateTime, d2: DateTime,
                               respond: Request -> Option<string>)
    requires IsNullOrWhiteSpace(Get(entries, WeatherKey(d1)))
    requires respond(WeatherAt(d1)).Some? && IsNullOrWhiteSpace(respond(WeatherAt(d1)))
    ensures var first := ServeWeather(entries, d1, respond);
            && Get(first.entries, WeatherKey(d1)) == respond(WeatherAt(d1))
            && ServeWeather(first.entries, d2, respond).requests == [WeatherAt(d2)]
  {
  }

  /** `Enumerable.Range(1, 5).Select(index => DateTime.Now.AddDays(index).Date)`
      with `now` for `DateTime.Now`; `None` when a day would pass
      9999-12-31, where `AddDays` throws. */
  function Upcoming(now: DateTime): Option<seq<DateTime>>
    requires Valid(now)
  {
    if forall k :: 1 <= k <= 5 ==> AddDays(now, k).Some? then
      Some(seq(5, i requires 0 <= i < 5 => Date(AddDays(now, i + 1).value)))
    else None
  }

  /** Moving to the next day and dropping the time commute. */
  lemma NextDayOfDate(d: DateTime)
    requires Valid(d) && NextDay(d).Some?
    ensures NextDay(Date(d)) == Some(Date(NextDay(d).value))
  {
  }

  /** A day that can be reached can be reached in fewer days too. */
  lemma {:induction false} AddDaysFewer(d: DateTime, m: nat, n: nat)
    requires Valid(d) && m <= n && AddDays(d, n).Some?
    ensures AddDays(d, m).Some?
    decreases n - m
  {
    if m < n {
      AddDaysFewer(d, m + 1, n);
    }
  }

  /** The dates of `now` plus `n` days and plus `n + 1` days are one day
      apart. */
  lemma DateAfterDate(now: DateTime, n: nat)
    requires Valid(now) && AddDays(now, n + 1).Some?
    ensures AddDays(now, n).Some?
    ensures NextDay(Date(AddDays(now, n).value)) == Some(Date(AddDays(now, n + 1).value))
  {
    var before := AddDays(now, n).value;
    assert AddDays(now, n + 1) == NextDay(before);
    NextDayOfDate(before);
  }

  /** The five days exist exactly when the fifth does. */
  lemma UpcomingExists(now: DateTime)
    requires Valid(now)
    ensures Upcoming(now).Some? <==> AddDays(now, 5).Some?
  {
    if AddDays(now, 5).Some? {
      forall k | 1 <= k <= 5
        ensures AddDays(now, k).Some?
      {
        AddDaysFewer(now, k, 5);
      }
    }
  }

  /** Each upcoming day is the day after the one before. */
  lemma UpcomingConsecutive(now: DateTime)
    requires Valid(now) && Upcoming(now).Some?
    ensures Consecutive(Upcoming(now).value)
  {
    var days := Upcoming(now).value;
    forall k | 0 <= k < 4
      ensures NextDay(days[k]) == Some(days[k + 1])
    {
      DateAfterDate(now, k + 1);
    }
  }

  /** The first upcoming day is the day after `now`'s date. */
  lemma UpcomingFirst(now: DateTime)
    requires Valid(now) && Upcoming(now).Some?
    ensures NextDay(Date(now)) == Some(Upcoming(now).value[0])
  {
    assert Upcoming(now).value[0] == Date(AddDays(now, 1).value);
    assert AddDays(now, 1) == NextDay(now);
    NextDayOfDate(now);
  }

  /** The upcoming days are the five days after `now`'s date, one after the
      other; they exist unless that passes 9999-12-31. */
  lemma UpcomingDays(now: DateTime)
    requires Valid(now)
    ensures Upcoming(now).Some? <==> AddDays(now, 5).Some?
    ensures Upcoming(now).Some? ==>
      var days := Upcoming(now).value;
      && |days| == 5
      && Consecutive(days)
      && NextDay(Date(now)) == Some(days[0])
  {
    UpcomingExists(now);
    if Upcoming(now).Some? {
      UpcomingConsecutive(now);
      UpcomingFirst(now);
    }
  }

  /** Within one call the five keys are pairwise distinct: consecutive days
      share a day sum only 27 or more days apart. */
  lemma UpcomingKeysDistinct(now: DateTime)
    requires Valid(now) && Upcoming(now).Some?
    ensures var days := Upcoming(now).value;
            forall i, j :: 0 <= i < j < |days| ==> DayKey(days[i]) != DayKey(days[j])
  {
    UpcomingDays(now);
    var days := Upcoming(now).value;
    forall i, j | 0 <= i < j < |days|
      ensures DayKey(days[i]) != DayKey(days[j])
    {
      ConsecutiveSumsDiffer(days, i, j);
      DayKeyShared(days[i], days[j]);
    }
  }

  /** The values the lookups of `GetWeather6Days` read, all of them before
      any write (`Task.WhenAll` completes before the loop). */
  function Lookups(entries: map<string, string>, days: seq<DateTime>): (looked: seq<Option<string>>)
    requires forall k :: 0 <= k < |days| ==> Valid(days[k])
    ensures |looked| == |days|
    ensures forall k :: 0 <= k < |days| ==> looked[k] == Get(entries, DayKey(days[k]))
  {
    seq(|days|, k requires 0 <= k < |days| => Get(entries, DayKey(days[k])))
  }

  /** What the loop of `GetWeather6Days` has done after the first entries:
      the cache, the forecast texts yielded, the requests made, and whether
      no fetch has thrown. */
  datatype Run = Run(entries: map<string, string>, forecasts: seq<string>, requests: seq<Request>, completed: bool)

  /** One pass of the loop of `GetWeather6Days`, for `day` and its
      looked-up value `look`: a value that is not blank is yielded; otherwise
      the day's forecast is fetched, cached under the day's key and yielded;
      a fetch that throws ends the loop. An ended loop does nothing more. */
  function Step(run: Run, day: DateTime, look: Option<string>, respond: Request -> Option<string>): (next: Run)
    requires Valid(day)
    ensures |next.forecasts| <= |run.forecasts| + 1
    ensures next.completed ==> run.completed && |next.forecasts| == |run.forecasts| + 1
  {
    if !run.completed then run
    else if !IsNullOrWhiteSpace(look) then run.(forecasts := run.forecasts + [look.value])
    else
      var request := WeatherOn(FormatDay(day));
      match respond(request)
      case None => run.(requests := run.requests + [request], completed := false)
      case Some(body) =>
        Run(run.entries[DayKey(day) := body], run.forecasts + [body], run.requests + [request], true)
  }

  /** The loop of `GetWeather6Days` over `days` and their looked-up values,
      one `Step` per day. */
  function ServeLooked(entries: map<string, string>, days: seq<DateTime>, looked: seq<Option<string>>,
                       respond: Request -> Option<string>): (run: Run)
    requires |looked| == |days|
    requires forall k :: 0 <= k < |days| ==> Valid(days[k])
    ensures |run.forecasts| <= |days|
    ensures run.completed ==> |run.forecasts| == |days|
    decreases |days|
  {
    if days == [] then Run(entries, [], [], true)
    else
      var n := |days| - 1;
      Step(ServeLooked(entries, days[..n], looked[..n], respond), days[n], looked[n], respond)
  }

  /** The forecast yielded for day `k`: its cached value when that is not
      blank, its fetched body otherwise. */
  function DayForecast(looked: seq<Option<string>>, days: seq<DateTime>, respond: Request -> Option<string>, k: nat)
    : Option<string>
    requires k < |looked| == |days| && Valid(days[k])
  {
    if !IsNullOrWhiteSpace(looked[k]) then looked[k] else respond(WeatherOn(FormatDay(days[k])))
  }

  /** One forecast per day, in the order of the days: a completed loop
      yields one for every day, and an interrupted one stops at the first
      day whose fetch threw. */
  lemma {:induction false} ServeLookedYields(entries: map<string, string>, days: seq<DateTime>,
                                             looked: seq<Option<string>>, respond: Request -> Option<string>)
    requires |looked| == |days|
    requires forall k :: 0 <= k < |days| ==> Valid(days[k])
    ensures var run := ServeLooked(entries, days, looked, respond);
            && |run.forecasts| <= |days|
            && (run.completed <==> |run.forecasts| == |days|)
            && (forall k :: 0 <= k < |run.forecasts| ==> DayForecast(looked, days, respond, k) == Some(run.forecasts[k]))
            && (!run.completed ==> DayForecast(looked, days, respond, |run.forecasts|).None?)
    decreases |days|
  {
    if days != [] {
      var n := |days| - 1;
      ServeLookedYields(entries, days[..n], looked[..n], respond);
      var before := ServeLooked(entries, days[..n], looked[..n], respond);
      forall k | 0 <= k < |before.forecasts|
        ensures DayForecast(looked, days, respond, k) == Some(before.forecasts[k])
      {
        DayForecastPrefix(looked, days, respond, n, k);
      }
      if !before.completed {
        DayForecastPrefix(looked, days, respond, n, |before.forecasts|);
      }
      StepYields(before, days, looked, respond);
    }
  }

  /** One more pass of the loop keeps one forecast per day served, and an
      interrupted loop names the day whose fetch threw. */
  lemma StepYields(before: Run, days: seq<DateTime>, looked: seq<Option<string>>, respond: Request -> Option<string>)
    requires 0 < |looked| == |days|
    requires forall k :: 0 <= k < |days| ==> Valid(days[k])
    requires |before.forecasts| <= |days| - 1
    requires before.completed <==> |before.forecasts| == |days| - 1
    requires forall k :: 0 <= k < |before.forecasts| ==> DayForecast(looked, days, respond, k) == Some(before.forecasts[k])
    requires !before.completed ==> DayForecast(looked, days, respond, |before.forecasts|).None?
    ensures var run := Step(before, days[|days| - 1], looked[|days| - 1], respond);
            && (run.completed <==> |run.forecasts| == |days|)
            && (forall k :: 0 <= k < |run.forecasts| ==> DayForecast(looked, days, respond, k) == Some(run.forecasts[k]))
            && (!run.completed ==> DayForecast(looked, days, respond, |run.forecasts|).None?)
  {
    var run := Step(before, days[|days| - 1], looked[|days| - 1], respond);
    if before.completed && run.completed {
      assert run.forecasts[..|before.forecasts|] == before.forecasts;
    }
  }

  /** The forecast of a day does not depend on the days after it. */
  lemma DayForecastPrefix(looked: seq<Option<string>>, days: seq<DateTime>, respond: Request -> Option<string>,
                          n: nat, k: nat)
    requires k < n <= |looked| == |days| && Valid(days[k])
    ensures DayForecast(looked, days, respond, k) == DayForecast(looked[..n], days[..n], respond, k)
  {
    assert looked[..n][k] == looked[k] && days[..n][k] == days[k];
  }

  /** The loop writes only under the keys of its days. */
  lemma {:induction false} ServeLookedKeeps(entries: map<string, string>, days: seq<DateTime>,
                                            looked: seq<Option<string>>, respond: Request -> Option<string>, key: string)
    requires |looked| == |days|
    requires forall k :: 0 <= k < |days| ==> Valid(days[k])
    requires forall k :: 0 <= k < |days| ==> key != DayKey(days[k])
    ensures Get(ServeLooked(entries, days, looked, respond).entries, key) == Get(entries, key)
    decreases |days|
  {
    if days != [] {
      var n := |days| - 1;
      ServeLookedKeeps(entries, days[..n], looked[..n], respond, key);
    }
  }

  /** Caching a fetched forecast under the last day's key leaves the earlier
      days' forecasts cached. */
  lemma FetchKeepsCached(before: Run, run: Run, days: seq<DateTime>, body: string)
    requires |days| == |before.forecasts| + 1
    requires forall k :: 0 <= k < |days| ==> Valid(days[k])
    requires forall k :: 0 <= k < |days| - 1 ==> DayKey(days[k]) != DayKey(days[|days| - 1])
    requires forall k :: 0 <= k < |before.forecasts| ==> Get(before.entries, DayKey(days[k])) == Some(before.forecasts[k])
    requires run.entries == before.entries[DayKey(days[|days| - 1]) := body]
    requires run.forecasts == before.forecasts + [body]
    ensures forall k :: 0 <= k < |run.forecasts| ==> Get(run.entries, DayKey(days[k])) == Some(run.forecasts[k])
  {
    forall k | 0 <= k < |run.forecasts|
      ensures Get(run.entries, DayKey(days[k])) == Some(run.forecasts[k])
    {
      if k < |before.forecasts| {
        assert run.forecasts[k] == before.forecasts[k];
      }
    }
  }

  /** With distinct day keys, the loop leaves every day it served holding
      the forecast yielded for it, when what it looked up is what the cache
      held before it started. */
  lemma {:induction false} ServeLookedCaches(entries: map<string, string>, days: seq<DateTime>,
                                             looked: seq<Option<string>>, respond: Request -> Option<string>)
    requires |looked| == |days|
    requires forall k :: 0 <= k < |days| ==> Valid(days[k])
    requires forall i, j :: 0 <= i < j < |days| ==> DayKey(days[i]) != DayKey(days[j])
    requires forall k :: 0 <= k < |days| ==> looked[k] == Get(entries, DayKey(days[k]))
    ensures var run := ServeLooked(entries, days, looked, respond);
            forall k :: 0 <= k < |run.forecasts| ==> Get(run.entries, DayKey(days[k])) == Some(run.forecasts[k])
    decreases |days|
  {
    if days != [] {
      var n := |days| - 1;
      ServeLookedCaches(entries, days[..n], looked[..n], respond);
      var before := ServeLooked(entries, days[..n], looked[..n], respond);
      var run := ServeLooked(entries, days, looked, respond);
      var key := DayKey(days[n]);
      if before.completed && !IsNullOrWhiteSpace(looked[n]) {
        ServeLookedKeeps(entries, days[..n], looked[..n], respond, key);
        assert run == before.(forecasts := before.forecasts + [looked[n].value]);
      } else if before.completed && respond(WeatherOn(FormatDay(days[n]))).Some? {
        var body := respond(WeatherOn(FormatDay(days[n]))).value;
        assert run.entries == before.entries[key := body] && run.forecasts == before.forecasts + [body];
        FetchKeepsCached(before, run, days, body);
      }
    }
  }

  /** An interrupted loop stays interrupted: later days change nothing. */
  lemma {:induction false} ServeLookedStops(entries: map<string, string>, days: seq<DateTime>,
                                            looked: seq<Option<string>>, respond: Request -> Option<string>, m: nat)
    requires |looked| == |days| && m <= |days|
    requires forall k :: 0 <= k < |days| ==> Valid(days[k])
    requires !ServeLooked(entries, days[..m], looked[..m], respond).completed
    ensures ServeLooked(entries, days, looked, respond) == ServeLooked(entries, days[..m], looked[..m], respond)
    decreases |days| - m
  {
    if m < |days| {
      var n := |days| - 1;
      assert days[..n][..m] == days[..m] && looked[..n][..m] == looked[..m];
      ServeLookedStops(entries, days[..n], looked[..n], respond, m);
    } else {
      assert days[..m] == days && looked[..m] == looked;
    }
  }

  /** The loop over the first `k + 1` days is the loop over the first `k`
      followed by one more step. */
  lemma ServeLookedNext(entries: map<string, string>, days: seq<DateTime>, looked: seq<Option<string>>,
                        respond: Request -> Option<string>, k: nat)
    requires |looked| == |days| && k < |days|
    requires forall k :: 0 <= k < |days| ==> Valid(days[k])
    ensures ServeLooked(entries, days[..k + 1], looked[..k + 1], respond)
            == Step(ServeLooked(entries, days[..k], looked[..k], respond), days[k], looked[k], respond)
  {
    assert days[..k + 1][..k] == days[..k] && looked[..k + 1][..k] == looked[..k];
    assert days[..k + 1][k] == days[k] && looked[..k + 1][k] == looked[k];
  }

  /** The proxy, over its cache and the remote API. */
  class RemoteWeatherServiceProxy {
    const cache: DistributedCache
    const api: WeatherApi

    constructor (cache: DistributedCache, api: WeatherApi)
      ensures this.cache == cache && this.api == api
    {
      this.cache := cache;
      this.api := api;
    }

    /** `GetWeather(date)`. */
    method GetWeather(date: DateTime) returns (forecast: Option<string>)
      modifies cache, api
      ensures var served := ServeWeather(old(cache.entries), date, api.respond);
              && forecast == served.forecast
              && cache.entries == served.entries
              && api.requests == old(api.requests) + served.requests
    {
      var key := WeatherKey(date);
      var cached := cache.GetString(key);
      if IsNullOrWhiteSpace(cached) {
        var body := api.GetString(WeatherAt(date));
        if body.None? {
          return None;
        }
        cache.SetString(key, body.value);
        return body;
      }
      return cached;
    }

    /** The lookups of `GetWeather6Days`: one `GetStringAsync` per day, all
        awaited together. */
    method LookUpAll(days: seq<DateTime>) returns (looked: seq<Option<string>>)
      requires forall k :: 0 <= k < |days| ==> Valid(days[k])
      ensures looked == Lookups(cache.entries, days)
    {
      looked := [];
      for k := 0 to |days|
        invariant looked == Lookups(cache.entries, days)[..k]
      {
        var value := cache.GetString(DayKey(days[k]));
        looked := looked + [value];
      }
    }

    /** One pass of the loop of `GetWeather6Days`: yields the looked-up
        value when it is not blank, and otherwise fetches the day's forecast
        and caches it; `None` when the fetch throws. `base` and `run` are the
        requests before the loop and what the loop has done so far. */
    method ServeDay(day: DateTime, look: Option<string>, ghost base: seq<Request>, ghost run: Run)
      returns (forecast: Option<string>)
      requires Valid(day) && run.completed
      requires cache.entries == run.entries && api.requests == base + run.requests
      modifies cache, api
      ensures var next := Step(run, day, look, api.respond);
              && cache.entries == next.entries && api.requests == base + next.requests
              && (forecast.Some? <==> next.completed)
              && (forecast.Some? ==> next.forecasts == run.forecasts + [forecast.value])
    {
      if !IsNullOrWhiteSpace(look) {
        return look;
      }
      var request := WeatherOn(FormatDay(day));
      forecast := api.GetString(request);
      assert api.requests == base + (run.requests + [request]);
      if forecast.Some? {
        cache.SetString(DayKey(day), forecast.value);
      }
    }

    /** The loop of `GetWeather6Days` over the looked-up entries. */
    method ServeAll(days: seq<DateTime>, looked: seq<Option<string>>) returns (forecasts: seq<string>, completed: bool)
      requires |looked| == |days|
      requires forall k :: 0 <= k < |days| ==> Valid(days[k])
      modifies cache, api
      ensures var run := ServeLooked(old(cache.entries), days, looked, api.respond);
              && forecasts == run.forecasts && completed == run.completed
              && cache.entries == run.entries
              && api.requests == old(api.requests) + run.requests
    {
      forecasts, completed := [], true;
      for k := 0 to |days|
        invariant var run := ServeLooked(old(cache.entries), days[..k], looked[..k], api.respond);
                  && run.completed
                  && forecasts == run.forecasts && cache.entries == run.entries
                  && api.requests == old(api.requests) + run.requests
      {
        ghost var before := ServeLooked(old(cache.entries), days[..k], looked[..k], api.respond);
        ServeLookedNext(old(cache.entries), days, looked, api.respond, k);
        var forecast := ServeDay(days[k], looked[k], old(api.requests), before);
        if forecast.None? {
          ServeLookedStops(old(cache.entries), days, looked, api.respond, k + 1);
          return forecasts, false;
        }
        forecasts := forecasts + [forecast.value];
      }
      assert days[..|days|] == days && looked[..|days|] == looked;
    }

    /** `GetWeather6Days()`, enumerated to the end, with `now` standing for
        `DateTime.Now`: the five days are computed first, then all five
        looked up, then served in order. */
    method GetWeather6Days(now: DateTime) returns (forecasts: seq<string>, completed: bool)
      requires Valid(now)
      modifies cache, api
      ensures Upcoming(now).None? ==>
        && forecasts == [] && !completed
        && cache.entries == old(cache.entries) && api.requests == old(api.requests)
      ensures Upcoming(now).Some? ==>
        var days := Upcoming(now).value;
        var run := ServeLooked(old(cache.entries), days, Lookups(old(cache.entries), days), api.respond);
        && forecasts == run.forecasts && completed == run.completed
        && cache.entries == run.entries
        && api.requests == old(api.requests) + run.requests
    {
      var upcoming := Upcoming(now);
      if upcoming.None? {
        return [], false;
      }
      var days := upcoming.value;
      UpcomingDays(now);
      var looked := LookUpAll(days);
      forecasts, completed := ServeAll(days, looked);
    }
  }

  /** The five forecasts of a completed call are cached, each under its own
      day's key, and each is the day's cached value or its fetched body. */
  lemma SixDaysCached(now: DateTime, entries: map<string, string>, respond: Request -> Option<string>)
    requires Valid(now) && Upcoming(now).Some?
    ensures var days := Upcoming(now).value;
            var looked := Lookups(entries, days);
            var run := ServeLooked(entries, days, looked, respond);
            run.completed ==>
              && |run.forecasts| == 5
              && forall k :: 0 <= k < 5 ==>
                   && DayForecast(looked, days, respond, k) == Some(run.forecasts[k])
                   && Get(run.entries, DayKey(days[k])) == Some(run.forecasts[k])
  {
    UpcomingDays(now);
    UpcomingKeysDistinct(now);
    var days := Upcoming(now).value;
    ServeLookedYields(entries, days, Lookups(entries, days), respond);
    ServeLookedCaches(entries, days, Lookups(entries, days), respond);
  }

  /** The last day of the call made at noon on 2019-12-31 is 2020-01-05. */
  lemma CallOnNewYearsEve(now: DateTime)
    requires now == DateTime(2019, 12, 31, 12, 0, 0)
    ensures Valid(now) && Upcoming(now).Some?
    ensures Upcoming(now).value[4] == DateTime(2020, 1, 5, 0, 0, 0)
  {
    assert AddDays(now, 1) == Some(DateTime(2020, 1, 1, 12, 0, 0));
    assert AddDays(now, 2) == Some(DateTime(2020, 1, 2, 12, 0, 0));
    assert AddDays(now, 3) == Some(DateTime(2020, 1, 3, 12, 0, 0));
    assert AddDays(now, 4) == Some(DateTime(2020, 1, 4, 12, 0, 0));
    assert AddDays(now, 5) == Some(DateTime(2020, 1, 5, 12, 0, 0));
    UpcomingDays(now);
  }

  /** The last day of the call made at noon on 2020-01-30 is 2020-02-04. */
  lemma CallOnJanuaryThirtieth(now: DateTime)
    requires now == DateTime(2020, 1, 30, 12, 0, 0)
    ensures Valid(now) && Upcoming(now).Some?
    ensures Upcoming(now).value[4] == DateTime(2020, 2, 4, 0, 0, 0)
  {
    assert AddDays(now, 1) == Some(DateTime(2020, 1, 31, 12, 0, 0));
    assert AddDays(now, 2) == Some(DateTime(2020, 2, 1, 12, 0, 0));
    assert AddDays(now, 3) == Some(DateTime(2020, 2, 2, 12, 0, 0));
    assert AddDays(now, 4) == Some(DateTime(2020, 2, 3, 12, 0, 0));
    assert AddDays(now, 5) == Some(DateTime(2020, 2, 4, 12, 0, 0));
    UpcomingDays(now);
  }

  /** A day of a later call whose key some day of an earlier completed call
      shares is served the forecast that earlier call cached, when that
      forecast is not blank. */
  lemma SharedKeyServesEarlierForecast(entries: map<string, string>, respond: Request -> Option<string>,
                                       early: DateTime, late: DateTime, i: nat, j: nat)
    requires Valid(early) && Valid(late) && Upcoming(early).Some? && Upcoming(late).Some? && i < 5 && j < 5
    requires DayKey(Upcoming(early).value[i]) == DayKey(Upcoming(late).value[j])
    ensures var first := ServeLooked(entries, Upcoming(early).value, Lookups(entries, Upcoming(early).value), respond);
            var days := Upcoming(late).value;
            var second := ServeLooked(first.entries, days, Lookups(first.entries, days), respond);
            first.completed && !IsNullOrWhiteSpace(Some(first.forecasts[i])) && second.completed ==>
              second.forecasts[j] == first.forecasts[i]
  {
    var first := ServeLooked(entries, Upcoming(early).value, Lookups(entries, Upcoming(early).value), respond);
    var days := Upcoming(late).value;
    UpcomingDays(late);
    var looked := Lookups(first.entries, days);
    var second := ServeLooked(first.entries, days, looked, respond);
    if first.completed && !IsNullOrWhiteSpace(Some(first.forecasts[i])) && second.completed {
      SixDaysCached(early, entries, respond);
      ServeLookedYields(first.entries, days, looked, respond);
      assert looked[j] == Some(first.forecasts[i]);
      assert DayForecast(looked, days, respond, j) == Some(first.forecasts[i]);
    }
  }

  /** Keys collide across calls: 2020-01-05, the last day of the call made
      on 2019-12-31, and 2020-02-04, the last day of the call made on
      2020-01-30, both key `weather:2026`; so, by
      `SharedKeyServesEarlierForecast`, the later call serves the earlier
      day's forecast for 2020-02-04. */
  lemma KeysCollideAcrossCalls(early: DateTime, late: DateTime)
    requires early == DateTime(2019, 12, 31, 12, 0, 0) && late == DateTime(2020, 1, 30, 12, 0, 0)
    ensures Valid(early) && Valid(late) && Upcoming(early).Some? && Upcoming(late).Some?
    ensures Upcoming(early).value[4] == DateTime(2020, 1, 5, 0, 0, 0)
    ensures Upcoming(late).value[4] == DateTime(2020, 2, 4, 0, 0, 0)
    ensures DayKey(Upcoming(early).value[4]) == DayKey(Upcoming(late).value[4]) == "weather:2026"
  {
    CallOnNewYearsEve(early);
    CallOnJanuaryThirtieth(late);
    KeyOf2026(Upcoming(early).value[4], Upcoming(late).value[4]);
  }

  /** `weather:{2020 + 1 + 5}` is `weather:2026`, and so is
      `weather:{2020 + 2 + 4}`. */
  lemma KeyOf2026(a: DateTime, b: DateTime)
    requires a == DateTime(2020, 1, 5, 0, 0, 0) && b == DateTime(2020, 2, 4, 0, 0, 0)
    ensures Valid(a) && Valid(b)
    ensures DayKey(a) == DayKey(b) == "weather:2026"
  {
    assert DaySum(a) == DaySum(b) == 2026;
    Digits2026(2026);
  }

  lemma Digits2026(n: nat)
    requires n == 2026
    ensures NatToString(n) == "2026"
  {
    assert NatToString(2) == "2";
    assert NatToString(20) == NatToString(2) + "0" == "20";
    assert NatToString(202) == NatToString(20) + "2" == "202";
    assert NatToString(2026) == NatToString(202) + "6" == "2026";
  }
}
