/**
 * The uptime checker (monitoring/uptime-check.py): for each site it records
 * whether the HTTP check succeeded, raises alerts on a change of state, on a
 * certificate that is invalid or about to expire and on a slow answer, and
 * stores each site's latest result. The HTTP answer, the certificate check
 * and the clock are parameters.
 */
module UptimeCheck {
  import opened Wrappers
  import opened PyStr

  const Sites := ["https://yuzu.chat", "https://yuzuhub.com", "https://voltplan.app"]
  const SslWarnDays := 14
  const DefaultDaysLeft := 999
  const SlowMs := 5000

  // ---------------------------------------------------------------------------
  // check_site
  // ---------------------------------------------------------------------------

  /** The host of a URL: drop "https://" and "http://" wherever they occur, then keep the text before the first '/'. */
  function Hostname(url: string): (host: string)
    ensures '/' !in host
  {
    BeforeFirst(RemoveAll(RemoveAll(url, "https://"), "http://"), '/')
  }

  /** Removing a pattern that the rest does not contain from `p + rest` leaves `rest`. */
  lemma RemoveLeading(p: string, rest: string)
    requires |p| > 0 && !Contains(rest, p)
    ensures RemoveAll(p + rest, p) == rest
  {
    var s := p + rest;
    assert s[..|p|] == p && s[|p|..] == rest;
    RemoveAbsent(rest, p);
  }

  /** "https://" does not occur in "http://" followed by text without ':'. */
  lemma NoHttpsAfterHttp(rest: string)
    requires ':' !in rest
    ensures !Contains("http://" + rest, "https://")
  {
    var s := "http://" + rest;
    forall i | 0 <= i ensures !OccursAt(s, "https://", i) {
      if i + 8 <= |s| {
        assert s[i + 5] == if i + 5 < 7 then "http://"[i + 5] else rest[i + 5 - 7];
        assert s[i..i + 8][5] == s[i + 5];
      }
    }
  }

  /**
   * For a URL made of a scheme, a host and a path (empty or starting with '/')
   * where no ':' follows the scheme, the hostname is the host.
   */
  lemma HostnameOfPlainUrl(https: bool, host: string, path: string)
    requires '/' !in host && ':' !in host && ':' !in path
    requires path == [] || path[0] == '/'
    ensures Hostname((if https then "https://" else "http://") + host + path) == host
  {
    var rest := host + path;
    var scheme := if https then "https://" else "http://";
    assert scheme + host + path == scheme + rest;
    SchemeRemoved(https, rest);
    if path == [] {
      assert rest == host;
      BeforeFirstAbsent(host, '/');
    } else {
      assert rest == host + ['/'] + path[1..];
      BeforeFirstOf(host, '/', path[1..]);
    }
  }

  /** Both removals together take away a leading scheme from text without ':'. */
  lemma SchemeRemoved(https: bool, rest: string)
    requires ':' !in rest
    ensures RemoveAll(RemoveAll((if https then "https://" else "http://") + rest, "https://"), "http://") == rest
  {
    AbsentByChar(rest, "https://", ':');
    AbsentByChar(rest, "http://", ':');
    if https {
      RemoveLeading("https://", rest);
      RemoveAbsent(rest, "http://");
    } else {
      NoHttpsAfterHttp(rest);
      RemoveAbsent("http://" + rest, "https://");
      RemoveLeading("http://", rest);
    }
  }

  /** How the HTTP request ended. */
  datatype HttpOutcome =
    | Response(status: int, ms: int)
    | HttpFailure(code: int, message: string)
    | UrlFailure(reason: string)
    | OtherFailure(message: string)

  /** What the certificate check reports. */
  datatype SslInfo = SslInfo(valid: bool, daysLeft: Option<int>, error: Option<string>)

  datatype SiteResult = SiteResult(url: string, timestamp: string, ok: bool, status: Option<int>,
                                   responseMs: Option<int>, error: Option<string>, ssl: Option<SslInfo>)

  /** `check_site`: the result starts not ok; only an answer with a status from 200 to 399 makes it ok. */
  function CheckSite(url: string, timestamp: string, outcome: HttpOutcome, sslProbe: string -> SslInfo): (r: SiteResult)
    ensures r.url == url && r.timestamp == timestamp
    ensures r.ok <==> outcome.Response? && 200 <= outcome.status < 400
    ensures r.responseMs.Some? <==> outcome.Response?
    ensures r.status.Some? <==> outcome.Response? || outcome.HttpFailure?
    ensures r.error.Some? <==> !outcome.Response?
    ensures r.ssl.Some? <==> StartsWith(url, "https://")
    ensures r.ssl.Some? ==> r.ssl.value == sslProbe(Hostname(url))
  {
    var ssl := if StartsWith(url, "https://") then Some(sslProbe(Hostname(url))) else None;
    match outcome
    case Response(status, ms) => SiteResult(url, timestamp, 200 <= status < 400, Some(status), Some(ms), None, ssl)
    case HttpFailure(code, message) => SiteResult(url, timestamp, false, Some(code), None, Some(message), ssl)
    case UrlFailure(reason) => SiteResult(url, timestamp, false, None, None, Some(reason), ssl)
    case OtherFailure(message) => SiteResult(url, timestamp, false, None, None, Some(message), ssl)
  }

  // ---------------------------------------------------------------------------
  // Alerts and state
  // ---------------------------------------------------------------------------

  /** What the DOWN alert shows: the error, or else the status (or "?"). */
  datatype DownDetail = ErrorText(text: string) | StatusText(status: Option<int>)

  datatype Alert =
    | Down(url: string, detail: DownDetail)
    | Up(url: string, ms: int)
    | SslExpiring(url: string, daysLeft: int)
    | SslBroken(url: string, error: string)
    | Slow(url: string, ms: int)

  /** A stored entry; a state file written by hand may lack either field. */
  datatype Entry = Entry(ok: Option<bool>, lastCheck: Option<string>)

  type State = map<string, Entry>

  /** `prev.get("ok", True)`: a site with no history counts as up. */
  predicate WasOk(prev: Option<Entry>) {
    prev.None? || prev.value.ok.None? || prev.value.ok.value
  }

  function Lookup(state: State, url: string): Option<Entry> {
    if url in state then Some(state[url]) else None
  }

  predicate SslExpiringSoon(r: SiteResult) {
    r.ssl.Some? && r.ssl.value.valid && r.ssl.value.daysLeft.GetOr(DefaultDaysLeft) < SslWarnDays
  }

  predicate SslBrokenNow(r: SiteResult) {
    r.ssl.Some? && !r.ssl.value.valid
  }

  predicate IsSlow(r: SiteResult) {
    r.responseMs.GetOr(0) > SlowMs
  }

  function DownAlert(r: SiteResult, wasOk: bool): (a: seq<Alert>)
    ensures forall x :: x in a ==> x.Down? && x.url == r.url
    ensures a != [] <==> !r.ok && wasOk
    ensures |a| <= 1
  {
    if !r.ok && wasOk then [Down(r.url, if r.error.Some? then ErrorText(r.error.value) else StatusText(r.status))] else []
  }

  function UpAlert(r: SiteResult, wasOk: bool): (a: seq<Alert>)
    ensures forall x :: x in a ==> x.Up? && x.url == r.url
    ensures a != [] <==> r.ok && !wasOk
    ensures |a| <= 1
  {
    if r.ok && !wasOk then [Up(r.url, r.responseMs.GetOr(0))] else []
  }

  function ExpiringAlert(r: SiteResult): (a: seq<Alert>)
    ensures forall x :: x in a ==> x.SslExpiring? && x.url == r.url
    ensures a != [] <==> SslExpiringSoon(r)
    ensures |a| <= 1
  {
    if SslExpiringSoon(r) then [SslExpiring(r.url, r.ssl.value.daysLeft.GetOr(DefaultDaysLeft))] else []
  }

  function BrokenAlert(r: SiteResult): (a: seq<Alert>)
    ensures forall x :: x in a ==> x.SslBroken? && x.url == r.url
    ensures a != [] <==> SslBrokenNow(r)
    ensures |a| <= 1
  {
    if SslBrokenNow(r) then [SslBroken(r.url, r.ssl.value.error.GetOr("unbekannt"))] else []
  }

  function SlowAlert(r: SiteResult): (a: seq<Alert>)
    ensures forall x :: x in a ==> x.Slow? && x.url == r.url
    ensures a != [] <==> IsSlow(r)
    ensures |a| <= 1
  {
    if IsSlow(r) then [Slow(r.url, r.responseMs.GetOr(0))] else []
  }

  /** The alerts for one site, in the order the checks run: each names the site, and there are at most three. */
  function SiteAlerts(r: SiteResult, prev: Option<Entry>): (a: seq<Alert>)
    ensures forall x :: x in a ==> x.url == r.url
    ensures |a| <= 3
  {
    var wasOk := WasOk(prev);
    DownAlert(r, wasOk) + UpAlert(r, wasOk) + ExpiringAlert(r) + BrokenAlert(r) + SlowAlert(r)
  }

  /** An alert of one kind is in the list exactly when its own part is non-empty. */
  lemma {:induction false} AlertsMembership(r: SiteResult, prev: Option<Entry>, x: Alert)
    ensures var wasOk := WasOk(prev);
      x in SiteAlerts(r, prev) <==>
        x in DownAlert(r, wasOk) || x in UpAlert(r, wasOk) || x in ExpiringAlert(r) || x in BrokenAlert(r) || x in SlowAlert(r)
  {
  }

  /**
   * Each alert fires exactly under its rule: DOWN when the site is not ok and
   * was ok (or unknown), UP when it is ok and was not, SSL expiry for a valid
   * certificate with under 14 days left (999 when unknown), SSL error for an
   * invalid one, slow above 5000 ms (0 when unknown). DOWN and UP exclude each
   * other, as do the two SSL alerts, so a site raises at most three.
   */
  lemma AlertRules(r: SiteResult, prev: Option<Entry>)
    ensures var a := SiteAlerts(r, prev);
      && ((exists x :: x in a && x.Down?) <==> !r.ok && WasOk(prev))
      && ((exists x :: x in a && x.Up?) <==> r.ok && !WasOk(prev))
      && ((exists x :: x in a && x.SslExpiring?) <==> SslExpiringSoon(r))
      && ((exists x :: x in a && x.SslBroken?) <==> SslBrokenNow(r))
      && ((exists x :: x in a && x.Slow?) <==> IsSlow(r))
  {
    var wasOk := WasOk(prev);
    var a := SiteAlerts(r, prev);
    forall x ensures x in a <==>
      x in DownAlert(r, wasOk) || x in UpAlert(r, wasOk) || x in ExpiringAlert(r) || x in BrokenAlert(r) || x in SlowAlert(r)
    {
      AlertsMembership(r, prev, x);
    }
    if !r.ok && wasOk { assert DownAlert(r, wasOk)[0] in a; }
    if r.ok && !wasOk { assert UpAlert(r, wasOk)[0] in a; }
    if SslExpiringSoon(r) { assert ExpiringAlert(r)[0] in a; }
    if SslBrokenNow(r) { assert BrokenAlert(r)[0] in a; }
    if IsSlow(r) { assert SlowAlert(r)[0] in a; }
  }

  /** A site that stays up, answers in time and has a sound certificate raises nothing. */
  lemma QuietWhenHealthy(r: SiteResult, prev: Option<Entry>)
    requires r.ok && WasOk(prev) && !IsSlow(r)
    requires r.ssl.Some? ==> r.ssl.value.valid && r.ssl.value.daysLeft.GetOr(DefaultDaysLeft) >= SslWarnDays
    ensures SiteAlerts(r, prev) == []
  {
  }

  /** The state after storing each result in turn: the url maps to its `ok` and timestamp. */
  function Recorded(state: State, results: seq<SiteResult>): State
    decreases |results|
  {
    if results == [] then state
    else
      var r := results[|results| - 1];
      Recorded(state, results[..|results| - 1])[r.url := Entry(Some(r.ok), Some(r.timestamp))]
  }

  /** The sites known after storing the results are those known before and those checked. */
  lemma {:induction false} RecordedKeys(state: State, results: seq<SiteResult>)
    ensures Recorded(state, results).Keys == state.Keys + set x | x in results :: x.url
    decreases |results|
  {
    if results != [] {
      var init := results[..|results| - 1];
      var r := results[|results| - 1];
      RecordedKeys(state, init);
      assert results == init + [r];
      assert (set x | x in results :: x.url) == (set x | x in init :: x.url) + {r.url};
    }
  }

  /** The alerts of all results, each site compared with the state as it stood when it was checked. */
  function AlertsOf(state: State, results: seq<SiteResult>): seq<Alert>
    decreases |results|
  {
    if results == [] then []
    else
      var init := results[..|results| - 1];
      var r := results[|results| - 1];
      AlertsOf(state, init) + SiteAlerts(r, Lookup(Recorded(state, init), r.url))
  }

  datatype Probe = Probe(timestamp: string, outcome: HttpOutcome)

  /** `main`'s loop over the sites: check, collect alerts, update the state. */
  method RunChecks(sites: seq<string>, probes: seq<Probe>, sslProbe: string -> SslInfo, state0: State)
    returns (results: seq<SiteResult>, alerts: seq<Alert>, state: State)
    requires |probes| == |sites|
    ensures |results| == |sites|
    ensures forall i :: 0 <= i < |sites| ==>
      results[i] == CheckSite(sites[i], probes[i].timestamp, probes[i].outcome, sslProbe)
    ensures alerts == AlertsOf(state0, results)
    ensures state == Recorded(state0, results)
  {
    results, alerts, state := [], [], state0;
    for i := 0 to |sites|
      invariant |results| == i
      invariant forall k :: 0 <= k < i ==>
        results[k] == CheckSite(sites[k], probes[k].timestamp, probes[k].outcome, sslProbe)
      invariant alerts == AlertsOf(state0, results)
      invariant state == Recorded(state0, results)
    {
      var url := sites[i];
      var r := CheckSite(url, probes[i].timestamp, probes[i].outcome, sslProbe);
      var prev := Lookup(state, url);
      ChecksSnoc(state0, results, r);
      results := results + [r];
      alerts := alerts + SiteAlerts(r, prev);
      state := state[url := Entry(Some(r.ok), Some(r.timestamp))];
    }
  }

  lemma ChecksSnoc(state: State, results: seq<SiteResult>, r: SiteResult)
    ensures AlertsOf(state, results + [r]) == AlertsOf(state, results) + SiteAlerts(r, Lookup(Recorded(state, results), r.url))
    ensures Recorded(state, results + [r]) == Recorded(state, results)[r.url := Entry(Some(r.ok), Some(r.timestamp))]
  {
    assert (results + [r])[..|results|] == results;
  }

  /** After the loop every checked url holds the `ok` and timestamp of its last check. */
  lemma {:induction false} StateHoldsLatest(state: State, results: seq<SiteResult>, i: nat)
    requires i < |results|
    requires forall j :: i < j < |results| ==> results[j].url != results[i].url
    ensures var url := results[i].url;
      url in Recorded(state, results) && Recorded(state, results)[url] == Entry(Some(results[i].ok), Some(results[i].timestamp))
    decreases |results|
  {
    var last := |results| - 1;
    var init := results[..last];
    var r := results[last];
    assert Recorded(state, results) == Recorded(state, init)[r.url := Entry(Some(r.ok), Some(r.timestamp))];
    if i < last {
      assert r.url != results[i].url;
      assert forall j :: i < j < |init| ==> init[j] == results[j];
      StateHoldsLatest(state, init, i);
    }
  }

  /** Entries for urls that were not checked are as they were. */
  lemma {:induction false} StateKeepsOthers(state: State, results: seq<SiteResult>, url: string)
    requires forall i :: 0 <= i < |results| ==> results[i].url != url
    ensures Lookup(Recorded(state, results), url) == Lookup(state, url)
    decreases |results|
  {
    if results != [] {
      var init := results[..|results| - 1];
      assert forall i :: 0 <= i < |init| ==> init[i] == results[i];
      StateKeepsOthers(state, init, url);
    }
  }

  /** With every site listed once, as in the configured list, each site ends with its own result. */
  lemma DistinctSitesEndWithOwnResult(state: State, results: seq<SiteResult>)
    requires forall i, j :: 0 <= i < j < |results| ==> results[i].url != results[j].url
    ensures forall i :: 0 <= i < |results| ==>
      var url := results[i].url;
      url in Recorded(state, results) && Recorded(state, results)[url] == Entry(Some(results[i].ok), Some(results[i].timestamp))
  {
    forall i | 0 <= i < |results|
      ensures var url := results[i].url;
        url in Recorded(state, results) && Recorded(state, results)[url] == Entry(Some(results[i].ok), Some(results[i].timestamp))
    {
      StateHoldsLatest(state, results, i);
    }
  }
}
