/**
 The uptime history of the status page: `_get_uptime_history` of app/routes/status_page.py.

 Times are whole microseconds, as Python's datetimes are; percentages and minutes are exact reals.
 `UptimeHistory` is the program with its loops and `ReportFor` what it returns for a component. The main
 results compare the summed downtime with the time that is really covered, and the daily bars with the
 incidents that touch the day.
 */
module Uptime {
  import opened PyText

  const DAY := 86_400_000_000
  const MINUTE := 60_000_000

  datatype Incident = Incident(component: string, severity: string, createdAt: int, resolvedAt: Option<int>)

  /** An incident cut to the window that is shown. */
  datatype Span = Span(start: int, end: int, severity: string)

  datatype Status = Operational | Maintenance | Degraded | Outage

  datatype Report = Report(daily: seq<Status>, uptime: real, downtimeMinutes: real)

  function DayOf(t: int): int {
    t / DAY
  }

  function Clamp(inc: Incident, now: int, days: nat): Span {
    var windowStart := now - days * DAY;
    var end := if inc.resolvedAt.Some? then inc.resolvedAt.value else now;
    Span(if inc.createdAt > windowStart then inc.createdAt else windowStart, if end < now then end else now,
         inc.severity)
  }

  /** The spans of one component, in the order of the incidents. */
  function SpansOf(incidents: seq<Incident>, component: string, now: int, days: nat): seq<Span> {
    if incidents == [] then []
    else
      var init, inc := incidents[..|incidents| - 1], incidents[|incidents| - 1];
      SpansOf(init, component, now, days) + (if inc.component == component then [Clamp(inc, now, days)] else [])
  }

  predicate IsOutage(severity: string) {
    severity == "critical" || severity == "major"
  }

  function Length(s: Span): nat {
    if s.end > s.start then s.end - s.start else 0
  }

  /** The summed length of the outages, in microseconds. */
  function Downtime(spans: seq<Span>): nat {
    if spans == [] then 0
    else
      var s := spans[|spans| - 1];
      Downtime(spans[..|spans| - 1]) + (if IsOutage(s.severity) then Length(s) else 0)
  }

  function Minutes(us: int): real {
    us as real / MINUTE as real
  }

  function Percentage(downtime: nat, days: nat): real {
    var total := days as real * 24.0 * 60.0;
    var down := Minutes(downtime);
    if total > 0.0 && down > 0.0 then
      var pct := (total - down) / total * 100.0;
      var capped := if pct < 99.999999 then pct else 99.999999;
      if capped > 0.0 then capped else 0.0
    else 100.0
  }

  /** The days on whose bars a span is shown. */
  predicate Touches(s: Span, day: int, today: int) {
    DayOf(s.start) <= day <= DayOf(s.end) && day <= today
  }

  function SeveritiesOn(spans: seq<Span>, day: int, today: int): seq<string> {
    if spans == [] then []
    else
      SeveritiesOn(spans[..|spans| - 1], day, today)
      + (if Touches(spans[|spans| - 1], day, today) then [spans[|spans| - 1].severity] else [])
  }

  function Bar(severities: seq<string>): Status {
    if "critical" in severities || "major" in severities then Outage
    else if "minor" in severities then Degraded
    else if "maintenance" in severities then Maintenance
    else Operational
  }

  function BarOf(spans: seq<Span>, now: int, days: nat, i: nat): Status {
    Bar(SeveritiesOn(spans, DayOf(now) - (days - 1 - i), DayOf(now)))
  }

  /** What the status page shows for a component. */
  function ReportFor(spans: seq<Span>, now: int, days: nat): (r: Report)
    ensures |r.daily| == days && forall i | 0 <= i < days :: r.daily[i] == BarOf(spans, now, days, i)
  {
    Report(seq(days, i requires 0 <= i < days => BarOf(spans, now, days, i)),
           Percentage(Downtime(spans), days), Minutes(Downtime(spans)))
  }

  // ---------------------------------------------------------------- the program

  method UptimeHistory(incidents: seq<Incident>, components: seq<string>, now: int, days: nat)
    returns (history: map<string, Report>)
    ensures forall c | c in components ::
              c in history && history[c] == ReportFor(SpansOf(incidents, c, now, days), now, days)
    ensures forall c | c in history :: c in components
  {
    var byComponent := GroupByComponent(incidents, now, days);
    history := map[];
    for k := 0 to |components|
      invariant forall c | c in components[..k] ::
                  c in history && history[c] == ReportFor(SpansOf(incidents, c, now, days), now, days)
      invariant forall c | c in history :: c in components[..k]
    {
      var comp := components[k];
      var spans := if comp in byComponent then byComponent[comp] else [];
      var report := ComponentReport(spans, now, days);
      history := history[comp := report];
      assert components[..k + 1] == components[..k] + [comp];
    }
    assert components[..|components|] == components;
  }

  method GroupByComponent(incidents: seq<Incident>, now: int, days: nat) returns (groups: map<string, seq<Span>>)
    ensures forall c :: (if c in groups then groups[c] else []) == SpansOf(incidents, c, now, days)
  {
    hide Clamp;
    groups := map[];
    for k := 0 to |incidents|
      invariant forall c :: (if c in groups then groups[c] else []) == SpansOf(incidents[..k], c, now, days)
    {
      var inc := incidents[k];
      var span := Clamp(inc, now, days);
      assert incidents[..k + 1][..k] == incidents[..k];
      var before := if inc.component in groups then groups[inc.component] else [];
      groups := groups[inc.component := before + [span]];
    }
    assert incidents[..|incidents|] == incidents;
  }

  method ComponentReport(spans: seq<Span>, now: int, days: nat) returns (r: Report)
    ensures r == ReportFor(spans, now, days)
  {
    var downtime := 0.0;
    for k := 0 to |spans|
      invariant downtime == Minutes(Downtime(spans[..k]))
    {
      assert spans[..k + 1][..k] == spans[..k];
      if IsOutage(spans[k].severity) {
        var delta := Minutes(spans[k].end - spans[k].start);
        downtime := downtime + if delta > 0.0 then delta else 0.0;
      }
    }
    assert spans[..|spans|] == spans;
    var total := days as real * 24.0 * 60.0;
    var uptime := 100.0;
    if total > 0.0 && downtime > 0.0 {
      uptime := (total - downtime) / total * 100.0;
      uptime := if uptime < 99.999999 then uptime else 99.999999;
      uptime := if uptime > 0.0 then uptime else 0.0;
    }
    var daily := DailyBars(spans, now, days);
    r := Report(daily, uptime, downtime);
    assert daily == ReportFor(spans, now, days).daily;
  }

  function ListOn(severities: map<int, seq<string>>, day: int): seq<string> {
    if day in severities then severities[day] else []
  }

  method DailyBars(spans: seq<Span>, now: int, days: nat) returns (daily: seq<Status>)
    ensures |daily| == days && forall i | 0 <= i < days :: daily[i] == BarOf(spans, now, days, i)
  {
    var today := DayOf(now);
    var severities := DailySeverities(spans, today);
    daily := [];
    for i := 0 to days
      invariant |daily| == i && forall j | 0 <= j < i :: daily[j] == BarOf(spans, now, days, j)
    {
      var status := WorstStatus(ListOn(severities, today - (days - 1 - i)));
      daily := daily + [status];
    }
  }

  method WorstStatus(list: seq<string>) returns (status: Status)
    ensures status == Bar(list)
  {
    if "critical" in list || "major" in list {
      status := Outage;
    } else if "minor" in list {
      status := Degraded;
    } else if "maintenance" in list {
      status := Maintenance;
    } else {
      status := Operational;
    }
  }

  method DailySeverities(spans: seq<Span>, today: int) returns (severities: map<int, seq<string>>)
    ensures forall x :: ListOn(severities, x) == SeveritiesOn(spans, x, today)
  {
    severities := map[];
    for k := 0 to |spans|
      invariant forall x :: ListOn(severities, x) == SeveritiesOn(spans[..k], x, today)
    {
      severities := MarkDays(severities, spans[k], today);
      assert spans[..k + 1][..k] == spans[..k];
    }
    assert spans[..|spans|] == spans;
  }

  /** The loop over the days of one span. */
  method MarkDays(before: map<int, seq<string>>, s: Span, today: int) returns (severities: map<int, seq<string>>)
    ensures forall x :: ListOn(severities, x) == ListOn(before, x) + (if Touches(s, x, today) then [s.severity] else [])
  {
    severities := before;
    var d := DayOf(s.start);
    var endDate := DayOf(s.end);
    while d <= endDate && d <= today
      invariant DayOf(s.start) <= d
      invariant d > DayOf(s.start) ==> d <= endDate + 1 && d <= today + 1
      invariant forall x ::
                  ListOn(severities, x) == ListOn(before, x) + (if DayOf(s.start) <= x < d then [s.severity] else [])
      decreases endDate - d
    {
      severities := severities[d := ListOn(severities, d) + [s.severity]];
      d := d + 1;
    }
  }

  // ---------------------------------------------------------------- the time really covered

  /** The microseconds of a half-open interval. */
  function Interval(a: int, b: int): (r: set<int>)
    ensures forall t :: t in r <==> a <= t < b
    ensures |r| == if b > a then b - a else 0
    decreases b - a
  {
    if b > a then Interval(a, b - 1) + {b - 1} else {}
  }

  function Covered(spans: seq<Span>): set<int> {
    if spans == [] then {}
    else
      var s := spans[|spans| - 1];
      Covered(spans[..|spans| - 1]) + (if IsOutage(s.severity) then Interval(s.start, s.end) else {})
  }

  predicate Apart(s: Span, r: Span) {
    IsOutage(s.severity) && IsOutage(r.severity) ==> Interval(s.start, s.end) !! Interval(r.start, r.end)
  }

  /** No two outages overlap. */
  predicate AllApart(spans: seq<Span>) {
    forall i, j | 0 <= i < j < |spans| :: Apart(spans[i], spans[j])
  }

  lemma {:induction false} InCovered(spans: seq<Span>, t: int)
    ensures t in Covered(spans) <==>
              exists i :: 0 <= i < |spans| && IsOutage(spans[i].severity) && spans[i].start <= t < spans[i].end
  {
    if spans != [] {
      var init := spans[..|spans| - 1];
      InCovered(init, t);
      assert forall i | 0 <= i < |init| :: init[i] == spans[i];
    }
  }

  /** The summed downtime is never less than the time covered by outages, and equal to it exactly when
      no two outages overlap. */
  lemma {:induction false} DowntimeCovers(spans: seq<Span>)
    ensures |Covered(spans)| <= Downtime(spans)
    ensures |Covered(spans)| == Downtime(spans) <==> AllApart(spans)
  {
    if spans != [] {
      var n := |spans| - 1;
      var init, s := spans[..n], spans[n];
      DowntimeCovers(init);
      LastApart(spans);
      if IsOutage(s.severity) {
        var a, b := Covered(init), Interval(s.start, s.end);
        assert |a + b| + |a * b| == |a| + |b|;
        assert |a * b| == 0 <==> a !! b;
      }
    }
  }

  predicate ApartFromAll(spans: seq<Span>, s: Span) {
    IsOutage(s.severity) ==> Covered(spans) !! Interval(s.start, s.end)
  }

  /** Whether the last outage overlaps the ones before it. */
  lemma LastApart(spans: seq<Span>)
    requires spans != []
    ensures var n := |spans| - 1;
            AllApart(spans) <==>
              AllApart(spans[..n]) && ApartFromAll(spans[..n], spans[n])
  {
    var n := |spans| - 1;
    if AllApart(spans) {
      ApartFromBefore(spans);
    }
    if AllApart(spans[..n]) && ApartFromAll(spans[..n], spans[n]) {
      ApartAltogether(spans);
    }
  }

  lemma ApartFromBefore(spans: seq<Span>)
    requires spans != [] && AllApart(spans)
    ensures var n := |spans| - 1;
            AllApart(spans[..n]) && ApartFromAll(spans[..n], spans[n])
  {
    var n := |spans| - 1;
    var init, s := spans[..n], spans[n];
    forall i, j | 0 <= i < j < n ensures Apart(init[i], init[j]) {
      assert Apart(spans[i], spans[j]);
    }
    if IsOutage(s.severity) {
      forall t | t in Covered(init) ensures t !in Interval(s.start, s.end) {
        InCovered(init, t);
        var i :| 0 <= i < n && IsOutage(init[i].severity) && init[i].start <= t < init[i].end;
        assert Apart(spans[i], spans[n]);
        assert t in Interval(init[i].start, init[i].end);
      }
    }
  }

  lemma ApartAltogether(spans: seq<Span>)
    requires spans != []
    requires var n := |spans| - 1;
             AllApart(spans[..n]) && ApartFromAll(spans[..n], spans[n])
    ensures AllApart(spans)
  {
    hide Covered;
    var n := |spans| - 1;
    var init, s := spans[..n], spans[n];
    forall i, j | 0 <= i < j < |spans| ensures Apart(spans[i], spans[j]) {
      if j < n {
        assert Apart(init[i], init[j]);
      } else if IsOutage(spans[i].severity) && IsOutage(s.severity) {
        forall t | t in Interval(spans[i].start, spans[i].end) ensures t !in Interval(s.start, s.end) {
          assert init[i] == spans[i];
          InCovered(init, t);
        }
      }
    }
  }

  /** Clamped spans lie inside the window. */
  predicate InWindow(spans: seq<Span>, now: int, days: nat) {
    forall s | s in spans :: now - days * DAY <= s.start && s.end <= now
  }

  lemma {:induction false} SpansAreInWindow(incidents: seq<Incident>, component: string, now: int, days: nat)
    ensures InWindow(SpansOf(incidents, component, now, days), now, days)
  {
    if incidents != [] {
      SpansAreInWindow(incidents[..|incidents| - 1], component, now, days);
    }
  }

  lemma CoveredFits(spans: seq<Span>, now: int, days: nat)
    requires InWindow(spans, now, days)
    ensures |Covered(spans)| <= days * DAY
  {
    var window := Interval(now - days * DAY, now);
    forall t | t in Covered(spans) ensures t in window {
      InCovered(spans, t);
      var i :| 0 <= i < |spans| && IsOutage(spans[i].severity) && spans[i].start <= t < spans[i].end;
      assert spans[i] in spans;
    }
    SubsetSize(Covered(spans), window);
  }

  lemma {:induction false} SubsetSize(a: set<int>, b: set<int>)
    requires a <= b
    ensures |a| <= |b|
  {
    assert b == a + (b - a);
  }

  /** The percentage of the window that no outage covers. */
  function TrueUptime(covered: nat, days: nat): real
    requires days > 0
  {
    (days * DAY - covered) as real / (days * DAY) as real * 100.0
  }

  lemma PercentageInDays(downtime: nat, days: nat)
    requires days > 0 && downtime > 0
    ensures var total := days as real * 24.0 * 60.0;
            (total - Minutes(downtime)) / total * 100.0 == TrueUptime(downtime, days)
  {
    var n, d := days as real, downtime as real;
    var total, w := n * 1440.0, n * 86_400_000_000.0;
    assert w == 60_000_000.0 * total;
    assert total - Minutes(downtime) == (w - d) / 60_000_000.0;
    ScaleQuotient(w - d, total);
  }

  lemma ScaleQuotient(x: real, y: real)
    requires y > 0.0
    ensures (x / 60_000_000.0) / y == x / (60_000_000.0 * y)
  {
    var q := x / (60_000_000.0 * y);
    assert q * (60_000_000.0 * y) == x;
    assert (q * y) * 60_000_000.0 == x;
    assert q * y == x / 60_000_000.0;
  }

  lemma LessCovered(a: nat, b: nat, days: nat)
    requires a <= b && days > 0
    ensures TrueUptime(b, days) <= TrueUptime(a, days)
  {
    var w := (days * DAY) as real;
    assert (w - b as real) / w <= (w - a as real) / w;
  }

  lemma TrueUptimeRange(covered: nat, days: nat)
    requires days > 0 && covered <= days * DAY
    ensures 0.0 <= TrueUptime(covered, days) <= 100.0
    ensures covered == 0 ==> TrueUptime(covered, days) == 100.0
  {
    LessCovered(covered, days * DAY, days);
    LessCovered(0, covered, days);
    var w := (days * DAY) as real;
    assert (w - 0.0) / w == 1.0;
  }

  /** The percentage as the code computes it: the uptime for the summed downtime, kept between 0 and the
      cap. */
  lemma PercentageIsClamped(downtime: nat, days: nat)
    requires days > 0
    ensures Percentage(downtime, days) ==
            if downtime == 0 then 100.0
            else
              var pct := TrueUptime(downtime, days);
              var capped := if pct < 99.999999 then pct else 99.999999;
              if capped > 0.0 then capped else 0.0
  {
    assert days as real * 24.0 * 60.0 > 0.0;
    if downtime > 0 {
      PercentageInDays(downtime, days);
    }
  }

  /** The reported percentage never overstates the uptime; without overlaps it is the uptime, but for
      the cap below 100 that applies as soon as there is any downtime. */
  lemma UptimeIsNotOverstated(incidents: seq<Incident>, component: string, now: int, days: nat)
    requires days > 0
    ensures var spans := SpansOf(incidents, component, now, days);
            && ReportFor(spans, now, days).uptime <= TrueUptime(|Covered(spans)|, days)
            && (AllApart(spans) ==>
                  ReportFor(spans, now, days).uptime ==
                    var pct := TrueUptime(|Covered(spans)|, days);
                    if |Covered(spans)| == 0 || pct < 99.999999 then pct else 99.999999)
  {
    var spans := SpansOf(incidents, component, now, days);
    SpansAreInWindow(incidents, component, now, days);
    CoveredFits(spans, now, days);
    DowntimeCovers(spans);
    var covered, down := |Covered(spans)|, Downtime(spans);
    PercentageIsClamped(down, days);
    LessCovered(covered, down, days);
    TrueUptimeRange(covered, days);
    assert ReportFor(spans, now, days).uptime == Percentage(down, days);
  }

  /** The query behind the page: only incidents created inside the window are fetched. */
  function Fetched(all: seq<Incident>, now: int, days: nat): seq<Incident> {
    if all == [] then []
    else
      var inc := all[|all| - 1];
      Fetched(all[..|all| - 1], now, days) + (if inc.createdAt >= now - days * DAY then [inc] else [])
  }

  lemma {:induction false} InFetched(all: seq<Incident>, now: int, days: nat, inc: Incident)
    ensures inc in Fetched(all, now, days) <==> inc in all && inc.createdAt >= now - days * DAY
  {
    if all != [] {
      assert all == all[..|all| - 1] + [all[|all| - 1]];
      InFetched(all[..|all| - 1], now, days, inc);
    }
  }

  /** A moment in the window at which an outage of a component is recorded: from its creation until, if ever,
      its resolution. */
  predicate Down(inc: Incident, component: string, now: int, days: nat, t: int) {
    && inc.component == component && (inc.severity == "critical" || inc.severity == "major")
    && inc.createdAt <= t && (inc.resolvedAt.Some? ==> t < inc.resolvedAt.value)
    && now - days * DAY <= t < now
  }

  lemma DownIsClamped(inc: Incident, component: string, now: int, days: nat, t: int)
    ensures var s := Clamp(inc, now, days);
            Down(inc, component, now, days, t)
            <==> inc.component == component && IsOutage(inc.severity) && s.start <= t < s.end
  {
  }

  /** A moment is covered exactly if it lies in the window and an outage of the component lasts at it. */
  lemma {:induction false} CoveredMeansDown(incidents: seq<Incident>, component: string, now: int, days: nat, t: int)
    ensures t in Covered(SpansOf(incidents, component, now, days))
            <==> exists inc :: inc in incidents && Down(inc, component, now, days, t)
  {
    if incidents != [] {
      var init, inc := incidents[..|incidents| - 1], incidents[|incidents| - 1];
      assert incidents == init + [inc];
      CoveredMeansDown(init, component, now, days, t);
      DownIsClamped(inc, component, now, days, t);
      var before, spans := SpansOf(init, component, now, days), SpansOf(incidents, component, now, days);
      assert t in Covered(spans) <==> t in Covered(before) || Down(inc, component, now, days, t) by {
        if inc.component == component {
          assert spans[..|spans| - 1] == before && spans[|spans| - 1] == Clamp(inc, now, days);
        } else {
          assert spans == before;
        }
      }
      if t in Covered(before) {
        var x :| x in init && Down(x, component, now, days, t);
        assert x in incidents;
      }
      forall x | x in incidents && Down(x, component, now, days, t)
        ensures x in init || x == inc
      {
      }
    }
  }

  /** The moments in the window at which this incident is an outage of the component. */
  function Moments(inc: Incident, component: string, now: int, days: nat): set<int> {
    set t | now - days * DAY <= t < now && Down(inc, component, now, days, t)
  }

  /** Every incident adds its own moments to the downtime, in minutes, whatever the others cover. */
  lemma EachOutageAdds(incidents: seq<Incident>, inc: Incident, component: string, now: int, days: nat)
    ensures ReportFor(SpansOf(incidents + [inc], component, now, days), now, days).downtimeMinutes
            == ReportFor(SpansOf(incidents, component, now, days), now, days).downtimeMinutes
               + |Moments(inc, component, now, days)| as real / 60_000_000.0
  {
    var all := incidents + [inc];
    var s := Clamp(inc, now, days);
    assert all[..|incidents|] == incidents;
    var before := SpansOf(incidents, component, now, days);
    forall t ensures Down(inc, component, now, days, t)
                     <==> inc.component == component && IsOutage(inc.severity) && s.start <= t < s.end {
      DownIsClamped(inc, component, now, days, t);
    }
    if inc.component == component {
      assert (before + [s])[..|before|] == before;
      assert Moments(inc, component, now, days) == if IsOutage(s.severity) then Interval(s.start, s.end) else {};
    } else {
      assert Moments(inc, component, now, days) == {};
      assert before + [] == before;
    }
  }

  /** The page misses downtime inside its window exactly when an outage that began before the window
      lasts into it at a moment that no fetched outage covers. */
  lemma OlderOutagesAreMissed(all: seq<Incident>, component: string, now: int, days: nat)
    ensures Covered(SpansOf(Fetched(all, now, days), component, now, days))
            <= Covered(SpansOf(all, component, now, days))
    ensures Covered(SpansOf(Fetched(all, now, days), component, now, days))
            < Covered(SpansOf(all, component, now, days))
            <==> exists inc, t :: inc in all && inc.createdAt < now - days * DAY && Down(inc, component, now, days, t)
                   && t !in Covered(SpansOf(Fetched(all, now, days), component, now, days))
  {
    var fetched := Fetched(all, now, days);
    var shown, whole := Covered(SpansOf(fetched, component, now, days)), Covered(SpansOf(all, component, now, days));
    forall t ensures t in shown ==> t in whole {
      CoveredMeansDown(all, component, now, days, t);
      CoveredMeansDown(fetched, component, now, days, t);
      if t in shown {
        var inc :| inc in fetched && Down(inc, component, now, days, t);
        InFetched(all, now, days, inc);
      }
    }
    if shown < whole {
      if forall t | t in whole :: t in shown {
        assert false;
      }
      var t :| t in whole && t !in shown;
      CoveredMeansDown(all, component, now, days, t);
      CoveredMeansDown(fetched, component, now, days, t);
      var inc :| inc in all && Down(inc, component, now, days, t);
      InFetched(all, now, days, inc);
    }
    if inc, t :| inc in all && inc.createdAt < now - days * DAY && Down(inc, component, now, days, t) && t !in shown {
      CoveredMeansDown(all, component, now, days, t);
    }
  }

  lemma MoreCovered(a: nat, b: nat, days: nat)
    requires days > 0
    ensures TrueUptime(a, days) > TrueUptime(b, days) <==> a < b
  {
    var w := (days * DAY) as real;
    assert (w - a as real) / w - (w - b as real) / w == (b as real - a as real) / w;
  }

  /** The percentage for one amount of downtime against the uptime for another. */
  lemma PercentageOverstates(down: nat, covered: nat, days: nat)
    requires days > 0 && covered <= days * DAY
    ensures Percentage(down, days) > TrueUptime(covered, days)
            <==> covered > 0 && (down == 0 || (down < covered && TrueUptime(covered, days) < 99.999999))
  {
    PercentageIsClamped(down, days);
    TrueUptimeRange(covered, days);
    MoreCovered(down, covered, days);
    MoreCovered(0, covered, days);
    TrueUptimeRange(0, days);
  }

  /** The page shows more than the uptime that all recorded incidents leave exactly when they cover some
      time and either no downtime was fetched at all, or what was fetched sums to less than is covered and
      the cap below 100 does not hide it. */
  lemma OverstatedIff(all: seq<Incident>, component: string, now: int, days: nat)
    requires days > 0
    ensures var fetched := SpansOf(Fetched(all, now, days), component, now, days);
            var covered := |Covered(SpansOf(all, component, now, days))|;
            ReportFor(fetched, now, days).uptime > TrueUptime(covered, days)
            <==> covered > 0 && (Downtime(fetched) == 0
                                 || (Downtime(fetched) < covered && TrueUptime(covered, days) < 99.999999))
  {
    var spans := SpansOf(all, component, now, days);
    SpansAreInWindow(all, component, now, days);
    CoveredFits(spans, now, days);
    PercentageOverstates(Downtime(SpansOf(Fetched(all, now, days), component, now, days)), |Covered(spans)|, days);
  }

  lemma OldIsNotFetched(inc: Incident, component: string, now: int, days: nat)
    requires inc.createdAt < now - days * DAY
    ensures SpansOf(Fetched([inc], now, days), component, now, days) == []
  {
    var none: seq<Incident> := [];
    assert [inc][..0] == none;
    assert Fetched(none, now, days) == none;
    assert Fetched([inc], now, days) == none;
  }

  lemma OneSpan(inc: Incident, component: string, now: int, days: nat)
    requires inc.component == component && IsOutage(inc.severity)
    ensures var s := Clamp(inc, now, days);
            Covered(SpansOf([inc], component, now, days)) == Interval(s.start, s.end)
  {
    var none: seq<Incident> := [];
    var s := Clamp(inc, now, days);
    assert [inc][..0] == none;
    assert SpansOf(none, component, now, days) == [];
    assert SpansOf([inc], component, now, days) == [s];
    assert [s][..0] == [];
  }

  lemma AllOfIt(days: nat)
    requires days > 0
    ensures TrueUptime(days * DAY, days) == 0.0
  {
  }

  /** An outage that began before the window and is not resolved: the page shows 100 percent, and the
      component was down all the time. */
  lemma OldOutageIsShownAsUp(component: string, now: int, days: nat, early: nat)
    requires days > 0 && early > 0
    ensures var all := [Incident(component, "critical", now - days * DAY - early, None)];
            && ReportFor(SpansOf(Fetched(all, now, days), component, now, days), now, days).uptime == 100.0
            && TrueUptime(|Covered(SpansOf(all, component, now, days))|, days) == 0.0
  {
    var inc := Incident(component, "critical", now - days * DAY - early, None);
    OldIsNotFetched(inc, component, now, days);
    PercentageIsClamped(0, days);
    OneSpan(inc, component, now, days);
    AllOfIt(days);
  }

  // ---------------------------------------------------------------- the daily bars

  function Rank(severity: string): nat {
    if IsOutage(severity) then 3 else if severity == "minor" then 2 else if severity == "maintenance" then 1 else 0
  }

  function StatusRank(s: Status): nat {
    match s
    case Outage => 3
    case Degraded => 2
    case Maintenance => 1
    case Operational => 0
  }

  lemma {:induction false} SeverityListed(spans: seq<Span>, day: int, today: int, severity: string)
    ensures severity in SeveritiesOn(spans, day, today) <==>
              exists i :: 0 <= i < |spans| && spans[i].severity == severity && Touches(spans[i], day, today)
  {
    if spans != [] {
      var init := spans[..|spans| - 1];
      SeverityListed(init, day, today, severity);
      assert forall i | 0 <= i < |init| :: init[i] == spans[i];
    }
  }

  /** Each bar shows the worst severity among the spans that touch its day. */
  lemma BarIsWorst(spans: seq<Span>, now: int, days: nat, i: nat)
    requires i < days
    ensures var day, today := DayOf(now) - (days - 1 - i), DayOf(now);
            var bar := StatusRank(ReportFor(spans, now, days).daily[i]);
            && (forall s | s in spans && Touches(s, day, today) :: Rank(s.severity) <= bar)
            && (bar > 0 ==> exists s :: s in spans && Touches(s, day, today) && Rank(s.severity) == bar)
  {
    var day, today := DayOf(now) - (days - 1 - i), DayOf(now);
    forall severity ensures severity in SeveritiesOn(spans, day, today) <==>
              exists s :: s in spans && s.severity == severity && Touches(s, day, today)
    {
      SeverityListed(spans, day, today, severity);
    }
  }

  /** A span that does not end before it starts touches exactly the days that hold one of its moments,
      its end included. One that was resolved before it was created touches its day only when both
      moments fall on it. */
  lemma TouchedDays(s: Span, day: int, today: int)
    requires day <= today
    ensures Touches(s, day, today) <==>
              || (exists t :: s.start <= t <= s.end && DayOf(t) == day)
              || (s.end < s.start && DayOf(s.start) == day == DayOf(s.end))
  {
    if Touches(s, day, today) && s.start <= s.end {
      var t := if DayOf(s.start) == day then s.start else day * DAY;
      assert s.start <= t <= s.end && DayOf(t) == day;
    }
  }

  /** An incident of the component that was created before the day is over and not resolved before it begins. */
  predicate LastsOn(inc: Incident, component: string, day: int) {
    && inc.component == component
    && inc.createdAt < (day + 1) * 86_400_000_000
    && (inc.resolvedAt.Some? ==> inc.resolvedAt.value >= day * 86_400_000_000)
  }

  predicate SomeLastsOn(incidents: seq<Incident>, severity: string, component: string, day: int) {
    exists inc :: inc in incidents && inc.severity == severity && LastsOn(inc, component, day)
  }

  lemma LastsIsTouching(inc: Incident, component: string, now: int, days: nat, day: int)
    requires DayOf(now) - days < day <= DayOf(now)
    ensures inc.component == component && Touches(Clamp(inc, now, days), day, DayOf(now))
            <==> LastsOn(inc, component, day)
  {
    WindowStarts(now, days);
    DaysOfTimes(inc.createdAt, day);
    if inc.resolvedAt.Some? {
      DaysOfTimes(inc.resolvedAt.value, day);
    }
    DaysOfTimes(now, day);
    DaysOfTimes(now - days * DAY, day);
  }

  lemma WindowStarts(now: int, days: nat)
    ensures DayOf(now - days * DAY) == DayOf(now) - days
  {
  }

  lemma DaysOfTimes(t: int, day: int)
    ensures DayOf(t) <= day <==> t < (day + 1) * 86_400_000_000
    ensures day <= DayOf(t) <==> day * 86_400_000_000 <= t
  {
  }

  lemma {:induction false} ListedMeansLasts(incidents: seq<Incident>, component: string, now: int, days: nat,
                                            day: int, severity: string)
    requires DayOf(now) - days < day <= DayOf(now)
    ensures severity in SeveritiesOn(SpansOf(incidents, component, now, days), day, DayOf(now))
            <==> SomeLastsOn(incidents, severity, component, day)
  {
    if incidents != [] {
      var init, inc := incidents[..|incidents| - 1], incidents[|incidents| - 1];
      assert incidents == init + [inc];
      ListedMeansLasts(init, component, now, days, day, severity);
      LastsIsTouching(inc, component, now, days, day);
      var before := SpansOf(init, component, now, days);
      var spans := SpansOf(incidents, component, now, days);
      if inc.component == component {
        assert spans[..|before|] == before && spans[|before|] == Clamp(inc, now, days);
      } else {
        assert spans == before;
      }
      assert SomeLastsOn(incidents, severity, component, day)
             <==> SomeLastsOn(init, severity, component, day)
                  || (inc.severity == severity && LastsOn(inc, component, day));
    }
  }

  /** What the bar of a day shows, told from the incidents themselves: an outage for a critical or major one
      that lasts on the day, else the next severity of which there is one. The bars end with the current day. */
  lemma BarShows(incidents: seq<Incident>, component: string, now: int, days: nat, i: nat)
    requires i < days
    ensures var day := now / 86_400_000_000 - (days - 1 - i);
            ReportFor(SpansOf(incidents, component, now, days), now, days).daily[i] ==
              if SomeLastsOn(incidents, "critical", component, day) || SomeLastsOn(incidents, "major", component, day)
              then Outage
              else if SomeLastsOn(incidents, "minor", component, day) then Degraded
              else if SomeLastsOn(incidents, "maintenance", component, day) then Maintenance
              else Operational
  {
    var day := now / 86_400_000_000 - (days - 1 - i);
    ListedMeansLasts(incidents, component, now, days, day, "critical");
    ListedMeansLasts(incidents, component, now, days, day, "major");
    ListedMeansLasts(incidents, component, now, days, day, "minor");
    ListedMeansLasts(incidents, component, now, days, day, "maintenance");
  }
}
