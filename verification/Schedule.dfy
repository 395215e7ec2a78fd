/** Recurring class schedules: the occurrence loop of internal/schedule/service.go, its
    twin in cmd/scheduleworker/main.go, and the worker's repeated runs.

    Instants are seconds since the epoch and days are day numbers since 1970-01-01. A
    time zone is given by its local midnights, its wall clocks and the local day of an
    instant; local midnights exist and come in order. */
module Schedule {
  import opened Wrappers

  const DAY: int := 86400
  const HOUR: int := 3600
  const HORIZON: int := 14 * DAY

  datatype Zone = Zone(midnight: int -> int, at: (int, int, int) -> int, dayOf: int -> int)

  ghost predicate DayPasses(z: Zone, d: int) {
    z.midnight(d) < z.midnight(d + 1)
  }

  ghost predicate ClockInDay(z: Zone, d: int, h: int, m: int) {
    z.midnight(d) <= z.at(d, h, m) < z.midnight(d + 1)
  }

  ghost predicate LocalDay(z: Zone, t: int) {
    z.midnight(z.dayOf(t)) <= t < z.midnight(z.dayOf(t) + 1)
  }

  ghost predicate ValidZone(z: Zone) {
    && (forall d :: DayPasses(z, d))
    && (forall d, h, m :: 0 <= h < 24 && 0 <= m < 60 ==> ClockInDay(z, d, h, m))
    && (forall t :: LocalDay(z, t))
  }

  /** The time zones that load, by name. */
  type Zones = map<string, Zone>

  ghost predicate ValidZones(zones: Zones) {
    forall name :: name in zones ==> ValidZone(zones[name])
  }

  lemma {:induction false} MidnightsAscend(z: Zone, d: int, e: int)
    requires ValidZone(z) && d <= e
    ensures z.midnight(d) + (e - d) <= z.midnight(e)
    decreases e - d
  {
    if d < e {
      MidnightsAscend(z, d, e - 1);
      assert DayPasses(z, e - 1);
    }
  }

  // ----- Clock strings -----

  predicate Digit(c: char) {
    '0' <= c <= '9'
  }

  /** The decimal value of a string of digits; an empty string counts as 0. */
  function Decimal(s: string): int
    requires forall c :: c in s ==> Digit(c)
  {
    if s == [] then 0 else Decimal(s[..|s|-1]) * 10 + (s[|s|-1] as int - '0' as int)
  }

  function AtoiSpec(s: string): Option<int> {
    if forall c :: c in s ==> Digit(c) then Some(Decimal(s)) else None
  }

  method Atoi(s: string) returns (n: Option<int>)
    ensures n == AtoiSpec(s)
  {
    var v := 0;
    for i := 0 to |s|
      invariant forall c :: c in s[..i] ==> Digit(c)
      invariant v == Decimal(s[..i])
    {
      if s[i] < '0' || s[i] > '9' {
        assert s[i] in s;
        return None;
      }
      v := v * 10 + (s[i] as int - '0' as int);
      assert s[..i+1][..i] == s[..i];
    }
    assert s[..|s|] == s;
    return Some(v);
  }

  function ColonIndex(s: string): (i: nat)
    ensures i <= |s| && (i < |s| ==> s[i] == ':') && forall j :: 0 <= j < i ==> s[j] != ':'
  {
    if s == [] || s[0] == ':' then 0 else 1 + ColonIndex(s[1..])
  }

  /** The worker's parser: both parts present, digits only, in range. */
  function ParseHHMM(s: string): Option<(int, int)> {
    var i := ColonIndex(s);
    if i == |s| then None
    else
      var h, m := AtoiSpec(s[..i]), AtoiSpec(s[i+1..]);
      if h.Some? && m.Some? && 0 <= h.value < 24 && 0 <= m.value < 60 then Some((h.value, m.value)) else None
  }

  /** The service's parser: a missing part counts as 0 and ranges are not checked. */
  function CutClock(s: string): Option<(int, int)> {
    var i := ColonIndex(s);
    var h, m := AtoiSpec(s[..i]), AtoiSpec(if i == |s| then "" else s[i+1..]);
    if h.Some? && m.Some? then Some((h.value, m.value)) else None
  }

  function TwoDigits(n: int): string
    requires 0 <= n < 100
  {
    ['0' + (n / 10) as char, '0' + (n % 10) as char]
  }

  lemma TwoDigitsValue(n: int)
    requires 0 <= n < 100
    ensures AtoiSpec(TwoDigits(n)) == Some(n)
  {
    var s := TwoDigits(n);
    assert s[..1] == [s[0]] && s[..1][..0] == [];
    assert Decimal(s[..1]) == n / 10;
  }

  /** Both parsers read a well-formed HH:MM back. */
  lemma ClockRoundTrip(h: int, m: int)
    requires 0 <= h < 24 && 0 <= m < 60
    ensures ParseHHMM(TwoDigits(h) + ":" + TwoDigits(m)) == Some((h, m))
  {
    var s := TwoDigits(h) + ":" + TwoDigits(m);
    TwoDigitsValue(h);
    TwoDigitsValue(m);
    assert s[2] == ':' && s[..2] == TwoDigits(h) && s[3..] == TwoDigits(m);
  }

  /** The worker accepts exactly the strings with a colon that the service accepts and
      that name a time of day, and then they agree. */
  lemma ParsersAgree(s: string)
    ensures ParseHHMM(s).Some? <==>
            && ':' in s && CutClock(s).Some?
            && 0 <= CutClock(s).value.0 < 24 && 0 <= CutClock(s).value.1 < 60
    ensures ParseHHMM(s).Some? ==> ParseHHMM(s) == CutClock(s)
  {
    assert ColonIndex(s) == |s| <==> ':' !in s;
  }

  // ----- Which days -----

  /** `startsOn` and `endsOn` are civil days, held as UTC midnights. */
  datatype ClassSchedule = ClassSchedule(
    id: string,
    byWeekday: seq<int>,
    startLocal: string,
    timezone: string,
    startsOn: Option<int>,
    endsOn: Option<int>)

  /** Sunday is 0, as in Go; day 0 was a Thursday. */
  function Weekday(day: int): int {
    (day + 4) % 7
  }

  /** ISO weekdays 1..7 (Monday to Sunday) in Go's numbering. */
  function FromISO(d: int): int {
    if d == 7 then 0 else d
  }

  function GoWeekdays(byWeekday: seq<int>): set<int> {
    set d | d in byWeekday :: FromISO(d)
  }

  function Wanted(s: ClassSchedule): set<int> {
    GoWeekdays(s.byWeekday)
  }

  lemma GoWeekdaysAppend(ds: seq<int>, d: int)
    ensures GoWeekdays(ds + [d]) == GoWeekdays(ds) + {FromISO(d)}
  {
    forall w | w in GoWeekdays(ds) + {FromISO(d)} ensures w in GoWeekdays(ds + [d]) {
      if w in GoWeekdays(ds) {
        var x :| x in ds && FromISO(x) == w;
        assert x in ds + [d];
      } else {
        assert d in ds + [d];
      }
    }
  }

  method WantedDays(byWeekday: seq<int>) returns (want: map<int, bool>)
    ensures want.Keys == GoWeekdays(byWeekday)
    ensures forall w :: w in want ==> want[w]
  {
    want := map[];
    for i := 0 to |byWeekday|
      invariant want.Keys == GoWeekdays(byWeekday[..i])
      invariant forall w :: w in want ==> want[w]
    {
      var w := byWeekday[i];
      if byWeekday[i] == 7 {
        w := 0;
      }
      want := want[w := true];
      GoWeekdaysAppend(byWeekday[..i], byWeekday[i]);
      assert byWeekday[..i+1] == byWeekday[..i] + [byWeekday[i]];
    }
    assert byWeekday[..|byWeekday|] == byWeekday;
  }

  /** A local midnight is compared, as an instant, with the UTC midnights of the bounds. */
  predicate InBounds(z: Zone, s: ClassSchedule, day: int) {
    && !(s.startsOn.Some? && z.midnight(day) < DAY * s.startsOn.value)
    && !(s.endsOn.Some? && z.midnight(day) > DAY * s.endsOn.value)
  }

  predicate Qualifies(z: Zone, s: ClassSchedule, h: int, m: int, now: int, day: int) {
    && Weekday(day) in Wanted(s)
    && InBounds(z, s, day)
    && z.at(day, h, m) >= now - HOUR
  }

  /** The instants emitted by the day loop from `day` on. */
  function Occurrences(z: Zone, s: ClassSchedule, h: int, m: int, now: int, day: int, end: int): seq<int>
    requires ValidZone(z)
    decreases end - z.midnight(day)
  {
    if z.midnight(day) >= end then []
    else
      assert DayPasses(z, day);
      (if Qualifies(z, s, h, m, now, day) then [z.at(day, h, m)] else [])
      + Occurrences(z, s, h, m, now, day + 1, end)
  }

  /** The occurrences a run at `now` looks at. */
  function Upcoming(z: Zone, s: ClassSchedule, h: int, m: int, now: int): seq<int>
    requires ValidZone(z)
  {
    Occurrences(z, s, h, m, now, z.dayOf(now), now + HORIZON)
  }

  ghost predicate Ascending(xs: seq<int>) {
    forall i, j :: 0 <= i < j < |xs| ==> xs[i] < xs[j]
  }

  ghost predicate EmittedOn(z: Zone, s: ClassSchedule, h: int, m: int, now: int, day: int, end: int, w: int, d: int) {
    day <= d && z.midnight(d) < end && Qualifies(z, s, h, m, now, d) && w == z.at(d, h, m)
  }

  /** The loop emits exactly the qualifying instants of the days up to the horizon. */
  lemma {:induction false} OccurrencesExact(z: Zone, s: ClassSchedule, h: int, m: int, now: int,
                                            day: int, end: int, w: int)
    requires ValidZone(z)
    ensures w in Occurrences(z, s, h, m, now, day, end) <==>
            exists d :: EmittedOn(z, s, h, m, now, day, end, w, d)
    decreases end - z.midnight(day)
  {
    if z.midnight(day) >= end {
      forall d | day <= d ensures z.midnight(d) >= end {
        MidnightsAscend(z, day, d);
      }
    } else {
      assert DayPasses(z, day);
      OccurrencesExact(z, s, h, m, now, day + 1, end, w);
      var rest := Occurrences(z, s, h, m, now, day + 1, end);
      if w in rest {
        var d :| EmittedOn(z, s, h, m, now, day + 1, end, w, d);
        assert EmittedOn(z, s, h, m, now, day, end, w, d);
      }
      if Qualifies(z, s, h, m, now, day) && w == z.at(day, h, m) {
        assert EmittedOn(z, s, h, m, now, day, end, w, day);
      }
      if d :| EmittedOn(z, s, h, m, now, day, end, w, d) {
        if d > day {
          assert EmittedOn(z, s, h, m, now, day + 1, end, w, d);
        }
      }
    }
  }

  /** In strictly ascending order, at or after the first day's midnight. */
  lemma {:induction false} OccurrencesAscend(z: Zone, s: ClassSchedule, h: int, m: int, now: int, day: int, end: int)
    requires ValidZone(z) && 0 <= h < 24 && 0 <= m < 60
    ensures Ascending(Occurrences(z, s, h, m, now, day, end))
    ensures forall w :: w in Occurrences(z, s, h, m, now, day, end) ==> w >= z.midnight(day)
    decreases end - z.midnight(day)
  {
    if z.midnight(day) < end {
      assert DayPasses(z, day);
      OccurrencesAscend(z, s, h, m, now, day + 1, end);
      assert ClockInDay(z, day, h, m);
      var rest := Occurrences(z, s, h, m, now, day + 1, end);
      assert forall j :: 0 <= j < |rest| ==> rest[j] in rest;
    }
  }

  /** schedule.nextOccurrences; an unknown zone and a malformed start time are errors. */
  method NextOccurrences(zones: Zones, s: ClassSchedule, now: int, horizon: int) returns (out: Option<seq<int>>)
    requires ValidZones(zones)
    ensures out == if s.timezone !in zones then None else
                     match CutClock(s.startLocal)
                     case None => None
                     case Some((h, m)) =>
                       var z := zones[s.timezone];
                       Some(Occurrences(z, s, h, m, now, z.dayOf(now), now + horizon))
  {
    if s.timezone !in zones {
      return None;
    }
    var z := zones[s.timezone];
    var i := ColonIndex(s.startLocal);
    var hour := Atoi(s.startLocal[..i]);
    var min := Atoi(if i == |s.startLocal| then "" else s.startLocal[i+1..]);
    if hour.None? || min.None? {
      return None;
    }
    var when := UpcomingDays(z, s, hour.value, min.value, now, horizon);
    return Some(when);
  }

  /** Its day loop. */
  method UpcomingDays(z: Zone, s: ClassSchedule, hour: int, min: int, now: int, horizon: int) returns (when: seq<int>)
    requires ValidZone(z)
    ensures when == Occurrences(z, s, hour, min, now, z.dayOf(now), now + horizon)
  {
    var want := WantedDays(s.byWeekday);
    var end := now + horizon;
    var day := z.dayOf(now);
    ghost var all := Occurrences(z, s, hour, min, now, day, end);
    when := [];
    while z.midnight(day) < end
      invariant when + Occurrences(z, s, hour, min, now, day, end) == all
      decreases end - z.midnight(day)
    {
      var today := day;
      day := day + 1;
      NextDay(z, s, hour, min, now, today, end, when);
      if Weekday(today) !in want {
        continue;
      }
      if s.startsOn.Some? && z.midnight(today) < DAY * s.startsOn.value {
        continue;
      }
      if s.endsOn.Some? && z.midnight(today) > DAY * s.endsOn.value {
        continue;
      }
      var w := z.at(today, hour, min);
      if w < now - HOUR {
        continue;
      }
      when := when + [w];
    }
  }

  /** The class is given on day d: its ISO weekday (Monday 1 to Sunday 7; day 0, 1970-01-01,
      was a Thursday) is listed, its local midnight is not before the starts_on date's UTC
      midnight nor after that of ends_on, and it begins at most an hour ago. */
  predicate GivenOn(z: Zone, s: ClassSchedule, h: int, m: int, now: int, d: int) {
    && (d + 3) % 7 + 1 in s.byWeekday
    && (s.startsOn.Some? ==> z.midnight(d) >= s.startsOn.value * 86400)
    && (s.endsOn.Some? ==> z.midnight(d) <= s.endsOn.value * 86400)
    && z.at(d, h, m) >= now - 3600
  }

  predicate IsoDays(byWeekday: seq<int>) {
    forall w :: w in byWeekday ==> 1 <= w <= 7
  }

  lemma IsoWeekday(s: ClassSchedule, d: int)
    requires IsoDays(s.byWeekday)
    ensures Weekday(d) in Wanted(s) <==> (d + 3) % 7 + 1 in s.byWeekday
  {
    var iso := (d + 3) % 7 + 1;
    assert FromISO(iso) == Weekday(d);
    if Weekday(d) in Wanted(s) {
      var w :| w in s.byWeekday && FromISO(w) == Weekday(d);
      assert w == iso;
    }
  }

  /** What both loops emit: the instants of the given days from today whose midnight is
      before the end of the horizon. */
  lemma EmittedIff(z: Zone, s: ClassSchedule, h: int, m: int, now: int, horizon: int, w: int)
    requires ValidZone(z) && IsoDays(s.byWeekday)
    ensures w in Occurrences(z, s, h, m, now, z.dayOf(now), now + horizon) <==>
            exists d :: z.dayOf(now) <= d && Emitted(z, s, h, m, now, horizon, w, d)
  {
    var day, end := z.dayOf(now), now + horizon;
    OccurrencesExact(z, s, h, m, now, day, end, w);
    if d :| EmittedOn(z, s, h, m, now, day, end, w, d) {
      IsoWeekday(s, d);
      assert Emitted(z, s, h, m, now, horizon, w, d);
    }
    if d :| z.dayOf(now) <= d && Emitted(z, s, h, m, now, horizon, w, d) {
      IsoWeekday(s, d);
      assert EmittedOn(z, s, h, m, now, day, end, w, d);
    }
  }

  predicate Emitted(z: Zone, s: ClassSchedule, h: int, m: int, now: int, horizon: int, w: int, d: int) {
    w == z.at(d, h, m) && z.midnight(d) < now + horizon && GivenOn(z, s, h, m, now, d)
  }

  /** One turn of the day loop. */
  lemma NextDay(z: Zone, s: ClassSchedule, h: int, m: int, now: int, day: int, end: int, before: seq<int>)
    requires ValidZone(z) && z.midnight(day) < end
    ensures z.midnight(day) < z.midnight(day + 1)
    ensures before + Occurrences(z, s, h, m, now, day, end)
         == (if Qualifies(z, s, h, m, now, day) then before + [z.at(day, h, m)] else before)
            + Occurrences(z, s, h, m, now, day + 1, end)
  {
    assert DayPasses(z, day);
  }

  // ----- The worker -----

  /** A streams row created for one occurrence of a schedule. */
  datatype Row = Row(schedule: string, scheduledAt: int)

  function Rows(id: string, whens: seq<int>): seq<Row> {
    seq(|whens|, i requires 0 <= i < |whens| => Row(id, whens[i]))
  }

  lemma RowsAppend(id: string, whens: seq<int>, w: int)
    ensures Rows(id, whens + [w]) == Rows(id, whens) + [Row(id, w)]
  {
  }

  /** The occurrences that get a new row: not there yet, and no query about them fails. */
  function Missing(rows: seq<Row>, id: string, whens: seq<int>, fails: set<Row>): seq<int> {
    if whens == [] then []
    else
      var w := whens[|whens|-1];
      Missing(rows, id, whens[..|whens|-1], fails)
      + if Row(id, w) !in rows && Row(id, w) !in fails then [w] else []
  }

  lemma {:induction false} MissingExact(rows: seq<Row>, id: string, whens: seq<int>, fails: set<Row>, w: int)
    ensures w in Missing(rows, id, whens, fails) <==> w in whens && Row(id, w) !in rows && Row(id, w) !in fails
  {
    if whens != [] {
      MissingExact(rows, id, whens[..|whens|-1], fails, w);
      assert whens == whens[..|whens|-1] + [whens[|whens|-1]];
    }
  }

  /** The occurrences that end in an error: the check for the row fails, or there is none and
      the insert fails. */
  function Failing(rows: seq<Row>, id: string, whens: seq<int>,
                   lookupFails: set<Row>, createFails: set<Row>): seq<int> {
    if whens == [] then []
    else
      var w := whens[|whens|-1];
      Failing(rows, id, whens[..|whens|-1], lookupFails, createFails)
      + if Row(id, w) in lookupFails || (Row(id, w) !in rows && Row(id, w) in createFails) then [w] else []
  }

  /** The outcome of one occurrence. */
  predicate CountsOne(rows: seq<Row>, row: Row, lookupFails: set<Row>, createFails: set<Row>,
                      created: nat, skipped: nat, errs: nat) {
    && errs == (if row in lookupFails || (row !in rows && row in createFails) then 1 else 0)
    && skipped == (if row in rows && row !in lookupFails then 1 else 0)
    && created == (if row !in rows && row !in lookupFails + createFails then 1 else 0)
  }

  /** The table and the counts after a run has gone through `done`. */
  predicate Tallied(rows: seq<Row>, now: seq<Row>, id: string, done: seq<int>, lookupFails: set<Row>,
                    createFails: set<Row>, created: nat, skipped: nat, errs: nat) {
    var missing := Missing(rows, id, done, lookupFails + createFails);
    && now == rows + Rows(id, missing)
    && created == |missing| && errs == |Failing(rows, id, done, lookupFails, createFails)|
    && created + skipped + errs == |done|
  }

  lemma TalliedStep(rows: seq<Row>, before: seq<Row>, after: seq<Row>, id: string, all: seq<int>, done: seq<int>,
                    w: int, lookupFails: set<Row>, createFails: set<Row>,
                    created: nat, skipped: nat, errs: nat, c: nat, sk: nat, e: nat)
    requires Ascending(all) && done + [w] <= all
    requires Tallied(rows, before, id, done, lookupFails, createFails, created, skipped, errs)
    requires var row := Row(id, w);
             after == before + if row !in before && row !in lookupFails + createFails then [row] else []
    requires CountsOne(before, Row(id, w), lookupFails, createFails, c, sk, e)
    ensures Tallied(rows, after, id, done + [w], lookupFails, createFails, created + c, skipped + sk, errs + e)
  {
    NewRowOrNot(rows, id, all, done, w, lookupFails + createFails);
    RowsAppend(id, Missing(rows, id, done, lookupFails + createFails), w);
    assert (done + [w])[..|done|] == done;
  }

  class Worker {
    const zones: Zones
    var streams: seq<Row>
    var touched: map<string, int>

    constructor (zones: Zones, streams: seq<Row>)
      ensures this.zones == zones && this.streams == streams && touched == map[]
    {
      this.zones, this.streams, this.touched := zones, streams, map[];
    }

    /** The body of the day loop: check for the row, then create it. */
    method EnsureRow(row: Row, lookupFails: set<Row>, createFails: set<Row>)
      returns (created: nat, skipped: nat, errs: nat)
      modifies this`streams
      ensures streams == old(streams) + if row !in old(streams) && row !in lookupFails + createFails then [row] else []
      ensures CountsOne(old(streams), row, lookupFails, createFails, created, skipped, errs)
    {
      created, skipped, errs := 0, 0, 0;
      if row in lookupFails {
        errs := 1;
      } else if row in streams {
        skipped := 1;
      } else if row in createFails {
        errs := 1;
      } else {
        streams := streams + [row];
        created := 1;
      }
    }

    /** The day loop of materialise. */
    method MaterialiseDays(zone: Zone, s: ClassSchedule, hour: int, minute: int, now: int,
                           lookupFails: set<Row>, createFails: set<Row>)
      returns (created: nat, skipped: nat, errs: nat)
      requires ValidZone(zone) && 0 <= hour < 24 && 0 <= minute < 60
      modifies this`streams
      ensures Tallied(old(streams), streams, s.id, Upcoming(zone, s, hour, minute, now), lookupFails, createFails,
                      created, skipped, errs)
    {
      created, skipped, errs := 0, 0, 0;
      var want := WantedDays(s.byWeekday);
      var end := now + HORIZON;
      var day := zone.dayOf(now);
      ghost var all := Upcoming(zone, s, hour, minute, now);
      ghost var done: seq<int> := [];
      OccurrencesAscend(zone, s, hour, minute, now, day, end);
      while zone.midnight(day) < end
        invariant done + Occurrences(zone, s, hour, minute, now, day, end) == all
        invariant Tallied(old(streams), streams, s.id, done, lookupFails, createFails, created, skipped, errs)
        decreases end - zone.midnight(day)
      {
        var today := day;
        day := day + 1;
        NextDay(zone, s, hour, minute, now, today, end, done);
        if Weekday(today) !in want {
          continue;
        }
        if s.startsOn.Some? && zone.midnight(today) < DAY * s.startsOn.value {
          continue;
        }
        if s.endsOn.Some? && zone.midnight(today) > DAY * s.endsOn.value {
          continue;
        }
        var when := zone.at(today, hour, minute);
        if when < now - HOUR {
          continue;
        }
        ghost var before := streams;
        var c, sk, e := EnsureRow(Row(s.id, when), lookupFails, createFails);
        TalliedStep(old(streams), before, streams, s.id, all, done, when, lookupFails, createFails,
                    created, skipped, errs, c, sk, e);
        created, skipped, errs := created + c, skipped + sk, errs + e;
        done := done + [when];
      }
      assert done == all;
    }

    /** materialise: the queries about the occurrences in `lookupFails` (the existence
        check) and `createFails` (the insert) return an error, and so may the touch. */
    method Materialise(s: ClassSchedule, now: int, lookupFails: set<Row>, createFails: set<Row>, touchFails: bool)
      returns (created: nat, skipped: nat, errs: nat)
      requires ValidZones(zones)
      modifies this
      ensures Clock(zones, s).None? ==>
                (created, skipped, errs) == (0, 0, 1) && streams == old(streams) && touched == old(touched)
      ensures Clock(zones, s).Some? ==>
                var (z, h, m) := Clock(zones, s).value;
                && Tallied(old(streams), streams, s.id, Upcoming(z, s, h, m, now), lookupFails, createFails,
                           created, skipped, errs)
                && touched == if touchFails then old(touched) else old(touched)[s.id := now]
    {
      if s.timezone !in zones {
        return 0, 0, 1;
      }
      var clock := ParseHHMM(s.startLocal);
      if clock.None? {
        return 0, 0, 1;
      }
      created, skipped, errs :=
        MaterialiseDays(zones[s.timezone], s, clock.value.0, clock.value.1, now, lookupFails, createFails);
      if !touchFails {
        touched := touched[s.id := now];
      }
    }

    /** run: the totals over all the schedules of a tick; every created stream is a row. */
    method Run(schedules: seq<ClassSchedule>, now: int,
               lookupFails: set<Row>, createFails: set<Row>, touchFails: set<string>)
      returns (created: nat, skipped: nat, errs: nat)
      requires ValidZones(zones)
      modifies this
      ensures |streams| == |old(streams)| + created && old(streams) <= streams
      ensures created + skipped + errs == Due(zones, schedules, now)
    {
      created, skipped, errs := 0, 0, 0;
      for i := 0 to |schedules|
        invariant |streams| == |old(streams)| + created && old(streams) <= streams
        invariant created + skipped + errs == Due(zones, schedules[..i], now)
      {
        var c, sk, e := Materialise(schedules[i], now, lookupFails, createFails, schedules[i].id in touchFails);
        created, skipped, errs := created + c, skipped + sk, errs + e;
        assert schedules[..i+1][..i] == schedules[..i];
      }
      assert schedules[..|schedules|] == schedules;
    }
  }

  /** The zone and the start time, unless one of them does not load or parse. */
  function Clock(zones: Zones, s: ClassSchedule): (r: Option<(Zone, int, int)>)
    ensures r.Some? ==> 0 <= r.value.1 < 24 && 0 <= r.value.2 < 60
    ensures r.Some? ==> s.timezone in zones && r.value.0 == zones[s.timezone]
  {
    if s.timezone !in zones then None
    else
      match ParseHHMM(s.startLocal)
      case None => None
      case Some((h, m)) => Some((zones[s.timezone], h, m))
  }

  /** How many outcomes a tick counts: one for each occurrence, and one error for each
      schedule whose zone does not load or whose start time does not parse. */
  function Due(zones: Zones, schedules: seq<ClassSchedule>, now: int): nat
    requires ValidZones(zones)
  {
    if schedules == [] then 0
    else
      var s := schedules[|schedules|-1];
      Due(zones, schedules[..|schedules|-1], now) +
      match Clock(zones, s)
      case None => 1
      case Some((z, h, m)) => |Upcoming(z, s, h, m, now)|
  }

  /** Within a run, rows inserted for earlier occurrences do not hide a later one. */
  lemma NewRowOrNot(rows: seq<Row>, id: string, all: seq<int>, done: seq<int>, w: int, fails: set<Row>)
    requires Ascending(all) && done + [w] <= all
    ensures Missing(rows, id, done + [w], fails)
         == Missing(rows, id, done, fails) + if Row(id, w) !in rows && Row(id, w) !in fails then [w] else []
    ensures Row(id, w) in rows + Rows(id, Missing(rows, id, done, fails)) <==> Row(id, w) in rows
  {
    assert (done + [w])[..|done|] == done && (done + [w])[|done|] == w == all[|done|];
    MissingExact(rows, id, done, fails, w);
    assert forall i :: 0 <= i < |done| ==> done[i] == all[i] < all[|done|];
  }

  // ----- Runs of the worker on one schedule -----

  /** The rows about which a query fails, run by run. */
  type Fails = nat -> set<Row>

  const NO_FAILS: Fails := (i: nat) => {}

  /** The table after the first n runs at the given times. */
  function After(z: Zone, s: ClassSchedule, h: int, m: int, rows: seq<Row>, runs: seq<int>, fails: Fails,
                 n: nat): seq<Row>
    requires ValidZone(z) && n <= |runs|
  {
    if n == 0 then rows
    else
      var before := After(z, s, h, m, rows, runs, fails, n - 1);
      before + Rows(s.id, Missing(before, s.id, Upcoming(z, s, h, m, runs[n-1]), fails(n - 1)))
  }

  /** Each run starts no later than the horizon of the one before it. */
  ghost predicate Overlapping(runs: seq<int>) {
    forall i :: 0 <= i < |runs| - 1 ==> runs[i] <= runs[i+1] <= runs[i] + HORIZON
  }

  /** The first run whose horizon reaches past the midnight of day d, or n. */
  function FirstReaching(z: Zone, runs: seq<int>, d: int, n: nat): (j: nat)
    requires n <= |runs|
    ensures j <= n
    ensures j < n ==> z.midnight(d) < runs[j] + HORIZON
    ensures forall i :: 0 <= i < j ==> z.midnight(d) >= runs[i] + HORIZON
  {
    if n == 0 then 0
    else
      var j := FirstReaching(z, runs, d, n - 1);
      if j < n - 1 || z.midnight(d) < runs[n-1] + HORIZON then j else n
  }

  lemma DayIsUnique(z: Zone, h: int, m: int, d: int, e: int)
    requires ValidZone(z) && 0 <= h < 24 && 0 <= m < 60 && z.at(d, h, m) == z.at(e, h, m)
    ensures d == e
  {
    assert ClockInDay(z, d, h, m) && ClockInDay(z, e, h, m);
    if d < e {
      MidnightsAscend(z, d + 1, e);
    } else if e < d {
      MidnightsAscend(z, e + 1, d);
    }
  }

  /** The occurrence on day d is looked at by a run exactly when the run's horizon
      reaches it and it did not start more than an hour before. */
  lemma UpcomingOn(z: Zone, s: ClassSchedule, h: int, m: int, now: int, d: int)
    requires ValidZone(z) && 0 <= h < 24 && 0 <= m < 60
    ensures z.at(d, h, m) in Upcoming(z, s, h, m, now) <==>
            z.dayOf(now) <= d && z.midnight(d) < now + HORIZON && Qualifies(z, s, h, m, now, d)
  {
    var w, day, end := z.at(d, h, m), z.dayOf(now), now + HORIZON;
    OccurrencesExact(z, s, h, m, now, day, end, w);
    if e :| EmittedOn(z, s, h, m, now, day, end, w, e) {
      DayIsUnique(z, h, m, d, e);
    }
    if day <= d && z.midnight(d) < end && Qualifies(z, s, h, m, now, d) {
      assert EmittedOn(z, s, h, m, now, day, end, w, d);
    }
  }

  /** What a run of the worker looks at, with its numbers: 14 days ahead, one hour back. */
  lemma LooksAtIff(z: Zone, s: ClassSchedule, h: int, m: int, now: int, d: int)
    requires ValidZone(z) && 0 <= h < 24 && 0 <= m < 60 && IsoDays(s.byWeekday)
    ensures z.at(d, h, m) in Upcoming(z, s, h, m, now) <==>
            z.dayOf(now) <= d && z.midnight(d) < now + 1209600 && GivenOn(z, s, h, m, now, d)
  {
    UpcomingOn(z, s, h, m, now, d);
    IsoWeekday(s, d);
  }

  lemma NotBeforeToday(z: Zone, h: int, m: int, now: int, d: int)
    requires ValidZone(z) && 0 <= h < 24 && 0 <= m < 60 && z.at(d, h, m) >= now
    ensures z.dayOf(now) <= d
  {
    assert ClockInDay(z, d, h, m) && LocalDay(z, now);
    if d < z.dayOf(now) {
      MidnightsAscend(z, d + 1, z.dayOf(now));
    }
  }

  lemma {:induction false} CountRows(id: string, whens: seq<int>, w: int)
    requires Ascending(whens)
    ensures multiset(Rows(id, whens))[Row(id, w)] == if w in whens then 1 else 0
  {
    if whens != [] {
      var last := |whens| - 1;
      CountRows(id, whens[..last], w);
      assert whens == whens[..last] + [whens[last]];
      assert Rows(id, whens) == Rows(id, whens[..last]) + [Row(id, whens[last])];
    }
  }

  lemma {:induction false} MissingAscends(rows: seq<Row>, id: string, whens: seq<int>, fails: set<Row>)
    requires Ascending(whens)
    ensures Ascending(Missing(rows, id, whens, fails))
  {
    if whens != [] {
      var last := |whens| - 1;
      MissingAscends(rows, id, whens[..last], fails);
      var rest := Missing(rows, id, whens[..last], fails);
      forall i | 0 <= i < |rest| ensures rest[i] < whens[last] {
        assert rest[i] in rest;
        MissingExact(rows, id, whens[..last], fails, rest[i]);
        var j :| 0 <= j < last && whens[j] == rest[i];
      }
    }
  }

  /** One run gives an occurrence a row if it looks at it, there is none and no query about
      it fails. */
  lemma RunCounts(z: Zone, s: ClassSchedule, h: int, m: int, rows: seq<Row>, now: int, fails: set<Row>, w: int)
    requires ValidZone(z) && 0 <= h < 24 && 0 <= m < 60
    ensures var row := Row(s.id, w);
            var after := rows + Rows(s.id, Missing(rows, s.id, Upcoming(z, s, h, m, now), fails));
            multiset(after)[row]
            == multiset(rows)[row] + if w in Upcoming(z, s, h, m, now) && row !in rows && row !in fails then 1 else 0
  {
    var upcoming := Upcoming(z, s, h, m, now);
    OccurrencesAscend(z, s, h, m, now, z.dayOf(now), now + HORIZON);
    MissingAscends(rows, s.id, upcoming, fails);
    MissingExact(rows, s.id, upcoming, fails, w);
    CountRows(s.id, Missing(rows, s.id, upcoming, fails), w);
  }

  /** A run that is the first to reach an occurrence is in time for it. */
  lemma FirstReachingInTime(z: Zone, h: int, m: int, runs: seq<int>, n: nat, d: int)
    requires ValidZone(z) && 0 <= h < 24 && 0 <= m < 60
    requires 0 < n <= |runs| && Overlapping(runs) && z.at(d, h, m) >= runs[0]
    ensures var j := FirstReaching(z, runs, d, n); j < n ==> runs[j] <= z.at(d, h, m)
  {
    var j := FirstReaching(z, runs, d, n);
    if 0 < j < n {
      assert z.midnight(d) >= runs[j-1] + HORIZON && runs[j-1+1] <= runs[j-1] + HORIZON;
      assert ClockInDay(z, d, h, m);
    }
  }

  predicate Scheduled(z: Zone, s: ClassSchedule, d: int) {
    Weekday(d) in Wanted(s) && InBounds(z, s, d)
  }

  /** Whether run n-1 looks at the occurrence, when no earlier run reached it. */
  lemma ReachedNow(z: Zone, s: ClassSchedule, h: int, m: int, runs: seq<int>, n: nat, d: int)
    requires ValidZone(z) && 0 <= h < 24 && 0 <= m < 60
    requires 0 < n <= |runs| && Overlapping(runs) && Scheduled(z, s, d) && z.at(d, h, m) >= runs[0]
    requires FirstReaching(z, runs, d, n - 1) == n - 1
    ensures z.at(d, h, m) in Upcoming(z, s, h, m, runs[n-1]) <==> FirstReaching(z, runs, d, n) == n - 1
  {
    UpcomingOn(z, s, h, m, runs[n-1], d);
    if FirstReaching(z, runs, d, n) == n - 1 {
      FirstReachingInTime(z, h, m, runs, n, d);
      NotBeforeToday(z, h, m, runs[n-1], d);
    }
  }

  /** How many rows the occurrence has after n runs. */
  function RowCount(z: Zone, s: ClassSchedule, h: int, m: int, rows: seq<Row>, runs: seq<int>, fails: Fails,
                    n: nat, w: int): nat
    requires ValidZone(z) && n <= |runs|
  {
    multiset(After(z, s, h, m, rows, runs, fails, n))[Row(s.id, w)]
  }

  /** Run j looks at the occurrence and no query about it fails. */
  predicate ServedBy(z: Zone, s: ClassSchedule, h: int, m: int, runs: seq<int>, fails: Fails, j: nat, w: int)
    requires ValidZone(z)
  {
    j < |runs| && w in Upcoming(z, s, h, m, runs[j]) && Row(s.id, w) !in fails(j)
  }

  lemma RowCountStep(z: Zone, s: ClassSchedule, h: int, m: int, rows: seq<Row>, runs: seq<int>, fails: Fails,
                     n: nat, w: int)
    requires ValidZone(z) && 0 <= h < 24 && 0 <= m < 60 && 0 < n <= |runs|
    ensures var before := RowCount(z, s, h, m, rows, runs, fails, n - 1, w);
            RowCount(z, s, h, m, rows, runs, fails, n, w)
            == before + if ServedBy(z, s, h, m, runs, fails, n - 1, w) && before == 0 then 1 else 0
  {
    RunCounts(z, s, h, m, After(z, s, h, m, rows, runs, fails, n - 1), runs[n-1], fails(n - 1), w);
  }

  /** Whatever queries fail, an occurrence has exactly one row once some run has looked at it
      without a failure about it, and none before. */
  lemma {:induction false} RowIff(z: Zone, s: ClassSchedule, h: int, m: int, rows: seq<Row>, runs: seq<int>,
                                  fails: Fails, n: nat, w: int)
    requires ValidZone(z) && 0 <= h < 24 && 0 <= m < 60 && n <= |runs| && Row(s.id, w) !in rows
    ensures RowCount(z, s, h, m, rows, runs, fails, n, w)
         == if exists j: nat :: j < n && ServedBy(z, s, h, m, runs, fails, j, w) then 1 else 0
  {
    if n > 0 {
      RowIff(z, s, h, m, rows, runs, fails, n - 1, w);
      RowCountStep(z, s, h, m, rows, runs, fails, n, w);
    }
  }

  /** The run that creates it is the first of those. */
  lemma CreatorIff(z: Zone, s: ClassSchedule, h: int, m: int, rows: seq<Row>, runs: seq<int>, fails: Fails,
                   j: nat, w: int)
    requires ValidZone(z) && 0 <= h < 24 && 0 <= m < 60 && j < |runs| && Row(s.id, w) !in rows
    ensures RowCount(z, s, h, m, rows, runs, fails, j, w) == 0 && RowCount(z, s, h, m, rows, runs, fails, j + 1, w) == 1
       <==> ServedBy(z, s, h, m, runs, fails, j, w)
            && forall i: nat :: i < j ==> !ServedBy(z, s, h, m, runs, fails, i, w)
  {
    RowIff(z, s, h, m, rows, runs, fails, j, w);
    RowCountStep(z, s, h, m, rows, runs, fails, j + 1, w);
  }

  /** Coverage: an occurrence that starts at or after the first run, and about which no query
      fails, has no row until a run's horizon reaches it; that run creates it, no later than
      its start, and it never gets a second row, however the runs' windows overlap. */
  lemma {:induction false} Coverage(z: Zone, s: ClassSchedule, h: int, m: int, rows: seq<Row>, runs: seq<int>,
                                    fails: Fails, n: nat, d: int)
    requires ValidZone(z) && 0 <= h < 24 && 0 <= m < 60
    requires 0 < n <= |runs| && Overlapping(runs)
    requires Scheduled(z, s, d) && z.at(d, h, m) >= runs[0] && Row(s.id, z.at(d, h, m)) !in rows
    requires forall i: nat :: Row(s.id, z.at(d, h, m)) !in fails(i)
    ensures var w, j := z.at(d, h, m), FirstReaching(z, runs, d, n);
            && RowCount(z, s, h, m, rows, runs, fails, n, w) == (if j < n then 1 else 0)
            && (j < n ==> runs[j] <= w)
  {
    FirstReachingInTime(z, h, m, runs, n, d);
    if n > 1 {
      Coverage(z, s, h, m, rows, runs, fails, n - 1, d);
    }
    RowCountStep(z, s, h, m, rows, runs, fails, n, z.at(d, h, m));
    if FirstReaching(z, runs, d, n - 1) == n - 1 {
      ReachedNow(z, s, h, m, runs, n, d);
    }
  }

  // ----- Ticks of the worker: the 12-hour gate -----

  const RETRY_GAP: int := 12 * HOUR

  /** CURRENT_DATE, in the database's UTC, is within the schedule's dates; the column
      starts_on is never NULL. */
  predicate InWindow(s: ClassSchedule, tick: int) {
    && s.startsOn.Some? && s.startsOn.value <= tick / DAY
    && (s.endsOn.Some? ==> tick / DAY <= s.endsOn.value)
  }

  /** The ticks among the first n that pick the schedule up: it is within its dates, and
      was never materialised or last more than 12 hours ago. */
  function PickedUp(s: ClassSchedule, ticks: seq<int>, n: nat): seq<int>
    requires n <= |ticks|
  {
    if n == 0 then []
    else
      var runs := PickedUp(s, ticks, n - 1);
      if InWindow(s, ticks[n-1]) && (runs == [] || runs[|runs|-1] < ticks[n-1] - RETRY_GAP)
      then runs + [ticks[n-1]] else runs
  }

  /** A tick picks the schedule up exactly when its UTC date is within the schedule's dates
      and the last run is more than 43200 seconds (12 hours) ago. */
  lemma PicksUpIff(s: ClassSchedule, ticks: seq<int>, n: nat)
    requires n < |ticks|
    ensures var runs, t := PickedUp(s, ticks, n), ticks[n];
            PickedUp(s, ticks, n + 1)
            == runs + if && s.startsOn.Some? && t >= s.startsOn.value * 86400
                         && (s.endsOn.Some? ==> t < (s.endsOn.value + 1) * 86400)
                         && (runs != [] ==> t > runs[|runs|-1] + 43200)
                      then [t] else []
  {
  }

  /** Ticks in order, none more than `gap` after the one before it. */
  ghost predicate Spaced(ticks: seq<int>, gap: int) {
    forall i :: 0 <= i < |ticks| - 1 ==> ticks[i] <= ticks[i+1] <= ticks[i] + gap
  }

  lemma {:induction false} TicksAscend(ticks: seq<int>, gap: int, i: nat, j: nat)
    requires Spaced(ticks, gap) && i <= j < |ticks|
    ensures ticks[i] <= ticks[j]
    decreases j - i
  {
    if i < j {
      TicksAscend(ticks, gap, i, j - 1);
      assert ticks[j-1] <= ticks[j-1+1];
    }
  }

  ghost predicate Between(runs: seq<int>, tick: int) {
    runs != [] && runs[0] <= tick <= runs[|runs|-1] + RETRY_GAP
  }

  ghost predicate GateOk(s: ClassSchedule, ticks: seq<int>, n: nat)
    requires n <= |ticks|
  {
    var runs := PickedUp(s, ticks, n);
    runs != [] ==> Overlapping(runs) && n > 0 && runs[|runs|-1] <= ticks[n-1] && InWindow(s, runs[|runs|-1])
  }

  ghost predicate AllBetween(s: ClassSchedule, ticks: seq<int>, n: nat)
    requires n <= |ticks|
  {
    forall i :: 0 <= i < n && InWindow(s, ticks[i]) ==> Between(PickedUp(s, ticks, n), ticks[i])
  }

  lemma GateStep(s: ClassSchedule, ticks: seq<int>, n: nat)
    requires n < |ticks| && Spaced(ticks, HORIZON - RETRY_GAP) && GateOk(s, ticks, n) && AllBetween(s, ticks, n)
    ensures GateOk(s, ticks, n + 1)
  {
    var before, t := PickedUp(s, ticks, n), ticks[n];
    if before != [] {
      assert ticks[n-1] <= ticks[n-1+1] <= ticks[n-1] + HORIZON - RETRY_GAP;
      if InWindow(s, t) {
        assert InWindow(s, ticks[n-1]);
        assert Between(before, ticks[n-1]);
      }
    }
  }

  lemma BetweenStep(s: ClassSchedule, ticks: seq<int>, n: nat, i: nat)
    requires i <= n < |ticks| && Spaced(ticks, HORIZON - RETRY_GAP) && InWindow(s, ticks[i])
    requires i < n ==> Between(PickedUp(s, ticks, n), ticks[i])
    requires GateOk(s, ticks, n) && GateOk(s, ticks, n + 1)
    ensures Between(PickedUp(s, ticks, n + 1), ticks[i])
  {
    var before := PickedUp(s, ticks, n);
    TicksAscend(ticks, HORIZON - RETRY_GAP, i, n);
    if i == n && before != [] {
      RunsAscend(before, 0, |before| - 1);
      TicksAscend(ticks, HORIZON - RETRY_GAP, n - 1, n);
    }
  }

  lemma {:induction false} RunsAscend(runs: seq<int>, i: nat, j: nat)
    requires Overlapping(runs) && i <= j < |runs|
    ensures runs[i] <= runs[j]
    decreases j - i
  {
    if i < j {
      RunsAscend(runs, i, j - 1);
      assert runs[j-1] <= runs[j-1+1];
    }
  }

  /** Every tick within the dates is at most 12 hours after the last run, and with ticks at
      most 13.5 days apart the runs are at most 14 days apart. */
  lemma {:induction false} GateKeepsOverlap(s: ClassSchedule, ticks: seq<int>, n: nat)
    requires n <= |ticks| && Spaced(ticks, HORIZON - RETRY_GAP)
    ensures GateOk(s, ticks, n) && AllBetween(s, ticks, n)
  {
    if n > 0 {
      GateKeepsOverlap(s, ticks, n - 1);
      GateStep(s, ticks, n - 1);
      forall i | 0 <= i < n && InWindow(s, ticks[i]) ensures Between(PickedUp(s, ticks, n), ticks[i]) {
        if i < n - 1 {
          assert Between(PickedUp(s, ticks, n - 1), ticks[i]);
        }
        BetweenStep(s, ticks, n - 1, i);
      }
    }
  }

  /** Run j inserted the first row of the occurrence, no later than its start. */
  ghost predicate CreatedBy(z: Zone, s: ClassSchedule, h: int, m: int, rows: seq<Row>, runs: seq<int>, fails: Fails,
                            j: nat, w: int)
    requires ValidZone(z)
  {
    && j < |runs| && runs[j] <= w
    && RowCount(z, s, h, m, rows, runs, fails, j, w) == 0 && RowCount(z, s, h, m, rows, runs, fails, j + 1, w) == 1
  }

  ghost predicate CreatedInTime(z: Zone, s: ClassSchedule, h: int, m: int, rows: seq<Row>, runs: seq<int>,
                                fails: Fails, w: int)
    requires ValidZone(z)
  {
    && RowCount(z, s, h, m, rows, runs, fails, |runs|, w) == 1
    && exists j: nat :: CreatedBy(z, s, h, m, rows, runs, fails, j, w)
  }

  /** A qualifying occurrence that starts no earlier than some tick within the schedule's
      dates, that the horizon of another one reaches by more than the gate, and about which
      no query fails. */
  ghost predicate Expected(z: Zone, s: ClassSchedule, h: int, m: int, rows: seq<Row>, ticks: seq<int>, fails: Fails,
                           d: int, f: nat, l: nat)
  {
    && ValidZone(z) && 0 <= h < 24 && 0 <= m < 60 && f < |ticks| && l < |ticks|
    && InWindow(s, ticks[f]) && InWindow(s, ticks[l]) && Scheduled(z, s, d)
    && ticks[f] <= z.at(d, h, m) && z.midnight(d) < ticks[l] - RETRY_GAP + HORIZON
    && Row(s.id, z.at(d, h, m)) !in rows && (forall i: nat :: Row(s.id, z.at(d, h, m)) !in fails(i))
  }

  /** Coverage for a worker that ticks at least every 13.5 days; ticks outside the
      schedule's dates do no harm. */
  lemma TickCoverage(z: Zone, s: ClassSchedule, h: int, m: int, rows: seq<Row>, ticks: seq<int>, fails: Fails,
                     d: int, f: nat, l: nat)
    requires Spaced(ticks, HORIZON - RETRY_GAP) && Expected(z, s, h, m, rows, ticks, fails, d, f, l)
    ensures CreatedInTime(z, s, h, m, rows, PickedUp(s, ticks, |ticks|), fails, z.at(d, h, m))
  {
    var runs, w := PickedUp(s, ticks, |ticks|), z.at(d, h, m);
    GateKeepsOverlap(s, ticks, |ticks|);
    assert Between(runs, ticks[f]) && Between(runs, ticks[l]);
    Coverage(z, s, h, m, rows, runs, fails, |runs|, d);
    var j := FirstReaching(z, runs, d, |runs|);
    FirstAmong(z, runs, d, |runs|);
    Coverage(z, s, h, m, rows, runs, fails, j + 1, d);
    if j > 0 {
      Coverage(z, s, h, m, rows, runs, fails, j, d);
    }
    assert CreatedBy(z, s, h, m, rows, runs, fails, j, w);
  }

  /** The first run to reach a day is the same seen from any later one. */
  lemma {:induction false} FirstAmong(z: Zone, runs: seq<int>, d: int, n: nat)
    requires n <= |runs| && FirstReaching(z, runs, d, n) < n
    ensures var j := FirstReaching(z, runs, d, n);
            FirstReaching(z, runs, d, j + 1) == j && FirstReaching(z, runs, d, j) == j
  {
    if FirstReaching(z, runs, d, n - 1) < n - 1 {
      FirstAmong(z, runs, d, n - 1);
    }
  }

  function FixedZone(offset: int): Zone {
    Zone(d => DAY * d - offset,
         (d: int, h: int, m: int) => DAY * d - offset + HOUR * h + 60 * m,
         t => (t + offset) / DAY)
  }

  lemma FixedZoneValid(offset: int)
    ensures ValidZone(FixedZone(offset))
  {
  }

  /** A daily 00:00 UTC class from day 0 on. */
  const DAILY := ClassSchedule("s", [1, 2, 3, 4, 5, 6, 7], "00:00", "UTC", Some(0), None)

  function LateTicks(gap: int): seq<int> {
    [0, RETRY_GAP, RETRY_GAP + gap]
  }

  lemma LateRuns(gap: int)
    requires gap > HORIZON - RETRY_GAP
    ensures PickedUp(DAILY, LateTicks(gap), 3) == [0, RETRY_GAP + gap]
  {
    var ticks := LateTicks(gap);
    assert PickedUp(DAILY, ticks, 0) == [];
    assert PickedUp(DAILY, ticks, 1) == [0];
    assert PickedUp(DAILY, ticks, 2) == [0];
  }

  /** With a longer gap the gate can lose an occurrence: ticks at 0 h, at 12 h (gated) and
      one gap after that, which is past the start of the class on day 14. */
  lemma GateLosesOccurrence(gap: int)
    requires gap > HORIZON - RETRY_GAP
    ensures Spaced(LateTicks(gap), gap) && Expected(FixedZone(0), DAILY, 0, 0, [], LateTicks(gap), NO_FAILS, 14, 0, 2)
    ensures var w := FixedZone(0).at(14, 0, 0);
            !CreatedInTime(FixedZone(0), DAILY, 0, 0, [], PickedUp(DAILY, LateTicks(gap), 3), NO_FAILS, w)
  {
    var z, w := FixedZone(0), FixedZone(0).at(14, 0, 0);
    FixedZoneValid(0);
    LateRuns(gap);
    assert 4 in DAILY.byWeekday && FromISO(4) == Weekday(14);
    FirstRunMisses(gap);
    var runs := PickedUp(DAILY, LateTicks(gap), 3);
    forall j: nat ensures !CreatedBy(z, DAILY, 0, 0, [], runs, NO_FAILS, j, w) {
    }
  }

  lemma FirstRunMisses(gap: int)
    ensures ValidZone(FixedZone(0))
    ensures RowCount(FixedZone(0), DAILY, 0, 0, [], [0, RETRY_GAP + gap], NO_FAILS, 1, FixedZone(0).at(14, 0, 0)) == 0
  {
    var z, runs := FixedZone(0), [0, RETRY_GAP + gap];
    FixedZoneValid(0);
    UpcomingOn(z, DAILY, 0, 0, runs[0], 14);
    RowCountStep(z, DAILY, 0, 0, [], runs, NO_FAILS, 1, z.at(14, 0, 0));
  }

  /** A worker whose ticks are at most `gap` apart creates every such occurrence exactly
      once and in time. */
  ghost predicate Covers(gap: int) {
    forall z: Zone, s: ClassSchedule, h: int, m: int, rows: seq<Row>, ticks: seq<int>, fails: Fails,
           d: int, f: nat, l: nat ::
      Spaced(ticks, gap) && Expected(z, s, h, m, rows, ticks, fails, d, f, l) ==>
        CreatedInTime(z, s, h, m, rows, PickedUp(s, ticks, |ticks|), fails, z.at(d, h, m))
  }

  /** The gap that the horizon affords is 14 days less the 12 hours of the gate, exactly. */
  lemma CoversIff(gap: int)
    ensures Covers(gap) <==> gap <= HORIZON - RETRY_GAP
    ensures HORIZON - RETRY_GAP == 1166400
  {
    if gap <= HORIZON - RETRY_GAP {
      forall z: Zone, s: ClassSchedule, h: int, m: int, rows: seq<Row>, ticks: seq<int>, fails: Fails,
             d: int, f: nat, l: nat
        | Spaced(ticks, gap) && Expected(z, s, h, m, rows, ticks, fails, d, f, l)
        ensures CreatedInTime(z, s, h, m, rows, PickedUp(s, ticks, |ticks|), fails, z.at(d, h, m))
      {
        assert Spaced(ticks, HORIZON - RETRY_GAP);
        TickCoverage(z, s, h, m, rows, ticks, fails, d, f, l);
      }
    } else {
      GateLosesOccurrence(gap);
    }
  }

  // ----- What the bounds mean in a zone with a fixed offset -----

  predicate CivilBounds(s: ClassSchedule, day: int) {
    && (s.startsOn.Some? ==> day >= s.startsOn.value)
    && (s.endsOn.Some? ==> day <= s.endsOn.value)
  }

  /** East of Greenwich the starts_on day itself is left out, west of it the ends_on day;
      all other days follow the calendar. */
  lemma BoundsExact(offset: int, s: ClassSchedule, day: int)
    requires -DAY < offset < DAY
    ensures InBounds(FixedZone(offset), s, day) <==>
            && CivilBounds(s, day)
            && (s.startsOn == Some(day) ==> offset <= 0)
            && (s.endsOn == Some(day) ==> offset >= 0)
  {
    var z := FixedZone(offset);
    assert z.midnight(day) == DAY * day - offset;
  }

  /** The bounds are calendar dates for every schedule exactly at offset 0. */
  lemma BoundsAreCivilIff(offset: int)
    requires -DAY < offset < DAY
    ensures (forall s, day :: InBounds(FixedZone(offset), s, day) <==> CivilBounds(s, day)) <==> offset == 0
  {
    var s := ClassSchedule("s", [1], "00:00", "UTC", Some(0), Some(0));
    BoundsExact(offset, s, 0);
    if offset == 0 {
      forall s, day ensures InBounds(FixedZone(offset), s, day) <==> CivilBounds(s, day) {
        BoundsExact(offset, s, day);
      }
    }
  }
}
