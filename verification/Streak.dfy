/** Daily streaks and streak badges: CheckIn of internal/engagement/handler.go. Days are
    day numbers; the database's CURRENT_DATE does not go back between check-ins. */
module Streak {
  import opened Wrappers

  /** A user_streaks row. */
  datatype Row = Row(lastActive: int, current: int, longest: int)

  datatype Badge = SevenDays | ThirtyDays

  function Extended(row: Row, today: int): int {
    if row.lastActive == today then row.current
    else if row.lastActive == today - 1 then row.current + 1
    else 1
  }

  /** INSERT ... ON CONFLICT DO UPDATE */
  function Upsert(row: Option<Row>, today: int): Row {
    match row
    case None => Row(today, 1, 1)
    case Some(r) =>
      var e := Extended(r, today);
      Row(today, e, if r.longest >= e then r.longest else e)
  }

  /** The badges that the grant query inserts. */
  function Earned(row: Row): set<Badge> {
    (if row.current >= 7 then {SevenDays} else {}) + (if row.current >= 30 then {ThirtyDays} else {})
  }

  class Engagement {
    var streaks: map<string, Row>
    var grants: map<string, set<Badge>>

    constructor ()
      ensures streaks == map[] && grants == map[]
    {
      streaks, grants := map[], map[];
    }

    /** A failed upsert is reported; a failed grant is ignored. */
    method CheckIn(user: string, today: int, upsertFails: bool, grantFails: bool) returns (ok: bool)
      modifies this
      ensures ok == !upsertFails
      ensures streaks == if ok then old(streaks)[user := Upsert(Lookup(old(streaks), user), today)] else old(streaks)
      ensures grants == if ok && !grantFails
                        then
                          var earned := Earned(Upsert(Lookup(old(streaks), user), today));
                          old(grants)[user := Held(old(grants), user) + earned]
                        else old(grants)
    {
      if upsertFails {
        return false;
      }
      if user !in streaks {
        streaks := streaks[user := Row(today, 1, 1)];
      } else {
        var r := streaks[user];
        var extended := 1;
        if r.lastActive == today {
          extended := r.current;
        } else if r.lastActive == today - 1 {
          extended := r.current + 1;
        }
        streaks := streaks[user := Row(today, extended, if r.longest >= extended then r.longest else extended)];
      }
      if !grantFails {
        var held := if user in grants then grants[user] else {};
        if streaks[user].current >= 7 {
          held := held + {SevenDays};
        }
        if streaks[user].current >= 30 {
          held := held + {ThirtyDays};
        }
        assert held == Held(old(grants), user) + Earned(streaks[user]);
        grants := grants[user := held];
      }
      return true;
    }
  }

  function Lookup(streaks: map<string, Row>, user: string): Option<Row> {
    if user in streaks then Some(streaks[user]) else None
  }

  function Held(grants: map<string, set<Badge>>, user: string): set<Badge> {
    if user in grants then grants[user] else {}
  }

  // ----- One user's history -----

  datatype Visit = Visit(day: int, granted: bool)

  function After(history: seq<Visit>): Option<Row> {
    if history == [] then None
    else Some(Upsert(After(history[..|history|-1]), history[|history|-1].day))
  }

  function BadgesAfter(history: seq<Visit>): set<Badge> {
    if history == [] then {}
    else
      BadgesAfter(history[..|history|-1])
      + if history[|history|-1].granted then Earned(After(history).value) else {}
  }

  function Days(history: seq<Visit>): set<int> {
    set v | v in history :: v.day
  }

  ghost predicate InOrder(history: seq<Visit>) {
    forall i, j :: 0 <= i < j < |history| ==> history[i].day <= history[j].day
  }

  /** The method, visit by visit, leaves the row and the badges of the history. */
  method Replay(user: string, history: seq<Visit>) returns (e: Engagement)
    ensures fresh(e)
    ensures Lookup(e.streaks, user) == After(history) && Held(e.grants, user) == BadgesAfter(history)
  {
    e := new Engagement();
    for i := 0 to |history|
      invariant fresh(e)
      invariant Lookup(e.streaks, user) == After(history[..i]) && Held(e.grants, user) == BadgesAfter(history[..i])
    {
      assert history[..i+1][..i] == history[..i];
      var _ := e.CheckIn(user, history[i].day, false, !history[i].granted);
    }
    assert history[..|history|] == history;
  }

  /** The run of consecutive active days that ends on `day` is exactly `length` long. */
  ghost predicate IsRun(days: set<int>, day: int, length: int) {
    length >= 1 && (forall d :: day - length < d <= day ==> d in days) && day - length !in days
  }

  ghost predicate Summarises(days: set<int>, row: Row) {
    && row.lastActive in days && (forall d :: d in days ==> d <= row.lastActive)
    && IsRun(days, row.lastActive, row.current)
    && (exists d :: d in days && IsRun(days, d, row.longest))
    && (forall d, k :: IsRun(days, d, k) ==> k <= row.longest)
  }

  lemma {:induction false} RunsKeep(days: set<int>, today: int, d: int, k: int)
    requires (forall x :: x in days ==> x < today) && d < today
    ensures IsRun(days + {today}, d, k) <==> IsRun(days, d, k)
  {
  }

  lemma Extend(days: set<int>, row: Row, today: int)
    requires Summarises(days, row) && row.lastActive < today
    ensures Summarises(days + {today}, Upsert(Some(row), today))
  {
    var row' := Upsert(Some(row), today);
    var days' := days + {today};
    assert IsRun(days', today, row'.current);
    var best :| best in days && IsRun(days, best, row.longest);
    RunsKeep(days, today, best, row.longest);
    assert row'.longest == row.longest || row'.longest == row'.current;
    forall d, k | IsRun(days', d, k)
      ensures k <= row'.longest
    {
      assert d in days';
      if d == today {
        SameRun(days', today, k, row'.current);
      } else {
        RunsKeep(days, today, d, k);
      }
    }
  }

  lemma SameRun(days: set<int>, day: int, a: int, b: int)
    requires IsRun(days, day, a) && IsRun(days, day, b)
    ensures a == b
  {
  }

  lemma DaysAppend(history: seq<Visit>)
    requires history != []
    ensures Days(history) == Days(history[..|history|-1]) + {history[|history|-1].day}
  {
    var front, v := history[..|history|-1], history[|history|-1];
    assert history == front + [v];
    forall d | d in Days(front) + {v.day} ensures d in Days(history) {
      if d in Days(front) {
        var u :| u in front && u.day == d;
        assert u in history;
      } else {
        assert v in history;
      }
    }
  }

  /** After any check-ins in order, current_streak is the run of consecutive days ending
      at the last check-in and longest_streak the longest such run of the history. */
  lemma {:induction false} StreakIsLongestRun(history: seq<Visit>)
    requires history != [] && InOrder(history)
    ensures Summarises(Days(history), After(history).value)
  {
    var front, today := history[..|history|-1], history[|history|-1].day;
    DaysAppend(history);
    if front == [] {
      assert Days(front) == {};
      var days := Days(history);
      assert IsRun(days, today, 1);
      forall d, k | IsRun(days, d, k) ensures k <= 1 {
        assert d in days && (k > 1 ==> d - 1 in days);
      }
    } else {
      StreakIsLongestRun(front);
      var row := After(front).value;
      LastDay(front);
      if row.lastActive == today {
        assert Days(history) == Days(front);
      } else {
        Extend(Days(front), row, today);
      }
    }
  }

  lemma LastDay(history: seq<Visit>)
    requires history != []
    ensures After(history).value.lastActive == history[|history|-1].day
  {
  }

  /** Checking in again on the same day does not change the row. It adds badges exactly when
      its grant query works and the row earns one that is not held, which takes an earlier
      grant to have failed. */
  lemma SameDayIdempotent(history: seq<Visit>, again: Visit)
    requires history != [] && InOrder(history) && again.day == history[|history|-1].day
    ensures After(history + [again]) == After(history)
    ensures BadgesAfter(history + [again]) != BadgesAfter(history) <==>
            again.granted && !(Earned(After(history).value) <= BadgesAfter(history))
    ensures history[|history|-1].granted ==> BadgesAfter(history + [again]) == BadgesAfter(history)
  {
    assert (history + [again])[..|history|] == history;
    LastDay(history);
    StreakIsLongestRun(history);
    var row := After(history).value;
    assert IsRun(Days(history), row.lastActive, row.current);
  }

  function Threshold(b: Badge): int {
    match b
    case SevenDays => 7
    case ThirtyDays => 30
  }

  /** The n-th check-in of the history ended a long enough run and granted the badge. */
  ghost predicate EarnedAt(history: seq<Visit>, n: nat, b: Badge) {
    0 < n <= |history| && history[n-1].granted && After(history[..n]).value.current >= Threshold(b)
  }

  lemma EarnedInFront(history: seq<Visit>, n: nat, b: Badge)
    requires history != [] && n < |history|
    ensures EarnedAt(history[..|history|-1], n, b) <==> EarnedAt(history, n, b)
  {
    if n > 0 {
      assert history[..|history|-1][..n] == history[..n];
    }
  }

  /** A badge is held exactly when some check-in whose grant query succeeded ended a run
      of at least its length. */
  lemma {:induction false} BadgesExact(history: seq<Visit>, b: Badge)
    ensures b in BadgesAfter(history) <==> exists n :: EarnedAt(history, n, b)
  {
    if history != [] {
      var last := |history| - 1;
      BadgesExact(history[..last], b);
      assert history[..|history|] == history;
      assert b in Earned(After(history).value) <==> After(history).value.current >= Threshold(b);
      if n: nat :| EarnedAt(history[..last], n, b) {
        EarnedInFront(history, n, b);
      }
      if n: nat :| EarnedAt(history, n, b) {
        if n <= last {
          EarnedInFront(history, n, b);
        }
      }
      assert EarnedAt(history, |history|, b) <==> history[last].granted && b in Earned(After(history).value);
    }
  }

  /** If no grant query fails, a badge is held exactly when the longest run is that long. */
  lemma {:induction false} BadgeIffLongest(history: seq<Visit>, b: Badge)
    requires history != [] && forall v :: v in history ==> v.granted
    ensures b in BadgesAfter(history) <==> After(history).value.longest >= Threshold(b)
  {
    var last := |history| - 1;
    var front := history[..last];
    assert history[last] in history && forall v :: v in front ==> v in history;
    if front != [] {
      BadgeIffLongest(front, b);
    }
  }
}
