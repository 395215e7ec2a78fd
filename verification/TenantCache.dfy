/** The cache-aside lookup of internal/tenants/service.go over internal/cache/cache.go. */
module TenantCache {
  import opened Wrappers

  /** Times are in seconds. */
  const TTL: int := 300

  /** The row that the public lookup projects; the organisation code is its key. A tenant
      that is not active is not found. */
  datatype Tenant = Tenant(
    id: string, name: string, slug: string, logoUrl: string, plan: string, theme: string, active: bool)

  type Code = string

  // ----- Keys -----

  const KEY_PREFIX: string := "school:"

  function KeyTenantByOrgCode(code: string): string { "tenant:org:" + code }
  function KeyTenantByID(id: string): string { "tenant:id:" + id }
  function KeyCourseList(tenantId: string): string { "courses:list:" + tenantId }
  function KeyCourse(courseId: string): string { "course:" + courseId }

  /** Two shapes of key never collide, nor do two identifiers of one shape. */
  lemma KeysDisjoint(a: string, b: string)
    ensures KeyTenantByOrgCode(a) == KeyTenantByOrgCode(b) <==> a == b
    ensures KeyTenantByID(a) == KeyTenantByID(b) <==> a == b
    ensures KeyCourseList(a) == KeyCourseList(b) <==> a == b
    ensures KeyCourse(a) == KeyCourse(b) <==> a == b
    ensures KeyTenantByOrgCode(a) != KeyTenantByID(b)
    ensures KeyTenantByOrgCode(a) != KeyCourseList(b) && KeyTenantByOrgCode(a) != KeyCourse(b)
    ensures KeyTenantByID(a) != KeyCourseList(b) && KeyTenantByID(a) != KeyCourse(b)
    ensures KeyCourseList(a) != KeyCourse(b)
  {
    assert KeyTenantByOrgCode(a)[11..] == a && KeyTenantByOrgCode(b)[11..] == b;
    assert KeyTenantByID(a)[10..] == a && KeyTenantByID(b)[10..] == b;
    assert KeyCourseList(a)[13..] == a && KeyCourseList(b)[13..] == b;
    assert KeyCourse(a)[7..] == a && KeyCourse(b)[7..] == b;
    assert KeyTenantByOrgCode(a)[7] == 'o' && KeyTenantByID(b)[7] == 'i';
    assert KeyTenantByOrgCode(a)[0] == 't' && KeyTenantByID(a)[0] == 't';
    assert KeyCourseList(a)[6] == 's' && KeyCourse(b)[6] == ':';
    assert KeyCourseList(b)[0] == 'c' && KeyCourse(b)[0] == 'c';
  }

  // ----- The interleaving machine -----

  /** `readStep` and `readAt` say when the cached value was read from the database; no
      step looks at them. */
  datatype Entry = Entry(value: Tenant, expires: int, readStep: nat, readAt: int)

  datatype Pc =
    | Begun(code: Code)
    | Missed(code: Code)
    | Read(code: Code, value: Tenant, readStep: nat, readAt: int)
    | Returned(code: Code, value: Tenant, readStep: nat, readAt: int, at: int)
    | NotFound
    | Updated(code: Code)
    | Done

  /** `step` counts steps and `maxGap` is the longest time so far between a lookup's
      database read and its cache write; both only record the run. */
  datatype State = State(
    now: int,
    db: map<Code, Tenant>,
    cache: map<string, Entry>,
    procs: map<nat, Pc>,
    step: nat,
    maxGap: int)

  datatype Branding = Branding(name: string, logoUrl: string, theme: string)

  /** Blank names and logos leave the stored ones in place. */
  function Rebrand(t: Tenant, b: Branding): Tenant {
    t.(name := if b.name != "" then b.name else t.name,
       logoUrl := if b.logoUrl != "" then b.logoUrl else t.logoUrl,
       theme := b.theme)
  }

  /** Platform administrators change plan and status without touching the cache. */
  datatype Action =
    | Pass(seconds: nat)
    | Lookup(p: nat, code: Code)
    | Advance(p: nat, fail: bool)
    | Update(p: nat, code: Code, branding: Branding)
    | Administer(code: Code, plan: string, active: bool)
    | DropKey(key: string)

  function CacheGet(cache: map<string, Entry>, key: string, now: int): Option<Entry> {
    if key in cache && now < cache[key].expires then Some(cache[key]) else None
  }

  function CacheSet(cache: map<string, Entry>, key: string, e: Entry): map<string, Entry> {
    cache[key := e]
  }

  function OrgKey(code: Code): string {
    KEY_PREFIX + KeyTenantByOrgCode(code)
  }

  /** The keys as they stand in Redis. */
  lemma KeyTexts(code: Code, id: string)
    ensures OrgKey(code) == "school:tenant:org:" + code && IdKey(id) == "school:tenant:id:" + id
  {
    assert KEY_PREFIX + ("tenant:org:" + code) == (KEY_PREFIX + "tenant:org:") + code;
    assert KEY_PREFIX + ("tenant:id:" + id) == (KEY_PREFIX + "tenant:id:") + id;
  }

  function IdKey(id: string): string {
    KEY_PREFIX + KeyTenantByID(id)
  }

  function Goto(s: State, p: nat, pc: Pc): State {
    s.(procs := s.procs[p := pc])
  }

  /** One operation of a call. A failing cache read is a miss; a failing cache write or
      delete is ignored. */
  function StepProc(s: State, p: nat, fail: bool): State
    requires p in s.procs
  {
    match s.procs[p]
    case Begun(code) =>
      var hit := CacheGet(s.cache, OrgKey(code), s.now);
      if fail || hit.None? then Goto(s, p, Missed(code))
      else Goto(s, p, Returned(code, hit.value.value, hit.value.readStep, hit.value.readAt, s.now))
    case Missed(code) =>
      if fail || code !in s.db || !s.db[code].active then Goto(s, p, NotFound)
      else Goto(s, p, Read(code, s.db[code], s.step, s.now))
    case Read(code, value, readStep, readAt) =>
      var e := Entry(value, s.now + TTL, readStep, readAt);
      Goto(s, p, Returned(code, value, readStep, readAt, s.now)).(
        cache := if fail then s.cache else CacheSet(s.cache, OrgKey(code), e),
        maxGap := if s.now - readAt > s.maxGap then s.now - readAt else s.maxGap)
    case Updated(code) =>
      Goto(s, p, Done).(
        cache := if fail || code !in s.db then s.cache else s.cache - {OrgKey(code), IdKey(s.db[code].id)})
    case _ => s
  }

  function Act(s: State, a: Action): State {
    match a
    case Pass(seconds) => s.(now := s.now + seconds)
    case Lookup(p, code) => if p in s.procs then s else Goto(s, p, if code == "" then NotFound else Begun(code))
    case Advance(p, fail) => if p in s.procs then StepProc(s, p, fail) else s
    case Update(p, code, branding) =>
      if p in s.procs then s
      else if code !in s.db then Goto(s, p, Done)
      else Goto(s, p, Updated(code)).(db := s.db[code := Rebrand(s.db[code], branding)])
    case Administer(code, plan, active) =>
      if code !in s.db then s else s.(db := s.db[code := s.db[code].(plan := plan, active := active)])
    case DropKey(key) => s.(cache := s.cache - {key})
  }

  function Next(s: State, a: Action): State {
    Act(s, a).(step := s.step + 1)
  }

  /** The state after the first n actions of a run. */
  function At(s0: State, run: seq<Action>, n: nat): State
    requires n <= |run|
  {
    if n == 0 then s0 else Next(At(s0, run, n - 1), run[n-1])
  }

  ghost predicate Initial(s: State) {
    s.cache == map[] && s.procs == map[] && s.step == 0 && s.maxGap == 0
  }

  // ----- Bounded staleness -----

  /** `value` was the row of `code`, and active, at step k of the run, when the time was t. */
  ghost predicate WasRow(s0: State, run: seq<Action>, k: nat, t: int, code: Code, value: Tenant) {
    k <= |run| &&
    var s := At(s0, run, k);
    s.now == t && code in s.db && s.db[code] == value && value.active
  }

  ghost predicate EntryOk(s0: State, run: seq<Action>, n: nat, code: Code)
    requires n <= |run|
  {
    var s := At(s0, run, n);
    OrgKey(code) in s.cache ==>
      var e := s.cache[OrgKey(code)];
      && e.readStep <= n && WasRow(s0, run, e.readStep, e.readAt, code, e.value)
      && e.expires <= e.readAt + s.maxGap + TTL
  }

  ghost predicate ProcOk(s0: State, run: seq<Action>, n: nat, p: nat)
    requires n <= |run| && p in At(s0, run, n).procs
  {
    var s := At(s0, run, n);
    match s.procs[p]
    case Read(code, value, readStep, readAt) =>
      readStep <= n && WasRow(s0, run, readStep, readAt, code, value)
    case Returned(code, value, readStep, readAt, at) =>
      && readStep <= n && WasRow(s0, run, readStep, readAt, code, value)
      && at - readAt <= s.maxGap + TTL
    case _ => true
  }

  ghost predicate Inv(s0: State, run: seq<Action>, n: nat)
    requires n <= |run|
  {
    && At(s0, run, n).step == n
    && (forall code :: EntryOk(s0, run, n, code))
    && (forall p :: p in At(s0, run, n).procs ==> ProcOk(s0, run, n, p))
  }

  lemma OrgKeysDiffer(a: Code, b: Code)
    ensures OrgKey(a) == OrgKey(b) <==> a == b
  {
    assert OrgKey(a)[7..] == KeyTenantByOrgCode(a) && OrgKey(b)[7..] == KeyTenantByOrgCode(b);
    KeysDisjoint(a, b);
  }

  lemma EntryStep(s0: State, run: seq<Action>, n: nat, code: Code)
    requires n < |run| && Inv(s0, run, n)
    ensures EntryOk(s0, run, n + 1, code)
  {
    assert EntryOk(s0, run, n, code);
    var s, a := At(s0, run, n), run[n];
    if a.Advance? && a.p in s.procs {
      assert ProcOk(s0, run, n, a.p);
      if s.procs[a.p].Read? {
        OrgKeysDiffer(code, s.procs[a.p].code);
      }
    }
  }

  lemma GapGrows(s: State, a: Action)
    ensures Next(s, a).maxGap >= s.maxGap
  {
  }

  lemma IdleStep(s0: State, run: seq<Action>, n: nat, p: nat)
    requires n < |run| && p in At(s0, run, n).procs && ProcOk(s0, run, n, p)
    requires At(s0, run, n + 1).procs[p] == At(s0, run, n).procs[p]
    ensures ProcOk(s0, run, n + 1, p)
  {
    GapGrows(At(s0, run, n), run[n]);
    assert At(s0, run, n + 1) == Next(At(s0, run, n), run[n]);
  }

  lemma MovingStep(s0: State, run: seq<Action>, n: nat, p: nat)
    requires n < |run| && p in At(s0, run, n).procs && ProcOk(s0, run, n, p)
    requires At(s0, run, n).step == n && run[n].Advance? && run[n].p == p
    requires At(s0, run, n).procs[p].Begun? ==> EntryOk(s0, run, n, At(s0, run, n).procs[p].code)
    ensures ProcOk(s0, run, n + 1, p)
  {
    var s := At(s0, run, n);
    match s.procs[p]
    case Begun(code) =>
    case Missed(code) =>
    case Read(code, value, readStep, readAt) =>
    case Updated(code) =>
    case Returned(_, _, _, _, _) => IdleStep(s0, run, n, p);
    case NotFound =>
    case Done =>
  }

  lemma OtherProcs(s: State, a: Action, p: nat)
    requires p in s.procs && !(a.Advance? && a.p == p)
    ensures p in Next(s, a).procs && Next(s, a).procs[p] == s.procs[p]
  {
  }

  lemma NewProc(s: State, a: Action, p: nat)
    requires p !in s.procs && p in Next(s, a).procs
    ensures !Next(s, a).procs[p].Read? && !Next(s, a).procs[p].Returned?
  {
  }

  lemma ProcStep(s0: State, run: seq<Action>, n: nat, p: nat)
    requires n < |run| && Inv(s0, run, n) && p in At(s0, run, n + 1).procs
    ensures ProcOk(s0, run, n + 1, p)
  {
    var s, a := At(s0, run, n), run[n];
    assert At(s0, run, n + 1) == Next(s, a);
    if p in s.procs {
      assert ProcOk(s0, run, n, p);
      if a.Advance? && a.p == p {
        assert s.procs[p].Begun? ==> EntryOk(s0, run, n, s.procs[p].code);
        MovingStep(s0, run, n, p);
      } else {
        OtherProcs(s, a, p);
        IdleStep(s0, run, n, p);
      }
    } else {
      NewProc(s, a, p);
    }
  }

  lemma {:induction false} RunInv(s0: State, run: seq<Action>, n: nat)
    requires Initial(s0) && n <= |run|
    ensures Inv(s0, run, n)
  {
    if n > 0 {
      RunInv(s0, run, n - 1);
      forall code ensures EntryOk(s0, run, n, code) {
        EntryStep(s0, run, n - 1, code);
      }
      forall p | p in At(s0, run, n).procs ensures ProcOk(s0, run, n, p) {
        ProcStep(s0, run, n - 1, p);
      }
    }
  }

  /** A lookup's answer was the database row at some step of the run, no longer ago than
      the TTL plus the longest gap so far between a database read and its cache write. */
  lemma BoundedStaleness(s0: State, run: seq<Action>, n: nat, p: nat)
    requires Initial(s0) && n <= |run|
    requires p in At(s0, run, n).procs && At(s0, run, n).procs[p].Returned?
    ensures var r := At(s0, run, n).procs[p];
            && r.readStep <= n && WasRow(s0, run, r.readStep, r.readAt, r.code, r.value)
            && r.at - r.readAt <= 300 + At(s0, run, n).maxGap
  {
    RunInv(s0, run, n);
    assert ProcOk(s0, run, n, p);
  }

  /** In step k a lookup wrote to the cache, `gap` seconds after it had read the row. */
  ghost predicate WroteAfter(s0: State, run: seq<Action>, k: nat, gap: int) {
    && k < |run| && run[k].Advance? && run[k].p in At(s0, run, k).procs && At(s0, run, k).procs[run[k].p].Read?
    && gap == At(s0, run, k).now - At(s0, run, k).procs[run[k].p].readAt
  }

  /** maxGap is what it is called: no write so far came later after its read, and one came
      exactly so late, unless it is still 0. */
  lemma {:induction false} GapExact(s0: State, run: seq<Action>, n: nat)
    requires Initial(s0) && n <= |run|
    ensures forall k: nat, gap: int :: k < n && WroteAfter(s0, run, k, gap) ==> gap <= At(s0, run, n).maxGap
    ensures At(s0, run, n).maxGap == 0 || exists k: nat :: k < n && WroteAfter(s0, run, k, At(s0, run, n).maxGap)
  {
    if n > 0 {
      GapExact(s0, run, n - 1);
      GapStep(At(s0, run, n - 1), run[n-1]);
      AtNext(s0, run, n - 1, At(s0, run, n - 1));
      var gap := At(s0, run, n).maxGap;
      if gap != At(s0, run, n - 1).maxGap {
        assert WroteAfter(s0, run, n - 1, gap);
      }
    }
  }

  lemma GapStep(s: State, a: Action)
    ensures Next(s, a).maxGap >= s.maxGap
    ensures a.Advance? && a.p in s.procs && s.procs[a.p].Read? ==>
              Next(s, a).maxGap >= s.now - s.procs[a.p].readAt
    ensures Next(s, a).maxGap == s.maxGap
         || (a.Advance? && a.p in s.procs && s.procs[a.p].Read? && Next(s, a).maxGap == s.now - s.procs[a.p].readAt)
  {
  }

  // ----- Lookups after an update -----

  /** A lookup holds a row of `code` that it read before step `since`. */
  ghost predicate OlderReader(s: State, code: Code, since: nat) {
    exists p :: p in s.procs && ReadsOlder(s.procs[p], code, since)
  }

  predicate ReadsOlder(pc: Pc, code: Code, since: nat) {
    pc.Read? && pc.code == code && pc.readStep < since
  }

  predicate AnswersOlder(pc: Pc, code: Code, since: nat) {
    pc.Returned? && pc.code == code && pc.readStep < since
  }

  /** The cache would still serve a row of `code` that was read before step `since`. */
  predicate Leftover(s: State, code: Code, since: nat) {
    var hit := CacheGet(s.cache, OrgKey(code), s.now);
    hit.Some? && hit.value.readStep < since
  }

  ghost predicate FreshFor(s: State, code: Code, since: nat, before: set<nat>) {
    && !Leftover(s, code, since)
    && (forall p :: p in s.procs ==> !ReadsOlder(s.procs[p], code, since))
    && (forall p :: p in s.procs && p !in before ==> !AnswersOlder(s.procs[p], code, since))
  }

  lemma FreshProcStep(s: State, p: nat, fail: bool, code: Code, since: nat)
    requires p in s.procs && s.step >= since
    requires !ReadsOlder(s.procs[p], code, since)
    requires !Leftover(s, code, since)
    ensures var s' := StepProc(s, p, fail);
            && !ReadsOlder(s'.procs[p], code, since)
            && (!AnswersOlder(s.procs[p], code, since) ==> !AnswersOlder(s'.procs[p], code, since))
            && !Leftover(s', code, since)
  {
    match s.procs[p]
    case Begun(c) =>
    case Missed(c) =>
    case Read(c, _, _, _) => OrgKeysDiffer(code, c);
    case Returned(_, _, _, _, _) =>
    case NotFound =>
    case Updated(c) =>
    case Done =>
  }

  lemma FreshStep(s: State, a: Action, code: Code, since: nat, before: set<nat>)
    requires s.step >= since && FreshFor(s, code, since, before)
    ensures FreshFor(Next(s, a), code, since, before)
  {
    if a.Advance? && a.p in s.procs {
      FreshProcStep(s, a.p, a.fail, code, since);
      assert Next(s, a).procs == s.procs[a.p := StepProc(s, a.p, a.fail).procs[a.p]];
    }
  }

  /** Call u wrote the row of `code` in step a; in step b it dropped its cache keys, or failed
      to, which it ignores, and reported success. */
  ghost predicate UpdateReturns(s0: State, run: seq<Action>, a: nat, b: nat, u: nat, code: Code) {
    && a < b < |run|
    && run[a].Update? && run[a].p == u && run[a].code == code
    && u !in At(s0, run, a).procs && code in At(s0, run, a).db
    && run[b].Advance? && run[b].p == u && u in At(s0, run, b).procs && At(s0, run, b).procs[u] == Updated(code)
  }

  lemma {:induction false} RowsRemain(s0: State, run: seq<Action>, m: nat, n: nat)
    requires m <= n <= |run|
    ensures At(s0, run, m).db.Keys <= At(s0, run, n).db.Keys
  {
    if m < n {
      RowsRemain(s0, run, m, n - 1);
    }
  }

  lemma {:induction false} StaysFresh(s0: State, run: seq<Action>, a: nat, b: nat, u: nat, code: Code, n: nat)
    requires Initial(s0) && UpdateReturns(s0, run, a, b, u, code)
    requires !OlderReader(At(s0, run, b), code, a + 1) && !Leftover(At(s0, run, b + 1), code, a + 1)
    requires b < n <= |run|
    ensures FreshFor(At(s0, run, n), code, a + 1, At(s0, run, b).procs.Keys)
  {
    var before := At(s0, run, b).procs.Keys;
    if n == b + 1 {
      RowsRemain(s0, run, a, b);
    } else {
      StaysFresh(s0, run, a, b, u, code, n - 1);
      RunInv(s0, run, n - 1);
      FreshStep(At(s0, run, n - 1), run[n-1], code, a + 1, before);
    }
  }

  /** A lookup begun after UpdateBranding returned, when no lookup was carrying an older
      row across the invalidation and the cache was left without one, answers with a row no
      older than the update. */
  lemma FreshAfterUpdate(s0: State, run: seq<Action>, a: nat, b: nat, u: nat, code: Code, n: nat, p: nat)
    requires Initial(s0) && UpdateReturns(s0, run, a, b, u, code)
    requires !OlderReader(At(s0, run, b), code, a + 1) && !Leftover(At(s0, run, b + 1), code, a + 1)
    requires b < n <= |run| && p in At(s0, run, n).procs && p !in At(s0, run, b).procs
    requires At(s0, run, n).procs[p].Returned? && At(s0, run, n).procs[p].code == code
    ensures var r := At(s0, run, n).procs[p];
            a + 1 <= r.readStep <= n && WasRow(s0, run, r.readStep, r.readAt, code, r.value)
  {
    StaysFresh(s0, run, a, b, u, code, n);
    BoundedStaleness(s0, run, n, p);
  }

  predicate SameBranding(a: Tenant, b: Tenant) {
    a.name == b.name && a.logoUrl == b.logoUrl && a.theme == b.theme && a.id == b.id && a.slug == b.slug
  }

  /** What an update asks for: a blank name or logo leaves the old one, the theme is
      replaced, and the rest of the row stays. */
  predicate Branded(before: Tenant, b: Branding, after: Tenant) {
    && (b.name != "" ==> after.name == b.name) && (b.name == "" ==> after.name == before.name)
    && (b.logoUrl != "" ==> after.logoUrl == b.logoUrl) && (b.logoUrl == "" ==> after.logoUrl == before.logoUrl)
    && after.theme == b.theme && after.id == before.id && after.slug == before.slug
  }

  lemma BrandingKept(s: State, a: Action, code: Code)
    requires code in s.db && !(a.Update? && a.code == code)
    ensures code in Next(s, a).db && SameBranding(Next(s, a).db[code], s.db[code])
  {
  }

  lemma {:induction false} BrandingUnchanged(s0: State, run: seq<Action>, m: nat, n: nat, code: Code)
    requires m <= n <= |run| && code in At(s0, run, m).db
    requires forall i :: m <= i < n ==> !(run[i].Update? && run[i].code == code)
    ensures code in At(s0, run, n).db && SameBranding(At(s0, run, n).db[code], At(s0, run, m).db[code])
  {
    if m < n {
      BrandingUnchanged(s0, run, m, n - 1, code);
      BrandingKept(At(s0, run, n - 1), run[n-1], code);
    }
  }

  /** In particular, until the next update of that tenant, it sees the new branding,
      whatever administrators do to its plan and status. */
  lemma SeesNewBranding(s0: State, run: seq<Action>, a: nat, b: nat, u: nat, code: Code, n: nat, p: nat)
    requires Initial(s0) && UpdateReturns(s0, run, a, b, u, code)
    requires !OlderReader(At(s0, run, b), code, a + 1) && !Leftover(At(s0, run, b + 1), code, a + 1)
    requires b < n <= |run| && p in At(s0, run, n).procs && p !in At(s0, run, b).procs
    requires At(s0, run, n).procs[p].Returned? && At(s0, run, n).procs[p].code == code
    requires forall i :: a < i < n ==> !(run[i].Update? && run[i].code == code)
    ensures Branded(At(s0, run, a).db[code], run[a].branding, At(s0, run, n).procs[p].value)
  {
    FreshAfterUpdate(s0, run, a, b, u, code, n, p);
    BrandingUnchanged(s0, run, a + 1, At(s0, run, n).procs[p].readStep, code);
  }

  lemma {:induction false} AtPrefix(s0: State, run: seq<Action>, more: seq<Action>, n: nat)
    requires n <= |run|
    ensures At(s0, run + more, n) == At(s0, run, n)
  {
    if n > 0 {
      AtPrefix(s0, run, more, n - 1);
    }
  }

  lemma FreshPid(pids: set<nat>) returns (p: nat)
    ensures p !in pids
  {
    p := 0;
    var below: set<nat> := {};
    while p in pids
      invariant below <= pids && forall i :: i in below ==> i < p
      decreases pids - below
    {
      below := below + {p};
      p := p + 1;
    }
  }

  /** The older row goes into the cache after the invalidation, and the next lookup
      answers with it. */
  lemma OlderReaderShows(s0: State, run: seq<Action>, code: Code, q: nat, r: nat)
    requires code != "" && q in At(s0, run, |run|).procs && r !in At(s0, run, |run|).procs
    requires At(s0, run, |run|).procs[q].Read? && At(s0, run, |run|).procs[q].code == code
    ensures var more := [Advance(q, false), Lookup(r, code), Advance(r, false)];
            var end := At(s0, run + more, |run| + 3);
            && r in end.procs && end.procs[r].Returned? && end.procs[r].code == code
            && end.procs[r].readStep == At(s0, run, |run|).procs[q].readStep
            && end.procs[r].value == At(s0, run, |run|).procs[q].value
  {
    var more := [Advance(q, false), Lookup(r, code), Advance(r, false)];
    AtPrefix(s0, run, more, |run|);
    var s := At(s0, run + more, |run|);
    var s1, s2, s3 := Next(s, more[0]), Next(Next(s, more[0]), more[1]), Next(Next(Next(s, more[0]), more[1]), more[2]);
    assert At(s0, run + more, |run| + 1) == s1;
    assert At(s0, run + more, |run| + 2) == s2;
    assert At(s0, run + more, |run| + 3) == s3;
  }

  ghost predicate StaleAnswer(s0: State, run: seq<Action>, more: seq<Action>, code: Code, since: nat, p: nat) {
    var end := At(s0, run + more, |run + more|);
    p in end.procs && p !in At(s0, run, |run|).procs && AnswersOlder(end.procs[p], code, since)
  }

  /** Some lookup begun after the run answers with a row read before step `since`. */
  ghost predicate LaterStale(s0: State, run: seq<Action>, code: Code, since: nat) {
    exists more: seq<Action>, p: nat :: StaleAnswer(s0, run, more, code, since, p)
  }

  lemma CarriedOn(s0: State, run: seq<Action>, a: nat, u: nat, code: Code, q: nat)
    requires |run| > 0 && UpdateReturns(s0, run, a, |run| - 1, u, code)
    requires q in At(s0, run, |run| - 1).procs && At(s0, run, |run| - 1).procs[q].Read?
    ensures q in At(s0, run, |run|).procs && At(s0, run, |run|).procs[q] == At(s0, run, |run| - 1).procs[q]
  {
    AtNext(s0, run, |run| - 1, At(s0, run, |run| - 1));
  }

  lemma OlderReaderLeaks(s0: State, run: seq<Action>, a: nat, u: nat, code: Code)
    requires code != "" && |run| > 0 && UpdateReturns(s0, run, a, |run| - 1, u, code)
    requires OlderReader(At(s0, run, |run| - 1), code, a + 1)
    ensures LaterStale(s0, run, code, a + 1)
  {
    var s := At(s0, run, |run| - 1);
    var q :| q in s.procs && ReadsOlder(s.procs[q], code, a + 1);
    CarriedOn(s0, run, a, u, code, q);
    CarrierLeaks(s0, run, code, a + 1, q);
  }

  lemma CarrierLeaks(s0: State, run: seq<Action>, code: Code, since: nat, q: nat)
    requires code != "" && q in At(s0, run, |run|).procs && ReadsOlder(At(s0, run, |run|).procs[q], code, since)
    ensures LaterStale(s0, run, code, since)
  {
    var r := FreshPid(At(s0, run, |run|).procs.Keys);
    OlderReaderShows(s0, run, code, q, r);
    var more := [Advance(q, false), Lookup(r, code), Advance(r, false)];
    assert |run + more| == |run| + 3;
    assert StaleAnswer(s0, run, more, code, since, r);
  }

  /** The next lookup answers with a leftover entry. */
  lemma LeftoverShows(s0: State, run: seq<Action>, code: Code, since: nat, r: nat)
    requires code != "" && Leftover(At(s0, run, |run|), code, since) && r !in At(s0, run, |run|).procs
    ensures StaleAnswer(s0, run, [Lookup(r, code), Advance(r, false)], code, since, r)
    ensures var s := At(s0, run, |run|); var end := At(s0, run + [Lookup(r, code), Advance(r, false)], |run| + 2);
            r in end.procs && end.procs[r].Returned? && end.procs[r].value == s.cache[OrgKey(code)].value
  {
    var more := [Lookup(r, code), Advance(r, false)];
    AtPrefix(s0, run, more, |run|);
    var s := At(s0, run, |run|);
    AtNext(s0, run + more, |run|, s);
    AtNext(s0, run + more, |run| + 1, Next(s, more[0]));
  }

  lemma LeftoverLeaks(s0: State, run: seq<Action>, code: Code, since: nat)
    requires code != "" && Leftover(At(s0, run, |run|), code, since)
    ensures LaterStale(s0, run, code, since)
  {
    var r := FreshPid(At(s0, run, |run|).procs.Keys);
    LeftoverShows(s0, run, code, since, r);
  }

  lemma OlderLeaks(s0: State, run: seq<Action>, a: nat, u: nat, code: Code, before: State, after: State)
    requires code != "" && |run| > 0 && UpdateReturns(s0, run, a, |run| - 1, u, code)
    requires before == At(s0, run, |run| - 1) && after == At(s0, run, |run|)
    requires OlderReader(before, code, a + 1) || Leftover(after, code, a + 1)
    ensures LaterStale(s0, run, code, a + 1)
  {
    if OlderReader(before, code, a + 1) {
      OlderReaderLeaks(s0, run, a, u, code);
    } else {
      LeftoverLeaks(s0, run, code, a + 1);
    }
  }

  lemma NeverStale(s0: State, run: seq<Action>, a: nat, u: nat, code: Code)
    requires Initial(s0) && |run| > 0 && UpdateReturns(s0, run, a, |run| - 1, u, code)
    requires !OlderReader(At(s0, run, |run| - 1), code, a + 1) && !Leftover(At(s0, run, |run|), code, a + 1)
    ensures !LaterStale(s0, run, code, a + 1)
  {
    if LaterStale(s0, run, code, a + 1) {
      var more, p: nat :| StaleAnswer(s0, run, more, code, a + 1, p);
      NoStaleAnswer(s0, run, more, a, u, code, p);
    }
  }

  lemma NoStaleAnswer(s0: State, run: seq<Action>, more: seq<Action>, a: nat, u: nat, code: Code, p: nat)
    requires Initial(s0) && |run| > 0 && UpdateReturns(s0, run, a, |run| - 1, u, code)
    requires !OlderReader(At(s0, run, |run| - 1), code, a + 1) && !Leftover(At(s0, run, |run|), code, a + 1)
    ensures !StaleAnswer(s0, run, more, code, a + 1, p)
  {
    var b := |run| - 1;
    AtPrefix(s0, run, more, a);
    AtPrefix(s0, run, more, b);
    AtPrefix(s0, run, more, |run|);
    assert UpdateReturns(s0, run + more, a, b, u, code);
    if StaleAnswer(s0, run, more, code, a + 1, p) {
      assert p !in At(s0, run, b).procs;
      FreshAfterUpdate(s0, run + more, a, b, u, code, |run + more|, p);
    }
  }

  /** The condition is exact: when UpdateBranding returns (the run ends with its
      invalidation, which may have failed), a stale answer can still follow exactly when
      some lookup is still carrying an older row or the cache still serves one. */
  lemma FreshExactly(s0: State, run: seq<Action>, a: nat, u: nat, code: Code)
    requires Initial(s0) && code != "" && |run| > 0 && UpdateReturns(s0, run, a, |run| - 1, u, code)
    ensures LaterStale(s0, run, code, a + 1) <==>
            OlderReader(At(s0, run, |run| - 1), code, a + 1) || Leftover(At(s0, run, |run|), code, a + 1)
  {
    var before, after := At(s0, run, |run| - 1), At(s0, run, |run|);
    if OlderReader(before, code, a + 1) || Leftover(after, code, a + 1) {
      OlderLeaks(s0, run, a, u, code, before, after);
    } else {
      NeverStale(s0, run, a, u, code);
    }
  }

  /** A leftover takes a failed invalidation. */
  lemma LeftoverOnlyIfDeleteFailed(s0: State, run: seq<Action>, a: nat, u: nat, code: Code)
    requires Initial(s0) && |run| > 0 && UpdateReturns(s0, run, a, |run| - 1, u, code)
    requires Leftover(At(s0, run, |run|), code, a + 1)
    ensures run[|run|-1].fail
  {
    RowsRemain(s0, run, a, |run| - 1);
    AtNext(s0, run, |run| - 1, At(s0, run, |run| - 1));
  }

  /** A lookup that reads the row just before an update. */
  function Overtaken(code: Code, branding: Branding): seq<Action> {
    [Lookup(0, code), Advance(0, false), Advance(0, false), Update(1, code, branding), Advance(1, false)]
  }

  lemma AtNext(s0: State, run: seq<Action>, n: nat, s: State)
    requires n < |run| && At(s0, run, n) == s
    ensures At(s0, run, n + 1) == Next(s, run[n])
  {
  }

  lemma OvertakenSteps(s0: State, code: Code, branding: Branding)
    requires Initial(s0) && code != "" && code in s0.db && s0.db[code].active
    ensures var run := Overtaken(code, branding); var read := Read(code, s0.db[code], 2, s0.now);
            var s3 := Next(Next(Next(s0, run[0]), run[1]), run[2]); var s4 := Next(s3, run[3]);
            && s3.procs == map[0 := read] && s3.db == s0.db
            && s4.procs == map[0 := read, 1 := Updated(code)]
            && Next(s4, run[4]).procs == map[0 := read, 1 := Done]
  {
    var run := Overtaken(code, branding);
    var s1 := Next(s0, run[0]);
    assert s1 == s0.(procs := map[0 := Begun(code)], step := 1);
    var s2 := Next(s1, run[1]);
    assert s2 == s0.(procs := map[0 := Missed(code)], step := 2);
  }

  lemma OvertakenStates(s0: State, code: Code, branding: Branding)
    requires Initial(s0) && code != "" && code in s0.db && s0.db[code].active
    ensures var run := Overtaken(code, branding); var read := Read(code, s0.db[code], 2, s0.now);
            && At(s0, run, 3).procs == map[0 := read] && At(s0, run, 3).db == s0.db
            && At(s0, run, 4).procs == map[0 := read, 1 := Updated(code)]
            && At(s0, run, 5).procs == map[0 := read, 1 := Done]
  {
    var run := Overtaken(code, branding);
    var s1 := Next(s0, run[0]);
    var s2 := Next(s1, run[1]);
    var s3 := Next(s2, run[2]);
    var s4 := Next(s3, run[3]);
    AtNext(s0, run, 0, s0);
    AtNext(s0, run, 1, s1);
    AtNext(s0, run, 2, s2);
    AtNext(s0, run, 3, s3);
    AtNext(s0, run, 4, s4);
    OvertakenSteps(s0, code, branding);
  }

  lemma OvertakenReturns(s0: State, code: Code, branding: Branding)
    requires Initial(s0) && code != "" && code in s0.db && s0.db[code].active
    ensures UpdateReturns(s0, Overtaken(code, branding), 3, 4, 1, code)
    ensures OlderReader(At(s0, Overtaken(code, branding), 4), code, 4)
  {
    OvertakenStates(s0, code, branding);
    assert ReadsOlder(At(s0, Overtaken(code, branding), 4).procs[0], code, 4);
  }

  lemma OvertakenShows(s0: State, code: Code, branding: Branding)
    requires Initial(s0) && code != "" && code in s0.db && s0.db[code].active
    ensures var later := At(s0, Overtaken(code, branding) + [Advance(0, false), Lookup(2, code), Advance(2, false)], 8);
            2 in later.procs && later.procs[2].Returned? && later.procs[2].value == s0.db[code]
  {
    var run := Overtaken(code, branding);
    OvertakenStates(s0, code, branding);
    assert |run| == 5;
    OlderReaderShows(s0, run, code, 0, 2);
  }

  lemma OvertakenLeaks(s0: State, code: Code, branding: Branding)
    requires Initial(s0) && code != "" && code in s0.db && s0.db[code].active
    ensures LaterStale(s0, Overtaken(code, branding), code, 4)
  {
    OvertakenStates(s0, code, branding);
    assert |Overtaken(code, branding)| == 5;
    CarrierLeaks(s0, Overtaken(code, branding), code, 4, 0);
  }

  /** Such a run exists from every initial state and for every update: the update returns
      while a lookup carries the row it has replaced, and a later lookup answers with it. */
  lemma StaleReachable(s0: State, code: Code, branding: Branding)
    requires Initial(s0) && code != "" && code in s0.db && s0.db[code].active
    ensures UpdateReturns(s0, Overtaken(code, branding), 3, 4, 1, code)
    ensures LaterStale(s0, Overtaken(code, branding), code, 4)
    ensures var later := At(s0, Overtaken(code, branding) + [Advance(0, false), Lookup(2, code), Advance(2, false)], 8);
            2 in later.procs && later.procs[2].Returned? && later.procs[2].value == s0.db[code]
  {
    OvertakenReturns(s0, code, branding);
    OvertakenLeaks(s0, code, branding);
    OvertakenShows(s0, code, branding);
  }

  /** A cached row, and an update whose invalidation fails. */
  function Undeleted(code: Code, branding: Branding): seq<Action> {
    [Lookup(0, code), Advance(0, false), Advance(0, false), Advance(0, false),
     Update(1, code, branding), Advance(1, true)]
  }

  lemma CachedSteps(s0: State, code: Code)
    requires Initial(s0) && code != "" && code in s0.db && s0.db[code].active
    ensures var s3 := Next(Next(Next(s0, Lookup(0, code)), Advance(0, false)), Advance(0, false));
            s3 == s0.(procs := map[0 := Read(code, s0.db[code], 2, s0.now)], step := 3)
    ensures var s3 := Next(Next(Next(s0, Lookup(0, code)), Advance(0, false)), Advance(0, false));
            var s4 := Next(s3, Advance(0, false));
            && s4.procs == map[0 := Returned(code, s0.db[code], 2, s0.now, s0.now)] && s4.db == s0.db
            && s4.now == s0.now && s4.cache == map[OrgKey(code) := Entry(s0.db[code], s0.now + TTL, 2, s0.now)]
  {
    var s1 := Next(s0, Lookup(0, code));
    assert s1 == s0.(procs := map[0 := Begun(code)], step := 1);
    var s2 := Next(s1, Advance(0, false));
    assert s2 == s0.(procs := map[0 := Missed(code)], step := 2);
  }

  lemma UndeletedSteps(s4: State, code: Code, branding: Branding)
    requires 1 !in s4.procs && code in s4.db
    ensures var s5 := Next(s4, Update(1, code, branding)); var s6 := Next(s5, Advance(1, true));
            && s5.procs == s4.procs[1 := Updated(code)]
            && s6.procs == s4.procs[1 := Done] && s6.cache == s4.cache && s6.now == s4.now
  {
  }

  lemma UndeletedStates(s0: State, code: Code, branding: Branding)
    requires Initial(s0) && code != "" && code in s0.db && s0.db[code].active
    ensures var run := Undeleted(code, branding); var answer := Returned(code, s0.db[code], 2, s0.now, s0.now);
            && At(s0, run, 4).procs == map[0 := answer] && At(s0, run, 4).db == s0.db
            && At(s0, run, 5).procs == map[0 := answer, 1 := Updated(code)]
            && At(s0, run, 6).procs == map[0 := answer, 1 := Done] && At(s0, run, 6).now == s0.now
            && At(s0, run, 6).cache == map[OrgKey(code) := Entry(s0.db[code], s0.now + TTL, 2, s0.now)]
  {
    var run := Undeleted(code, branding);
    var s1 := Next(s0, run[0]);
    var s2 := Next(s1, run[1]);
    var s3 := Next(s2, run[2]);
    var s4 := Next(s3, run[3]);
    AtNext(s0, run, 0, s0);
    AtNext(s0, run, 1, s1);
    AtNext(s0, run, 2, s2);
    AtNext(s0, run, 3, s3);
    AtNext(s0, run, 4, s4);
    AtNext(s0, run, 5, Next(s4, run[4]));
    CachedSteps(s0, code);
    UndeletedSteps(s4, code, branding);
  }

  lemma UndeletedReturns(s0: State, code: Code, branding: Branding)
    requires Initial(s0) && code != "" && code in s0.db && s0.db[code].active
    ensures UpdateReturns(s0, Undeleted(code, branding), 4, 5, 1, code)
    ensures !OlderReader(At(s0, Undeleted(code, branding), 5), code, 5)
    ensures Leftover(At(s0, Undeleted(code, branding), 6), code, 5)
  {
    UndeletedStates(s0, code, branding);
  }

  lemma UndeletedShows(s0: State, code: Code, branding: Branding)
    requires Initial(s0) && code != "" && code in s0.db && s0.db[code].active
    ensures var later := At(s0, Undeleted(code, branding) + [Lookup(2, code), Advance(2, false)], 8);
            2 in later.procs && later.procs[2].Returned? && later.procs[2].value == s0.db[code]
  {
    var run := Undeleted(code, branding);
    assert |run| == 6;
    UndeletedStates(s0, code, branding);
    UndeletedReturns(s0, code, branding);
    LeftoverShows(s0, run, code, 5, 2);
  }

  /** The other way to a stale answer, from every initial state and for every update: the
      invalidation fails, no lookup carries anything, and the next lookup answers with the
      replaced row. */
  lemma FailedDeleteReachable(s0: State, code: Code, branding: Branding)
    requires Initial(s0) && code != "" && code in s0.db && s0.db[code].active
    ensures UpdateReturns(s0, Undeleted(code, branding), 4, 5, 1, code)
    ensures !OlderReader(At(s0, Undeleted(code, branding), 5), code, 5)
    ensures LaterStale(s0, Undeleted(code, branding), code, 5)
    ensures var later := At(s0, Undeleted(code, branding) + [Lookup(2, code), Advance(2, false)], 8);
            2 in later.procs && later.procs[2].Returned? && later.procs[2].value == s0.db[code]
  {
    var run := Undeleted(code, branding);
    UndeletedReturns(s0, code, branding);
    UndeletedShows(s0, code, branding);
    LeftoverLeaks(s0, run, code, 5);
  }

  // ----- One call on its own -----

  /** The operations of a lookup that fail; `garbled` is a cached value that does not
      decode. */
  datatype LookupFaults = LookupFaults(get: bool, garbled: bool, read: bool, store: bool)

  type Store = map<string, Entry>

  /** A garbled value is dropped. */
  function Kept(cache: Store, now: int, code: Code, f: LookupFaults): Store {
    if code != "" && !f.get && f.garbled && CacheGet(cache, OrgKey(code), now).Some?
    then cache - {OrgKey(code)} else cache
  }

  function Found(cache: Store, now: int, code: Code, f: LookupFaults): Option<Entry> {
    if f.get || f.garbled then None else CacheGet(cache, OrgKey(code), now)
  }

  function LookupReply(cache: Store, now: int, db: map<Code, Tenant>, code: Code, f: LookupFaults): Option<Tenant> {
    if code == "" then None
    else if Found(cache, now, code, f).Some? then Some(Found(cache, now, code, f).value.value)
    else if f.read || code !in db || !db[code].active then None
    else Some(db[code])
  }

  function LookupStore(cache: Store, now: int, db: map<Code, Tenant>, code: Code, f: LookupFaults): Store {
    if code == "" || Found(cache, now, code, f).Some? then cache
    else if LookupReply(cache, now, db, code, f).None? || f.store then Kept(cache, now, code, f)
    else CacheSet(Kept(cache, now, code, f), OrgKey(code), Entry(db[code], now + TTL, 0, now))
  }

  function UpdateRows(db: map<Code, Tenant>, code: Code, branding: Branding): map<Code, Tenant> {
    if code in db then db[code := Rebrand(db[code], branding)] else db
  }

  function UpdateStore(cache: Store, db: map<Code, Tenant>, code: Code, deleteFails: bool): Store {
    if code !in db || deleteFails then cache else cache - {OrgKey(code), IdKey(db[code].id)}
  }

  /** What a cache serves and until when. */
  function Served(cache: Store): map<string, (Tenant, int)> {
    map key | key in cache :: (cache[key].value, cache[key].expires)
  }

  function Perform(s: State, acts: seq<Action>): State
    decreases |acts|
  {
    if acts == [] then s else Perform(Next(s, acts[0]), acts[1..])
  }

  /** A whole lookup that nothing overlaps. */
  function LoneLookup(s: State, p: nat, code: Code, f: LookupFaults): seq<Action> {
    [Lookup(p, code)]
    + (if Kept(s.cache, s.now, code, f) != s.cache then [DropKey(OrgKey(code))] else [])
    + [Advance(p, f.get), Advance(p, f.read), Advance(p, f.store)]
  }

  predicate Answered(pc: Pc, reply: Option<Tenant>) {
    if reply.Some? then pc.Returned? && pc.value == reply.value else pc == NotFound
  }

  lemma PerformFirst(s: State, a: Action, rest: seq<Action>)
    ensures Perform(s, [a] + rest) == Perform(Next(s, a), rest)
  {
    assert ([a] + rest)[1..] == rest;
  }

  lemma PerformThree(s: State, a: Action, b: Action, c: Action)
    ensures Perform(s, [a, b, c]) == Next(Next(Next(s, a), b), c)
  {
    assert [a, b, c] == [a] + [b, c] && [b, c] == [b] + [c] && [c] == [c] + [];
    PerformFirst(s, a, [b, c]);
    PerformFirst(Next(s, a), b, [c]);
    PerformFirst(Next(Next(s, a), b), c, []);
  }

  /** The lookup's own steps once a garbled value has been dropped. */
  lemma LookupSteps(s: State, p: nat, code: Code, f: LookupFaults)
    requires p in s.procs && s.procs[p] == Begun(code) && code != ""
    requires f.garbled ==> f.get || CacheGet(s.cache, OrgKey(code), s.now).None?
    ensures var end := Perform(s, [Advance(p, f.get), Advance(p, f.read), Advance(p, f.store)]);
            && p in end.procs && Answered(end.procs[p], LookupReply(s.cache, s.now, s.db, code, f))
            && Served(end.cache) == Served(LookupStore(s.cache, s.now, s.db, code, f)) && end.db == s.db
  {
    PerformThree(s, Advance(p, f.get), Advance(p, f.read), Advance(p, f.store));
    var s1 := Next(s, Advance(p, f.get));
    if f.get || CacheGet(s.cache, OrgKey(code), s.now).None? {
      assert s1.procs[p] == Missed(code) && s1.cache == s.cache && s1.db == s.db && s1.now == s.now;
    } else {
      assert s1.procs[p].Returned? && s1.cache == s.cache;
    }
  }

  /** A lookup of the machine that nothing overlaps answers, and leaves the cache serving,
      what the serial lookup does, whichever of its operations fail. */
  lemma LookupAlone(s: State, p: nat, code: Code, f: LookupFaults)
    requires p !in s.procs
    ensures var end := Perform(s, LoneLookup(s, p, code, f));
            && p in end.procs && Answered(end.procs[p], LookupReply(s.cache, s.now, s.db, code, f))
            && Served(end.cache) == Served(LookupStore(s.cache, s.now, s.db, code, f)) && end.db == s.db
  {
    var steps := [Advance(p, f.get), Advance(p, f.read), Advance(p, f.store)];
    var begun := LookupBegun(s, p, code, f);
    if code == "" {
      PerformThree(begun, steps[0], steps[1], steps[2]);
    } else {
      LookupSteps(begun, p, code, f);
    }
  }

  lemma LookupBegun(s: State, p: nat, code: Code, f: LookupFaults) returns (begun: State)
    requires p !in s.procs
    ensures Perform(s, LoneLookup(s, p, code, f))
         == Perform(begun, [Advance(p, f.get), Advance(p, f.read), Advance(p, f.store)])
    ensures begun.procs == s.procs[p := if code == "" then NotFound else Begun(code)]
    ensures begun.cache == Kept(s.cache, s.now, code, f) && begun.now == s.now && begun.db == s.db
  {
    var steps := [Advance(p, f.get), Advance(p, f.read), Advance(p, f.store)];
    var s1, drop := Next(s, Lookup(p, code)), DropKey(OrgKey(code));
    if Kept(s.cache, s.now, code, f) != s.cache {
      assert LoneLookup(s, p, code, f) == [Lookup(p, code)] + ([drop] + steps);
      PerformFirst(s, Lookup(p, code), [drop] + steps);
      PerformFirst(s1, drop, steps);
      begun := Next(s1, drop);
    } else {
      assert LoneLookup(s, p, code, f) == [Lookup(p, code)] + steps;
      PerformFirst(s, Lookup(p, code), steps);
      begun := s1;
    }
  }

  /** The same for an update. */
  lemma UpdateAlone(s: State, p: nat, code: Code, branding: Branding, deleteFails: bool)
    requires p !in s.procs
    ensures var end := Perform(s, [Update(p, code, branding), Advance(p, deleteFails)]);
            && p in end.procs && end.procs[p] == Done
            && end.db == UpdateRows(s.db, code, branding) && end.cache == UpdateStore(s.cache, s.db, code, deleteFails)
  {
    PerformFirst(s, Update(p, code, branding), [Advance(p, deleteFails)]);
    PerformFirst(Next(s, Update(p, code, branding)), Advance(p, deleteFails), []);
    assert [Update(p, code, branding)] + [Advance(p, deleteFails)]
        == [Update(p, code, branding), Advance(p, deleteFails)];
    assert [Advance(p, deleteFails)] + [] == [Advance(p, deleteFails)];
  }
}
