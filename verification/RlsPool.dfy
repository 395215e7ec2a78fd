/** Row-level security over a shared connection pool: the contexts of
    internal/database/rls_context.go, the BeforeAcquire hook of postgres.go and the
    policies of migrations/029_rls_policies.sql, which read a blank identifier as NULL.
    Tenant and user identifiers are UUID texts or blank, so that these casts do not fail;
    the tables of migrations/042_engagement.sql, whose policies cast a blank, are not part
    of this model. */
module RlsPool {
  import opened Wrappers

  // ----- Contexts -----

  datatype Key = TenantId | UserId | SuperAdmin | PublicLookup
  datatype Value = Text(text: string) | Flag(flag: bool)

  /** A chain of values; the innermost one wins. */
  datatype Ctx = Background | WithValue(parent: Ctx, key: Key, value: Value)

  function ValueOf(ctx: Ctx, key: Key): Option<Value> {
    match ctx
    case Background => None
    case WithValue(parent, k, v) => if k == key then Some(v) else ValueOf(parent, key)
  }

  function WithTenant(ctx: Ctx, tenant: string, user: string): Ctx {
    WithValue(WithValue(ctx, TenantId, Text(tenant)), UserId, Text(user))
  }

  function WithSuperAdmin(ctx: Ctx): Ctx {
    WithValue(ctx, SuperAdmin, Flag(true))
  }

  function WithPublicLookup(ctx: Ctx): Ctx {
    WithValue(ctx, PublicLookup, Flag(true))
  }

  /** A missing value, or one of another type, reads as blank or false. */
  function TextOf(ctx: Ctx, key: Key): string {
    match ValueOf(ctx, key)
    case Some(Text(t)) => t
    case _ => ""
  }

  function FlagOf(ctx: Ctx, key: Key): bool {
    match ValueOf(ctx, key)
    case Some(Flag(b)) => b
    case _ => false
  }

  // ----- Sessions and policies -----

  /** The session variables that the policies read; one never set reads as blank. */
  datatype Session = Session(tenantId: string, userId: string, superAdmin: string, publicLookup: string)

  function BoolGUC(b: bool): string {
    if b then "true" else "false"
  }

  /** What the hook writes on every acquire. */
  function SessionFor(ctx: Ctx): Session {
    Session(TextOf(ctx, TenantId), TextOf(ctx, UserId),
            BoolGUC(FlagOf(ctx, SuperAdmin)), BoolGUC(FlagOf(ctx, PublicLookup)))
  }

  datatype Row =
    | Scoped(table: string, tenant: string)
    | Tenant(id: string)
    | Membership(tenant: string, user: string)

  predicate CurrentTenantIs(s: Session, tenant: string) {
    s.tenantId != "" && s.tenantId == tenant
  }

  /** The SELECT policies; any one of them makes a row visible. */
  predicate Visible(s: Session, row: Row) {
    s.superAdmin == "true" ||
    match row
    case Scoped(_, tenant) => CurrentTenantIs(s, tenant)
    case Tenant(id) => CurrentTenantIs(s, id) || s.publicLookup == "true"
    case Membership(tenant, user) => CurrentTenantIs(s, tenant) || (s.userId != "" && s.userId == user)
  }

  function VisibleRows(s: Session, rows: set<Row>): set<Row> {
    set r | r in rows && Visible(s, r)
  }

  /** A context with no row-security values sees no row at all. */
  lemma {:induction false} BareContextSeesNothing(ctx: Ctx, rows: set<Row>)
    requires forall k :: ValueOf(ctx, k).None?
    ensures VisibleRows(SessionFor(ctx), rows) == {}
  {
    assert ValueOf(ctx, TenantId).None? && ValueOf(ctx, UserId).None?;
    assert ValueOf(ctx, SuperAdmin).None? && ValueOf(ctx, PublicLookup).None?;
    assert "false" != "true" by {
      assert "false"[0] == 'f' && "true"[0] == 't';
    }
  }

  /** WithTenant fixes the tenant and user whatever the context held before; unless the
      context was already a super-admin one, exactly that tenant's rows, its own tenant
      record (every record in a public-lookup context) and the user's memberships show. */
  lemma TenantScope(ctx: Ctx, tenant: string, user: string, row: Row)
    requires tenant != "" && !FlagOf(ctx, SuperAdmin)
    ensures Visible(SessionFor(WithTenant(ctx, tenant, user)), row) <==>
            match row
            case Scoped(_, t) => t == tenant
            case Tenant(id) => id == tenant || FlagOf(ctx, PublicLookup)
            case Membership(t, u) => t == tenant || (user != "" && u == user)
  {
    assert "false"[0] == 'f' && "true"[0] == 't';
    assert ValueOf(WithTenant(ctx, tenant, user), UserId) == Some(Text(user));
    assert ValueOf(WithTenant(ctx, tenant, user), TenantId) == Some(Text(tenant)) by {
      assert ValueOf(WithValue(ctx, TenantId, Text(tenant)), TenantId) == Some(Text(tenant));
    }
    assert ValueOf(WithTenant(ctx, tenant, user), SuperAdmin) == ValueOf(ctx, SuperAdmin);
    assert ValueOf(WithTenant(ctx, tenant, user), PublicLookup) == ValueOf(ctx, PublicLookup);
  }

  /** WithSuperAdmin shows every row, whatever the context held before and whatever is
      added to it that is not itself a super-admin value. */
  lemma SuperAdminScope(ctx: Ctx, row: Row, key: Key, value: Value)
    ensures Visible(SessionFor(WithSuperAdmin(ctx)), row)
    ensures key != SuperAdmin ==> Visible(SessionFor(WithValue(WithSuperAdmin(ctx), key, value)), row)
  {
    assert ValueOf(WithSuperAdmin(ctx), SuperAdmin) == Some(Flag(true));
  }

  /** WithPublicLookup adds exactly the tenant records to what the context shows. */
  lemma PublicLookupScope(ctx: Ctx, row: Row)
    ensures Visible(SessionFor(WithPublicLookup(ctx)), row) <==> Visible(SessionFor(ctx), row) || row.Tenant?
  {
    assert "false"[0] == 'f' && "true"[0] == 't';
    var added := WithPublicLookup(ctx);
    assert ValueOf(added, PublicLookup) == Some(Flag(true));
    assert ValueOf(added, TenantId) == ValueOf(ctx, TenantId);
    assert ValueOf(added, UserId) == ValueOf(ctx, UserId);
    assert ValueOf(added, SuperAdmin) == ValueOf(ctx, SuperAdmin);
  }

  // ----- A connection, as the hook and direct set_config calls change it -----

  class Connection {
    var tenantId: string
    var userId: string
    var superAdmin: string
    var publicLookup: string

    constructor ()
      ensures Value() == Session("", "", "", "")
    {
      tenantId, userId, superAdmin, publicLookup := "", "", "", "";
    }

    function Value(): Session
      reads this
    {
      Session(tenantId, userId, superAdmin, publicLookup)
    }

    method SetConfig(key: Key, value: string)
      modifies this
      ensures Value() == Assign(old(Value()), key, value)
    {
      match key
      case TenantId => tenantId := value;
      case UserId => userId := value;
      case SuperAdmin => superAdmin := value;
      case PublicLookup => publicLookup := value;
    }

    /** The BeforeAcquire hook: all four variables or, on an error, a rejection. */
    method BeforeAcquire(ctx: Ctx, execFails: bool) returns (ok: bool)
      modifies this
      ensures ok == !execFails
      ensures Value() == if ok then SessionFor(ctx) else old(Value())
    {
      var tenant, user := TextOf(ctx, TenantId), TextOf(ctx, UserId);
      var isSuperAdmin, isPublicLookup := FlagOf(ctx, SuperAdmin), FlagOf(ctx, PublicLookup);
      if execFails {
        return false;
      }
      SetConfig(TenantId, tenant);
      SetConfig(UserId, user);
      SetConfig(SuperAdmin, BoolGUC(isSuperAdmin));
      SetConfig(PublicLookup, BoolGUC(isPublicLookup));
      return true;
    }
  }

  function Assign(s: Session, key: Key, value: string): Session {
    match key
    case TenantId => s.(tenantId := value)
    case UserId => s.(userId := value)
    case SuperAdmin => s.(superAdmin := value)
    case PublicLookup => s.(publicLookup := value)
  }

  // ----- The pool -----

  type Conn = nat
  type Client = nat

  datatype Pool = Pool(sessions: map<Conn, Session>, held: map<Client, Conn>)

  /** The pool chooses the connection; a hook failure destroys it. */
  datatype Event =
    | Connect(conn: Conn)
    | Acquire(client: Client, conn: Conn, ctx: Ctx)
    | HookFails(conn: Conn)
    | SetConfig(client: Client, key: Key, value: string)
    | Query(client: Client)
    | Release(client: Client)

  predicate Idle(p: Pool, conn: Conn) {
    conn in p.sessions && conn !in p.held.Values
  }

  predicate Enabled(p: Pool, e: Event) {
    match e
    case Connect(conn) => conn !in p.sessions
    case Acquire(client, conn, _) => client !in p.held && Idle(p, conn)
    case HookFails(conn) => Idle(p, conn)
    case SetConfig(client, _, _) => client in p.held && p.held[client] in p.sessions
    case Query(client) => client in p.held
    case Release(client) => client in p.held
  }

  function Step(p: Pool, e: Event): Pool
    requires Enabled(p, e)
  {
    match e
    case Connect(conn) => p.(sessions := p.sessions[conn := Session("", "", "", "")])
    case Acquire(client, conn, ctx) =>
      Pool(p.sessions[conn := SessionFor(ctx)], p.held[client := conn])
    case HookFails(conn) => p.(sessions := p.sessions - {conn})
    case SetConfig(client, key, value) =>
      p.(sessions := p.sessions[p.held[client] := Assign(p.sessions[p.held[client]], key, value)])
    case Query(client) => p
    case Release(client) => p.(held := p.held - {client})
  }

  ghost predicate Possible(p: Pool, events: seq<Event>) {
    events == [] ||
    (Possible(p, events[..|events|-1]) && Enabled(After(p, events[..|events|-1]), events[|events|-1]))
  }

  ghost function After(p: Pool, events: seq<Event>): Pool {
    if events == [] then p
    else
      var q := After(p, events[..|events|-1]);
      if Enabled(q, events[|events|-1]) then Step(q, events[|events|-1]) else q
  }

  ghost predicate Exclusive(p: Pool) {
    && (forall c :: c in p.held ==> p.held[c] in p.sessions)
    && (forall c, d :: c in p.held && d in p.held && c != d ==> p.held[c] != p.held[d])
  }

  /** Connections may start with any leftover settings, but nobody holds one. */
  ghost predicate Initial(p: Pool) {
    p.held == map[]
  }

  // ----- What one client did, without the connections it was given -----

  datatype Own = Acquired(ctx: Ctx) | Configured(key: Key, value: string) | Queried | Released

  function OwnOf(client: Client, e: Event): seq<Own> {
    match e
    case Acquire(c, _, ctx) => if c == client then [Acquired(ctx)] else []
    case SetConfig(c, k, v) => if c == client then [Configured(k, v)] else []
    case Query(c) => if c == client then [Queried] else []
    case Release(c) => if c == client then [Released] else []
    case _ => []
  }

  function OwnPart(client: Client, events: seq<Event>): seq<Own> {
    if events == [] then [] else OwnPart(client, events[..|events|-1]) + OwnOf(client, events[|events|-1])
  }

  /** The session a client would have on a connection of its own. */
  function OwnSession(own: seq<Own>): Session {
    if own == [] then Session("", "", "", "")
    else
      match own[|own|-1]
      case Acquired(ctx) => SessionFor(ctx)
      case Configured(k, v) => Assign(OwnSession(own[..|own|-1]), k, v)
      case _ => OwnSession(own[..|own|-1])
  }

  /** The rows shown by each of a client's queries, in order. */
  ghost function Seen(p: Pool, client: Client, events: seq<Event>, rows: set<Row>): seq<set<Row>> {
    if events == [] then []
    else
      var front := events[..|events|-1];
      var q := After(p, front);
      Seen(p, client, front, rows) +
      if events[|events|-1] == Query(client) && client in q.held && q.held[client] in q.sessions
      then [VisibleRows(q.sessions[q.held[client]], rows)]
      else []
  }

  function OwnSeen(own: seq<Own>, rows: set<Row>): seq<set<Row>> {
    if own == [] then []
    else
      var front := own[..|own|-1];
      OwnSeen(front, rows) + if own[|own|-1].Queried? then [VisibleRows(OwnSession(front), rows)] else []
  }

  ghost predicate Follows(p: Pool, client: Client, own: seq<Own>) {
    client in p.held ==> p.held[client] in p.sessions && p.sessions[p.held[client]] == OwnSession(own)
  }

  lemma StepExclusive(p: Pool, e: Event)
    requires Exclusive(p) && Enabled(p, e)
    ensures Exclusive(Step(p, e))
  {
    var p' := Step(p, e);
    if e.Acquire? {
      forall c | c in p.held ensures p.held[c] != e.conn {
        assert p.held[c] in p.held.Values;
      }
    }
    if e.HookFails? {
      forall c | c in p.held ensures p.held[c] != e.conn {
        assert p.held[c] in p.held.Values;
      }
    }
  }

  lemma StepFollows(p: Pool, e: Event, client: Client, own: seq<Own>, own': seq<Own>)
    requires Exclusive(p) && Enabled(p, e) && Follows(p, client, own)
    requires own' == own + match e
                           case Acquire(c, _, ctx) => if c == client then [Acquired(ctx)] else []
                           case SetConfig(c, k, v) => if c == client then [Configured(k, v)] else []
                           case Query(c) => if c == client then [Queried] else []
                           case Release(c) => if c == client then [Released] else []
                           case _ => []
    ensures Follows(Step(p, e), client, own')
  {
    if own' == own {
    } else {
      assert own'[..|own'|-1] == own;
    }
    if client in p.held {
      assert p.held[client] in p.held.Values;
    }
  }

  /** Whatever the other clients did, a client's connection carries exactly the session
      that its own acquires and set_config calls produce. */
  lemma {:induction false} SessionIsOwn(p: Pool, client: Client, events: seq<Event>)
    requires Initial(p) && Possible(p, events)
    ensures Exclusive(After(p, events))
    ensures Follows(After(p, events), client, OwnPart(client, events))
  {
    if events != [] {
      var front, e := events[..|events|-1], events[|events|-1];
      SessionIsOwn(p, client, front);
      StepExclusive(After(p, front), e);
      StepFollows(After(p, front), e, client, OwnPart(client, front), OwnPart(client, events));
    }
  }

  lemma SeenNext(p: Pool, client: Client, front: seq<Event>, e: Event, own: seq<Own>, rows: set<Row>)
    requires Follows(After(p, front), client, own) && Enabled(After(p, front), e)
    requires Seen(p, client, front, rows) == OwnSeen(own, rows)
    ensures Seen(p, client, front + [e], rows) == OwnSeen(own + OwnOf(client, e), rows)
  {
    assert (front + [e])[..|front|] == front;
    if OwnOf(client, e) == [] {
      assert own + OwnOf(client, e) == own;
    } else {
      var next := own + OwnOf(client, e);
      assert next[..|own|] == own && next[|next|-1] == OwnOf(client, e)[0];
    }
  }

  lemma {:induction false} SeenIsOwn(p: Pool, client: Client, events: seq<Event>, rows: set<Row>)
    requires Initial(p) && Possible(p, events)
    ensures Seen(p, client, events, rows) == OwnSeen(OwnPart(client, events), rows)
  {
    if events != [] {
      var front, e := events[..|events|-1], events[|events|-1];
      SeenIsOwn(p, client, front, rows);
      SessionIsOwn(p, client, front);
      SeenNext(p, client, front, e, OwnPart(client, front), rows);
      assert front + [e] == events;
    }
  }

  /** Non-interference: two histories of the pool in which a client does the same things
      show it the same rows, whatever the other clients do and whichever connections,
      with whatever leftover settings, the pool hands out. */
  lemma NonInterference(p: Pool, q: Pool, client: Client, one: seq<Event>, two: seq<Event>, rows: set<Row>)
    requires Initial(p) && Initial(q) && Possible(p, one) && Possible(q, two)
    requires OwnPart(client, one) == OwnPart(client, two)
    ensures Seen(p, client, one, rows) == Seen(q, client, two, rows)
  {
    SeenIsOwn(p, client, one, rows);
    SeenIsOwn(q, client, two, rows);
  }

  lemma OwnPartNext(client: Client, events: seq<Event>, e: Event)
    ensures OwnPart(client, events + [e]) == OwnPart(client, events) + OwnOf(client, e)
  {
    assert (events + [e])[..|events|] == events;
  }

  lemma {:induction false} PossiblePrefix(p: Pool, a: seq<Event>, b: seq<Event>)
    requires Possible(p, a + b)
    ensures Possible(p, a)
  {
    if b == [] {
      assert a + b == a;
    } else {
      assert (a + b)[..|a + b|-1] == a + b[..|b|-1];
      PossiblePrefix(p, a, b[..|b|-1]);
    }
  }

  /** The event is another client's, or the pool's own. */
  predicate Foreign(client: Client, e: Event) {
    e.Connect? || e.HookFails? || e.client != client
  }

  lemma {:induction false} NothingOwn(client: Client, events: seq<Event>, others: seq<Event>)
    requires forall e :: e in others ==> Foreign(client, e)
    ensures OwnPart(client, events + others) == OwnPart(client, events)
  {
    if others == [] {
      assert events + others == events;
    } else {
      var front, e := others[..|others|-1], others[|others|-1];
      assert e in others && events + others == (events + front) + [e];
      NothingOwn(client, events, front);
      OwnPartNext(client, events + front, e);
    }
  }

  lemma QueryOwnPart(client: Client, history: seq<Event>, conn: Conn, ctx: Ctx, others: seq<Event>)
    requires forall e :: e in others ==> Foreign(client, e)
    ensures OwnPart(client, history + [Acquire(client, conn, ctx)] + others + [Query(client)])
         == OwnPart(client, history) + [Acquired(ctx)] + [Queried]
  {
    OwnPartNext(client, history, Acquire(client, conn, ctx));
    NothingOwn(client, history + [Acquire(client, conn, ctx)], others);
    OwnPartNext(client, history + [Acquire(client, conn, ctx)] + others, Query(client));
  }

  lemma OwnSeenLast(own: seq<Own>, ctx: Ctx, rows: set<Row>)
    ensures OwnSeen(own + [Acquired(ctx)] + [Queried], rows)
         == OwnSeen(own, rows) + [VisibleRows(SessionFor(ctx), rows)]
  {
    var acquired := own + [Acquired(ctx)];
    assert acquired[..|own|] == own && (acquired + [Queried])[..|acquired|] == acquired;
  }

  /** A query through the pool acquires a connection and queries it. Whatever happened
      before, and whatever the others do in between, it shows exactly what its own context
      allows. */
  lemma PoolQuery(p: Pool, history: seq<Event>, client: Client, conn: Conn, ctx: Ctx, others: seq<Event>,
                  rows: set<Row>)
    requires Initial(p) && Possible(p, history + [Acquire(client, conn, ctx)] + others + [Query(client)])
    requires forall e :: e in others ==> Foreign(client, e)
    ensures Seen(p, client, history + [Acquire(client, conn, ctx)] + others + [Query(client)], rows)
         == Seen(p, client, history, rows) + [VisibleRows(SessionFor(ctx), rows)]
  {
    var acquire := [Acquire(client, conn, ctx)];
    PossiblePrefix(p, history + acquire + others, [Query(client)]);
    PossiblePrefix(p, history + acquire, others);
    PossiblePrefix(p, history, acquire);
    QueryOwnPart(client, history, conn, ctx, others);
    OwnSeenLast(OwnPart(client, history), ctx, rows);
    SeenIsOwn(p, client, history, rows);
    SeenIsOwn(p, client, history + acquire + others + [Query(client)], rows);
  }
}
