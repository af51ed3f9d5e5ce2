/** The cache as a value: what each critical section of collector/cache.go makes of it. */
module Cache {
  import opened Prelude
  import opened Series

  // ---- policies ----

  /** Clock readings and durations count nanoseconds. */
  const SECOND: nat := 1_000_000_000
  const MINUTE: nat := 60 * SECOND

  datatype Policy = Policy(timeout: nat, maxStale: nat, required: bool)

  function PolicyFor(m: Module): Policy {
    match m
    case TenantDiscovery => Policy(60 * SECOND, 30 * MINUTE, true)
    case VSMetrics => Policy(90 * SECOND, 15 * MINUTE, true)
    case AdminVSMetrics => Policy(90 * SECOND, 15 * MINUTE, true)
    case PoolMetrics => Policy(90 * SECOND, 15 * MINUTE, true)
    case SEMetrics => Policy(90 * SECOND, 15 * MINUTE, true)
    case ControllerMetrics => Policy(90 * SECOND, 15 * MINUTE, true)
    case PoolMembers => Policy(90 * SECOND, 20 * MINUTE, true)
    case Topology => Policy(30 * SECOND, 10 * MINUTE, true)
    case _ => Policy(60 * SECOND, 10 * MINUTE, true)
  }

  // ---- module bookkeeping ----

  datatype ModuleState = ModuleState(
    lastAttempt: nat,
    lastSuccess: Option<nat>,
    attempts: nat,
    errors: nat,
    failing: bool,
    maxStale: nat,
    required: bool)
  {
    predicate IsStale(now: int) {
      lastSuccess.None? || now - lastSuccess.value > if maxStale <= 0 then 10 * MINUTE else maxStale
    }
  }

  function NewState(m: Module): ModuleState {
    ModuleState(0, None, 0, 0, false, PolicyFor(m).maxStale, PolicyFor(m).required)
  }

  // ---- gauge vectors ----

  function DeleteTenant(g: Gauges, tenant: string, groups: set<Group>): Gauges {
    map s | s in g && !(s.tenant == Some(tenant) && s.group in groups) :: g[s]
  }

  function ResetGroups(g: Gauges, groups: set<Group>): Gauges {
    map s | s in g && s.group !in groups :: g[s]
  }

  /** The value a series shows, if it exists. */
  function At(g: Gauges, s: SeriesKey): Option<real> {
    if s in g then Some(g[s]) else None
  }

  function RowAt(rows: Rows, r: Row): Option<real> {
    if r in rows then Some(rows[r]) else None
  }

  function OwnRowAt(rows: TenantRows, tenant: Option<string>, r: Row): Option<real> {
    if TenantLabel(tenant, r) in rows then Some(rows[TenantLabel(tenant, r)]) else None
  }

  /** The group's series under this tenant label are exactly the rows. */
  ghost predicate Shows(g: Gauges, group: Group, tenant: Option<string>, rows: Rows) {
    forall r :: At(g, SeriesKey(group, tenant, r)) == RowAt(rows, r)
  }

  function SeriesOf(group: Group, tenant: Option<string>, rows: Rows): (keys: set<SeriesKey>)
    ensures forall s :: s in keys <==> s.group == group && s.tenant == tenant && s.row in rows
  {
    set r | r in rows :: SeriesKey(group, tenant, r)
  }

  function Tagged(group: Group, tenant: Option<string>, rows: Rows): Gauges {
    map s | s in SeriesOf(group, tenant, rows) :: rows[s.row]
  }

  function OwnSeriesOf(group: Group, rows: TenantRows): (keys: set<SeriesKey>)
    ensures forall s :: s in keys <==> s.group == group && TenantLabel(s.tenant, s.row) in rows
  {
    set r | r in rows :: SeriesKey(group, r.tenant, r.row)
  }

  function TaggedByRow(group: Group, rows: TenantRows): Gauges {
    map s | s in OwnSeriesOf(group, rows) :: rows[TenantLabel(s.tenant, s.row)]
  }

  // ---- the cache ----

  datatype CacheState = CacheState(
    tenants: seq<string>,
    gauges: Gauges,
    up: map<string, bool>,
    states: map<ModuleKey, ModuleState>,
    scrapeTotal: map<ModuleKey, nat>,
    refreshTotal: map<ModuleKey, nat>,
    scrapeErrors: map<ModuleKey, nat>,
    refreshErrors: map<ModuleKey, nat>,
    age: map<ModuleKey, int>,
    stale: map<ModuleKey, bool>)

  const EMPTY_CACHE := CacheState([], map[], map[], map[], map[], map[], map[], map[], map[], map[])

  /** What a module's fetch writes under the lock. */
  datatype Write =
    | NoWrite
    | WriteSlice(group: Group, tenant: string, rows: Rows)
    | WriteRaw(ownRows: TenantRows)
    | WriteGlobal(group: Group, ownRows: TenantRows)
    | WriteTenants(next: seq<string>)

  function ReplaceSlice(g: Gauges, group: Group, tenant: string, rows: Rows): Gauges {
    DeleteTenant(g, tenant, {group}) + Tagged(group, Some(tenant), rows)
  }

  function ReplaceRaw(g: Gauges, rows: TenantRows): Gauges {
    DeleteTenant(g, "admin", {GVSAnalytics}) + TaggedByRow(GVSAnalytics, rows)
  }

  function ReplaceGroup(g: Gauges, group: Group, rows: TenantRows): Gauges {
    ResetGroups(g, {group}) + TaggedByRow(group, rows)
  }

  /** The entries of the tenants that are not gone. */
  function Kept<V>(m: map<ModuleKey, V>, gone: set<string>): map<ModuleKey, V> {
    map k | k in m && k.tenant !in gone :: m[k]
  }

  function KeptSeries(g: Gauges, gone: set<string>): Gauges {
    map s | s in g && !(s.tenant.Some? && s.tenant.value in gone) :: g[s]
  }

  function Drop(c: CacheState, gone: set<string>): CacheState {
    c.(gauges := KeptSeries(c.gauges, gone),
       up := c.up - gone,
       states := Kept(c.states, gone),
       scrapeTotal := Kept(c.scrapeTotal, gone),
       refreshTotal := Kept(c.refreshTotal, gone),
       scrapeErrors := Kept(c.scrapeErrors, gone),
       refreshErrors := Kept(c.refreshErrors, gone),
       age := Kept(c.age, gone),
       stale := Kept(c.stale, gone))
  }

  function Dropped(c: CacheState, next: seq<string>): set<string> {
    set t | t in c.tenants && t !in next
  }

  function SetTenants(c: CacheState, next: seq<string>): CacheState {
    Drop(c, Dropped(c, next)).(tenants := next)
  }

  function ApplyWrite(c: CacheState, w: Write): CacheState {
    match w
    case NoWrite => c
    case WriteSlice(group, tenant, rows) => c.(gauges := ReplaceSlice(c.gauges, group, tenant, rows))
    case WriteRaw(rows) => c.(gauges := ReplaceRaw(c.gauges, rows))
    case WriteGlobal(group, rows) => c.(gauges := ReplaceGroup(c.gauges, group, rows))
    case WriteTenants(next) => SetTenants(c, next)
  }

  function Count(m: map<ModuleKey, nat>, key: ModuleKey): nat {
    if key in m then m[key] else 0
  }

  function Inc(m: map<ModuleKey, nat>, key: ModuleKey): map<ModuleKey, nat> {
    m[key := Count(m, key) + 1]
  }

  function BookedState(c: CacheState, key: ModuleKey, ok: bool, finished: nat): ModuleState {
    var st := if key in c.states then c.states[key] else NewState(key.name);
    ModuleState(
      finished,
      if ok then Some(finished) else st.lastSuccess,
      st.attempts + 1,
      st.errors + if ok then 0 else 1,
      !ok,
      PolicyFor(key.name).maxStale,
      PolicyFor(key.name).required)
  }

  /** runModule's second critical section. */
  function Book(c: CacheState, key: ModuleKey, ok: bool, finished: nat): CacheState {
    c.(states := c.states[key := BookedState(c, key, ok, finished)],
       scrapeTotal := Inc(c.scrapeTotal, key),
       refreshTotal := Inc(c.refreshTotal, key),
       scrapeErrors := if ok then c.scrapeErrors else Inc(c.scrapeErrors, key),
       refreshErrors := if ok then c.refreshErrors else Inc(c.refreshErrors, key))
  }

  function SetUp(c: CacheState, tenant: string, up: bool): CacheState {
    c.(up := c.up[tenant := up])
  }

  function AgeOf(st: ModuleState, now: int): int {
    if st.lastSuccess.None? then 0 else now - st.lastSuccess.value
  }

  /** The gauge of each recorded module, recomputed for the modules in `done`. */
  function Recomputed<V>(gauge: map<ModuleKey, V>, states: map<ModuleKey, ModuleState>, done: set<ModuleKey>,
                         value: ModuleState -> V): map<ModuleKey, V> {
    map k | k in gauge.Keys + (done * states.Keys) :: if k in done && k in states then value(states[k]) else gauge[k]
  }

  /** The age and staleness gauges as a scrape recomputes them before emitting. */
  function Observe(c: CacheState, now: int): CacheState {
    c.(age := Recomputed(c.age, c.states, c.states.Keys, (st: ModuleState) => AgeOf(st, now)),
       stale := Recomputed(c.stale, c.states, c.states.Keys, (st: ModuleState) => st.IsStale(now)))
  }

  // ---- what each write shows ----

  lemma AtReplaced(g: Gauges, group: Group, tenant: string, rows: Rows, s: SeriesKey)
    ensures At(ReplaceSlice(g, group, tenant, rows), s)
            == if s.group == group && s.tenant == Some(tenant) then RowAt(rows, s.row) else At(g, s)
  {
  }

  /** A reset and re-render replaces the whole group, under every tenant label. */
  lemma AtGlobal(g: Gauges, group: Group, rows: TenantRows, s: SeriesKey)
    ensures At(ReplaceGroup(g, group, rows), s)
            == if s.group == group then OwnRowAt(rows, s.tenant, s.row) else At(g, s)
  {
  }

  lemma AtRaw(g: Gauges, rows: TenantRows, s: SeriesKey)
    ensures At(ReplaceRaw(g, rows), s)
            == if s.group == GVSAnalytics && (s.tenant == Some("admin") || OwnRowAt(rows, s.tenant, s.row).Some?)
               then OwnRowAt(rows, s.tenant, s.row)
               else At(g, s)
  {
  }

  lemma AtDropped(c: CacheState, gone: set<string>, s: SeriesKey)
    ensures At(Drop(c, gone).gauges, s)
            == if s.tenant.Some? && s.tenant.value in gone then None else At(c.gauges, s)
  {
  }

  /** Raw analytics rows name no tenant but admin. */
  ghost predicate OnlyAdminRows(rows: TenantRows) {
    forall r :: r in rows ==> r.tenant == Some("admin")
  }

  /** The write leaves the analytics of every tenant but admin as they are. */
  ghost predicate StaysInAdmin(c: CacheState, w: Write) {
    forall s: SeriesKey :: s.group == GVSAnalytics && s.tenant != Some("admin") ==>
      At(ApplyWrite(c, w).gauges, s) == At(c.gauges, s)
  }

  /** Rendering the raw admin analytics leaves every other tenant's analytics as they are, on every
      cache, exactly when the response names no other tenant. */
  lemma RawWriteStaysInAdmin(rows: TenantRows)
    ensures OnlyAdminRows(rows) <==> forall c: CacheState :: StaysInAdmin(c, WriteRaw(rows))
  {
    forall c: CacheState, s: SeriesKey {
      AtRaw(c.gauges, rows, s);
    }
    if !OnlyAdminRows(rows) {
      var r :| r in rows && r.tenant != Some("admin");
      var s := SeriesKey(GVSAnalytics, r.tenant, r.row);
      AtRaw(EMPTY_CACHE.gauges, rows, s);
      assert r == TenantLabel(r.tenant, r.row);
      assert At(ApplyWrite(EMPTY_CACHE, WriteRaw(rows)).gauges, s) != At(EMPTY_CACHE.gauges, s);
      assert !StaysInAdmin(EMPTY_CACHE, WriteRaw(rows));
    }
  }

  // ---- setTenantsLocked ----

  /** After the tenant list is replaced no series, flag, counter or module state of a dropped tenant
      remains. */
  lemma DroppedTenantLeavesNothing(c: CacheState, next: seq<string>, t: string)
    requires t in c.tenants && t !in next
    ensures var d := SetTenants(c, next);
            && (forall s :: s in d.gauges ==> s.tenant != Some(t))
            && t !in d.up
            && (forall k :: (k in d.states || k in d.scrapeTotal || k in d.refreshTotal || k in d.scrapeErrors
                             || k in d.refreshErrors || k in d.age || k in d.stale) ==> k.tenant != t)
  {
    assert t in Dropped(c, next);
  }

  /** Kept tenants, tenants never listed and the series without a tenant label are untouched. */
  lemma KeptTenantsUntouched(c: CacheState, next: seq<string>, s: SeriesKey, k: ModuleKey)
    ensures var d := SetTenants(c, next);
            && (s.tenant.None? || s.tenant.value in next || s.tenant.value !in c.tenants
                ==> At(d.gauges, s) == At(c.gauges, s))
            && (k.tenant in next || k.tenant !in c.tenants
                ==> && (k in d.states <==> k in c.states)
                    && (k in d.states ==> d.states[k] == c.states[k])
                    && Count(d.scrapeTotal, k) == Count(c.scrapeTotal, k)
                    && Count(d.refreshTotal, k) == Count(c.refreshTotal, k)
                    && Count(d.scrapeErrors, k) == Count(c.scrapeErrors, k)
                    && Count(d.refreshErrors, k) == Count(c.refreshErrors, k)
                    && (k.tenant in d.up <==> k.tenant in c.up)
                    && (k.tenant in d.up ==> d.up[k.tenant] == c.up[k.tenant]))
  {
    AtDropped(c, Dropped(c, next), s);
  }

  // ---- counters ----

  /** The counters and the state of one module tell the same story; an unrecorded module has none. */
  ghost predicate KeyAgrees(c: CacheState, k: ModuleKey) {
    if k !in c.states then
      && k !in c.scrapeTotal && k !in c.refreshTotal && k !in c.scrapeErrors && k !in c.refreshErrors
      && k !in c.age && k !in c.stale
    else
      && k in c.scrapeTotal && c.scrapeTotal[k] == c.states[k].attempts
      && k in c.refreshTotal && c.refreshTotal[k] == c.states[k].attempts
      && Count(c.scrapeErrors, k) == c.states[k].errors
      && Count(c.refreshErrors, k) == c.states[k].errors
      && StateAgrees(c.states[k], k)
  }

  ghost predicate StateAgrees(st: ModuleState, k: ModuleKey) {
    && st.errors <= st.attempts && 0 < st.attempts
    && (st.lastSuccess.None? <==> st.errors == st.attempts)
    && (st.lastSuccess.Some? ==> st.lastSuccess.value <= st.lastAttempt)
    && (!st.failing ==> st.lastSuccess == Some(st.lastAttempt))
    && (st.failing ==> st.errors > 0)
    && st.maxStale == PolicyFor(k.name).maxStale && st.required == PolicyFor(k.name).required
  }

  ghost predicate CountersAgree(c: CacheState) {
    forall k :: KeyAgrees(c, k)
  }

  lemma CountersAgreeWrite(c: CacheState, w: Write)
    requires CountersAgree(c)
    ensures CountersAgree(ApplyWrite(c, w))
  {
    hide StateAgrees;
    forall k ensures KeyAgrees(ApplyWrite(c, w), k) {
      assert KeyAgrees(c, k);
    }
  }

  /** A booking counts one more attempt, counts an error or takes the time as that of the last success,
      and leaves every other module's record and counters alone. */
  lemma BookedExactly(c: CacheState, key: ModuleKey, ok: bool, finished: nat, k: ModuleKey)
    ensures var d := Book(c, key, ok, finished);
            if k == key then
              && k in d.states
              && d.states[k].attempts == (if k in c.states then c.states[k].attempts else 0) + 1
              && d.states[k].errors == (if k in c.states then c.states[k].errors else 0) + (if ok then 0 else 1)
              && d.states[k].lastAttempt == finished && d.states[k].failing == !ok
              && d.states[k].lastSuccess
                 == (if ok then Some(finished) else if k in c.states then c.states[k].lastSuccess else None)
              && Count(d.scrapeTotal, k) == Count(c.scrapeTotal, k) + 1
              && Count(d.refreshTotal, k) == Count(c.refreshTotal, k) + 1
              && Count(d.scrapeErrors, k) == Count(c.scrapeErrors, k) + (if ok then 0 else 1)
              && Count(d.refreshErrors, k) == Count(c.refreshErrors, k) + (if ok then 0 else 1)
            else
              && (k in d.states <==> k in c.states) && (k in d.states ==> d.states[k] == c.states[k])
              && Count(d.scrapeTotal, k) == Count(c.scrapeTotal, k) && Count(d.refreshTotal, k) == Count(c.refreshTotal, k)
              && Count(d.scrapeErrors, k) == Count(c.scrapeErrors, k) && Count(d.refreshErrors, k) == Count(c.refreshErrors, k)
  {
  }

  lemma StateAgreesBooked(c: CacheState, key: ModuleKey, ok: bool, finished: nat)
    requires key in c.states ==> StateAgrees(c.states[key], key) && c.states[key].lastAttempt <= finished
    ensures StateAgrees(BookedState(c, key, ok, finished), key)
  {
    hide PolicyFor;
  }

  lemma BookedCounts(c: CacheState, key: ModuleKey, ok: bool, finished: nat)
    ensures BookedState(c, key, ok, finished).attempts == (if key in c.states then c.states[key].attempts else 0) + 1
    ensures BookedState(c, key, ok, finished).errors
            == (if key in c.states then c.states[key].errors else 0) + (if ok then 0 else 1)
  {
    hide PolicyFor;
  }

  lemma IncCounts(m: map<ModuleKey, nat>, key: ModuleKey)
    ensures Inc(m, key).Keys == m.Keys + {key}
    ensures Count(Inc(m, key), key) == Count(m, key) + 1
    ensures forall k :: k != key ==> Count(Inc(m, key), k) == Count(m, k)
  {
  }

  /** The counters of the booked module. */
  lemma BookedAgrees(c: CacheState, key: ModuleKey, ok: bool, finished: nat)
    requires KeyAgrees(c, key)
    requires key in c.states ==> c.states[key].lastAttempt <= finished
    ensures KeyAgrees(Book(c, key, ok, finished), key)
  {
    StateAgreesBooked(c, key, ok, finished);
    BookedCounts(c, key, ok, finished);
    hide StateAgrees, BookedState;
  }

  /** The counters of any other module. */
  lemma UnbookedAgrees(c: CacheState, key: ModuleKey, ok: bool, finished: nat, k: ModuleKey)
    requires KeyAgrees(c, k) && k != key
    ensures KeyAgrees(Book(c, key, ok, finished), k)
  {
    hide StateAgrees, BookedState, Inc;
    IncCounts(c.scrapeTotal, key);
    IncCounts(c.refreshTotal, key);
    IncCounts(c.scrapeErrors, key);
    IncCounts(c.refreshErrors, key);
    hide Count;
    IncElsewhere(c.scrapeTotal, key, k);
    IncElsewhere(c.refreshTotal, key, k);
  }

  lemma IncElsewhere(m: map<ModuleKey, nat>, key: ModuleKey, k: ModuleKey)
    requires k != key
    ensures k in Inc(m, key) <==> k in m
    ensures k in m ==> Inc(m, key)[k] == m[k]
  {
  }

  lemma CountersAgreeBook(c: CacheState, key: ModuleKey, ok: bool, finished: nat)
    requires CountersAgree(c)
    requires key in c.states ==> c.states[key].lastAttempt <= finished
    ensures CountersAgree(Book(c, key, ok, finished))
  {
    hide KeyAgrees, Book;
    forall k ensures KeyAgrees(Book(c, key, ok, finished), k) {
      assert KeyAgrees(c, k);
      if k == key {
        BookedAgrees(c, key, ok, finished);
      } else {
        UnbookedAgrees(c, key, ok, finished, k);
      }
    }
  }

  lemma CountersAgreeObserve(c: CacheState, now: int)
    requires CountersAgree(c)
    ensures CountersAgree(Observe(c, now))
    ensures Observe(c, now).age.Keys == c.states.Keys && Observe(c, now).stale.Keys == c.states.Keys
  {
    hide StateAgrees, AgeOf, ModuleState.IsStale, Count;
    assert c.age.Keys <= c.states.Keys && c.stale.Keys <= c.states.Keys by {
      forall k ensures k !in c.states ==> k !in c.age && k !in c.stale {
        assert KeyAgrees(c, k);
      }
    }
    var d := Observe(c, now);
    assert d.age.Keys == c.states.Keys && d.stale.Keys == c.states.Keys;
    forall k ensures KeyAgrees(d, k) {
      assert KeyAgrees(c, k);
    }
  }

  // ---- steps of different tenants commute ----

  lemma SlicesCommute(g: Gauges, g1: Group, t1: string, r1: Rows, g2: Group, t2: string, r2: Rows)
    requires t1 != t2
    ensures ReplaceSlice(ReplaceSlice(g, g1, t1, r1), g2, t2, r2) == ReplaceSlice(ReplaceSlice(g, g2, t2, r2), g1, t1, r1)
  {
    hide ReplaceSlice;
    forall s ensures At(ReplaceSlice(ReplaceSlice(g, g1, t1, r1), g2, t2, r2), s)
                     == At(ReplaceSlice(ReplaceSlice(g, g2, t2, r2), g1, t1, r1), s) {
      AtReplaced(g, g1, t1, r1, s);
      AtReplaced(ReplaceSlice(g, g1, t1, r1), g2, t2, r2, s);
      AtReplaced(g, g2, t2, r2, s);
      AtReplaced(ReplaceSlice(g, g2, t2, r2), g1, t1, r1, s);
    }
    SameGauges(ReplaceSlice(ReplaceSlice(g, g1, t1, r1), g2, t2, r2), ReplaceSlice(ReplaceSlice(g, g2, t2, r2), g1, t1, r1));
  }

  lemma SameGauges(a: Gauges, b: Gauges)
    requires forall s :: At(a, s) == At(b, s)
    ensures a == b
  {
    forall s ensures s in a <==> s in b {
      assert At(a, s) == At(b, s);
    }
    forall s | s in a ensures a[s] == b[s] {
      assert At(a, s) == At(b, s);
    }
  }

  lemma UpdatesCommute<K, V>(m: map<K, V>, k1: K, v1: V, k2: K, v2: V)
    requires k1 != k2
    ensures m[k1 := v1][k2 := v2] == m[k2 := v2][k1 := v1]
  {
  }

  lemma BookedElsewhere(c: CacheState, k1: ModuleKey, ok1: bool, f1: nat, k2: ModuleKey, ok2: bool, f2: nat)
    requires k1 != k2
    ensures BookedState(Book(c, k1, ok1, f1), k2, ok2, f2) == BookedState(c, k2, ok2, f2)
  {
    hide PolicyFor;
  }

  lemma BooksCommute(c: CacheState, k1: ModuleKey, ok1: bool, f1: nat, k2: ModuleKey, ok2: bool, f2: nat)
    requires k1 != k2
    ensures Book(Book(c, k1, ok1, f1), k2, ok2, f2) == Book(Book(c, k2, ok2, f2), k1, ok1, f1)
  {
    hide BookedState, Inc;
    BookedElsewhere(c, k1, ok1, f1, k2, ok2, f2);
    BookedElsewhere(c, k2, ok2, f2, k1, ok1, f1);
    UpdatesCommute(c.states, k1, BookedState(c, k1, ok1, f1), k2, BookedState(c, k2, ok2, f2));
    IncsCommute(c.scrapeTotal, k1, k2);
    IncsCommute(c.refreshTotal, k1, k2);
    IncsCommute(c.scrapeErrors, k1, k2);
    IncsCommute(c.refreshErrors, k1, k2);
  }

  lemma IncsCommute(m: map<ModuleKey, nat>, k1: ModuleKey, k2: ModuleKey)
    requires k1 != k2
    ensures Inc(Inc(m, k1), k2) == Inc(Inc(m, k2), k1)
  {
    UpdatesCommute(m, k1, Count(m, k1) + 1, k2, Count(m, k2) + 1);
  }
}
