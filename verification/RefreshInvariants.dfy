/** What holds in every reachable state of the refresh protocol, at every point where a scrape or a
    readiness check may look. */
module RefreshInvariants {
  import opened Prelude
  import opened Series
  import opened Tenants
  import opened Cache
  import opened Refresh
  import opened Snapshots

  // ---- what the gauges should show ----

  function RowOf(rows: Option<Rows>, r: Row): Option<real> {
    if rows.Some? then RowAt(rows.value, r) else None
  }

  function OwnRowOf(rows: Option<TenantRows>, tenant: Option<string>, r: Row): Option<real> {
    if rows.Some? then OwnRowAt(rows.value, tenant, r) else None
  }

  /** The rendering of the last successful writer's answers. A tenant's slice that nobody wrote, or
      that was dropped with its tenant, is empty but for the rows that raw admin analytics have left
      there since; the rows a controller-wide group has for a tenant dropped since its last reset are
      gone. */
  function Expected(env: Env, l: Ledger, s: SeriesKey): Option<real> {
    if PerTenant(s.group) then Either(StrayRow(env, l, s.group, s.tenant, s.row), ExpectedSlice(env, l, s))
    else ExpectedGlobal(env, l, s)
  }

  function Either(first: Option<real>, second: Option<real>): Option<real> {
    if first.Some? then first else second
  }

  /** How many raw writes had been when this label's analytics were last deleted. */
  function Since(l: Ledger, tenant: Option<string>): nat {
    if tenant.Some? && tenant.value in l.cleared then l.cleared[tenant.value] else 0
  }

  /** The raw writes that came after the last deletion under this label. */
  function RawsSince(l: Ledger, tenant: Option<string>): seq<nat> {
    if Since(l, tenant) <= |l.raws| then l.raws[Since(l, tenant)..] else []
  }

  /** What the last of these raw answers that has the row says. */
  function LastRaw(env: Env, runs: seq<nat>, tenant: Option<string>, r: Row): Option<real> {
    if runs == [] then None
    else
      var n := |runs| - 1;
      Either(OwnRowOf(env.controller.ownRows(runs[n], AdminVSMetrics), tenant, r), LastRaw(env, runs[..n], tenant, r))
  }

  /** A row that raw admin analytics have left with another tenant. */
  function StrayRow(env: Env, l: Ledger, g: Group, tenant: Option<string>, r: Row): Option<real> {
    if g == GVSAnalytics then LastRaw(env, RawsSince(l, tenant), tenant, r) else None
  }

  function ExpectedSlice(env: Env, l: Ledger, s: SeriesKey): Option<real> {
    if s.tenant.None? then None
    else
      var n := SliceName(s.group, s.tenant.value);
      if n in l.slices then RowOf(Rendering(env, l.slices[n], n.group, n.tenant), s.row) else None
  }

  function ExpectedGlobal(env: Env, l: Ledger, s: SeriesKey): Option<real> {
    if s.group !in l.globals then None
    else if s.tenant.Some? && s.tenant.value in l.globals[s.group].dropped then None
    else OwnRowOf(GlobalRendering(env, l.globals[s.group].run, s.group), s.tenant, s.row)
  }

  ghost predicate Agrees(env: Env, c: CacheState, l: Ledger) {
    forall s: SeriesKey :: At(c.gauges, s) == Expected(env, l, s)
  }

  ghost predicate GoodSlice(env: Env, run: nat, n: SliceName, source: Source) {
    PerTenant(n.group) && source.run <= run && Rendering(env, source, n.group, n.tenant).Some?
  }

  ghost predicate GoodGlobal(env: Env, run: nat, g: Group, source: nat) {
    !PerTenant(g) && source <= run && GlobalRendering(env, source, g).Some?
  }

  ghost predicate GoodRaw(env: Env, run: nat, source: nat) {
    source <= run && env.controller.ownRows(source, AdminVSMetrics).Some?
  }

  /** Raw analytics are written by successful fetches, and only where they are collected at all. */
  ghost predicate GoodRaws(env: Env, run: nat, l: Ledger) {
    && (forall i :: 0 <= i < |l.raws| ==> GoodRaw(env, run, l.raws[i]))
    && (l.raws != [] ==> Wildcard(env.configured) && On(env, VSMetrics) && On(env, AdminVSMetrics))
    && (forall t :: t in l.cleared ==> l.cleared[t] <= |l.raws|)
    && Since(l, Some("admin")) == |l.raws|
  }

  /** Every source is a successful fetch of a refresh that has started. */
  ghost predicate Sourced(env: Env, run: nat, l: Ledger) {
    && (forall n :: n in l.slices ==> GoodSlice(env, run, n, l.slices[n]))
    && (forall g :: g in l.globals ==> GoodGlobal(env, run, g, l.globals[g].run))
    && GoodRaws(env, run, l)
  }

  // ---- what the cache holds at all ----

  predicate LiveKey(live: seq<string>, k: ModuleKey) {
    k.tenant == "" || k.tenant in live || k == ModuleKey(AdminVSMetrics, "admin")
  }

  /** States, flags and slices belong to live tenants, the controller, or the raw admin analytics. */
  ghost predicate Resident(c: CacheState, l: Ledger) {
    && (forall k :: k in c.states ==> LiveKey(c.tenants, k))
    && (forall t :: t in c.up ==> t in c.tenants)
    && (forall n :: n in l.slices ==> n.tenant in c.tenants || (n == SliceName(GVSAnalytics, "admin") && l.raws != []))
  }

  ghost predicate Attempted(c: CacheState, now: nat) {
    forall k :: k in c.states ==> c.states[k].lastAttempt <= now
  }

  ghost predicate GoodTenants(c: CacheState) {
    StrictlySorted(c.tenants) && "" !in c.tenants
  }

  // ---- one effect ----

  /** What agents do to the cache. */
  ghost predicate Admissible(env: Env, run: nat, c: CacheState, e: Effect, now: nat) {
    match e
    case Nothing => true
    case Writes(NoWrite) => true
    case Writes(WriteSlice(g, t, rows)) => t in c.tenants && PerTenant(g) && Rendering(env, FromTenant(run), g, t) == Some(rows)
    case Writes(WriteGlobal(g, rows)) => !PerTenant(g) && GlobalRendering(env, run, g) == Some(rows)
    case Writes(WriteRaw(rows)) =>
      && env.controller.ownRows(run, AdminVSMetrics) == Some(rows)
      && Wildcard(env.configured) && On(env, VSMetrics) && On(env, AdminVSMetrics)
    case Writes(WriteTenants(next)) => StrictlySorted(next) && "" !in next
    case Books(key, _, at) =>
      LiveKey(c.tenants, key) && at <= now && (key in c.states ==> c.states[key].lastAttempt <= at)
    case PublishesUp(t, _) => t in c.tenants
  }

  lemma ShownRaw(env: Env, run: nat, rows: TenantRows, r: Row)
    requires env.controller.ownRows(run, AdminVSMetrics) == Some(rows)
    ensures RowOf(Rendering(env, FromAdmin(run), GVSAnalytics, "admin"), r) == OwnRowAt(rows, Some("admin"), r)
  {
  }

  lemma AgreesStays(env: Env, run: nat, c: CacheState, l: Ledger, e: Effect, now: nat)
    requires Agrees(env, c, l) && GoodRaws(env, run, l) && Admissible(env, run, c, e, now)
    ensures Agrees(env, ApplyEffect(c, e), LedgerEffect(l, c, e, run))
  {
    hide Rendering, GlobalRendering, PerTenant, Book, SetUp, GoodRaws, LastRaw, LedgerWrite, ApplyWrite;
    forall s: SeriesKey
      ensures At(ApplyEffect(c, e).gauges, s) == Expected(env, LedgerEffect(l, c, e, run), s)
    {
      assert At(c.gauges, s) == Expected(env, l, s);
      match e
      case Writes(w) => ExpectedAfterWrite(env, run, c, l, w, now, s);
      case Books(key, ok, at) => assert Book(c, key, ok, at).gauges == c.gauges by { BookKeepsGauges(c, key, ok, at); }
      case PublishesUp(t, up) => assert SetUp(c, t, up).gauges == c.gauges by { UpKeepsGauges(c, t, up); }
      case Nothing =>
    }
  }

  lemma BookKeepsGauges(c: CacheState, key: ModuleKey, ok: bool, at: nat)
    ensures Book(c, key, ok, at).gauges == c.gauges && Book(c, key, ok, at).up == c.up
            && Book(c, key, ok, at).tenants == c.tenants
  {
    hide BookedState, Inc;
  }

  lemma UpKeepsGauges(c: CacheState, t: string, up: bool)
    ensures SetUp(c, t, up).gauges == c.gauges
  {
  }

  lemma ExpectedAfterWrite(env: Env, run: nat, c: CacheState, l: Ledger, w: Write, now: nat, s: SeriesKey)
    requires At(c.gauges, s) == Expected(env, l, s) && GoodRaws(env, run, l)
    requires Admissible(env, run, c, Writes(w), now)
    ensures At(ApplyWrite(c, w).gauges, s) == Expected(env, LedgerWrite(l, c, w, run), s)
  {
    hide Rendering, GlobalRendering, ReplaceSlice, ReplaceRaw, ReplaceGroup, Drop, Dropped, LastRaw, GoodRaws, StrayRow, PerTenant;
    match w
    case NoWrite =>
    case WriteSlice(g, t, rows) =>
      AtReplaced(c.gauges, g, t, rows, s);
      StrayAfterSlice(env, run, l, g, t, s);
    case WriteRaw(rows) =>
      AtRaw(c.gauges, rows, s);
      ExpectedAfterRaw(env, run, l, rows, s);
    case WriteGlobal(g, rows) =>
      AtGlobal(c.gauges, g, rows, s);
      assert StrayRow(env, LedgerWrite(l, c, w, run), s.group, s.tenant, s.row) == StrayRow(env, l, s.group, s.tenant, s.row) by {
        SameRaws(env, l, LedgerWrite(l, c, w, run), s);
      }
    case WriteTenants(next) =>
      AtDropped(c, Dropped(c, next), s);
      StrayAfterDrop(env, l, Dropped(c, next), s);
  }

  lemma AnalyticsPerTenant()
    ensures PerTenant(GVSAnalytics)
  {
  }

  lemma SameRaws(env: Env, l: Ledger, m: Ledger, s: SeriesKey)
    requires l.raws == m.raws && Since(l, s.tenant) == Since(m, s.tenant)
    ensures StrayRow(env, m, s.group, s.tenant, s.row) == StrayRow(env, l, s.group, s.tenant, s.row)
  {
  }

  lemma StrayAfterSlice(env: Env, run: nat, l: Ledger, g: Group, t: string, s: SeriesKey)
    ensures StrayRow(env, LedgerSlice(l, g, t, run), s.group, s.tenant, s.row)
            == if s.group == g && s.tenant == Some(t) then None else StrayRow(env, l, s.group, s.tenant, s.row)
  {
    var m := LedgerSlice(l, g, t, run);
    if g == GVSAnalytics && s.tenant == Some(t) {
      assert RawsSince(m, s.tenant) == [];
    } else {
      SameRaws(env, l, m, s);
    }
  }

  lemma StrayAfterRaw(env: Env, run: nat, l: Ledger, rows: TenantRows, s: SeriesKey)
    requires env.controller.ownRows(run, AdminVSMetrics) == Some(rows) && GoodRaws(env, run, l)
    ensures StrayRow(env, LedgerRaw(l, run), s.group, s.tenant, s.row)
            == if s.group != GVSAnalytics || s.tenant == Some("admin") then None
               else Either(OwnRowAt(rows, s.tenant, s.row), StrayRow(env, l, s.group, s.tenant, s.row))
  {
    var m := LedgerRaw(l, run);
    if s.tenant == Some("admin") {
      assert RawsSince(m, s.tenant) == [];
    } else {
      var before, after := RawsSince(l, s.tenant), RawsSince(m, s.tenant);
      assert after == before + [run];
      assert after[..|after| - 1] == before;
    }
  }

  lemma ExpectedAfterRaw(env: Env, run: nat, l: Ledger, rows: TenantRows, s: SeriesKey)
    requires env.controller.ownRows(run, AdminVSMetrics) == Some(rows) && GoodRaws(env, run, l)
    ensures Expected(env, LedgerRaw(l, run), s)
            == if s.group == GVSAnalytics && (s.tenant == Some("admin") || OwnRowAt(rows, s.tenant, s.row).Some?)
               then OwnRowAt(rows, s.tenant, s.row)
               else Expected(env, l, s)
  {
    ShownRaw(env, run, rows, s.row);
    StrayAfterRaw(env, run, l, rows, s);
    hide StrayRow, GoodRaws, PerTenant, GlobalRendering, OwnRowAt, Rendering;
    assert PerTenant(GVSAnalytics) by { AnalyticsPerTenant(); }
    if s.group == GVSAnalytics && s.tenant == Some("admin") {
      assert ExpectedSlice(env, LedgerRaw(l, run), s) == OwnRowAt(rows, s.tenant, s.row);
    } else {
      assert ExpectedSlice(env, LedgerRaw(l, run), s) == ExpectedSlice(env, l, s);
      assert ExpectedGlobal(env, LedgerRaw(l, run), s) == ExpectedGlobal(env, l, s);
    }
  }

  lemma StrayAfterDrop(env: Env, l: Ledger, gone: set<string>, s: SeriesKey)
    ensures StrayRow(env, LedgerDrop(l, gone), s.group, s.tenant, s.row)
            == if s.tenant.Some? && s.tenant.value in gone then None else StrayRow(env, l, s.group, s.tenant, s.row)
  {
    var m := LedgerDrop(l, gone);
    if s.tenant.Some? && s.tenant.value in gone {
      assert RawsSince(m, s.tenant) == [];
    } else {
      SameRaws(env, l, m, s);
    }
  }

  lemma SourcedStays(env: Env, run: nat, c: CacheState, l: Ledger, e: Effect, now: nat)
    requires Sourced(env, run, l) && Admissible(env, run, c, e, now)
    ensures Sourced(env, run, LedgerEffect(l, c, e, run))
  {
    hide GoodSlice, GoodGlobal, GoodRaws, Admissible, LedgerWrite;
    if e.Writes? {
      SourcesStay(env, run, c, l, e.write, now);
      RawsStay(env, run, c, l, e.write, now);
    } else {
      RawsAsBefore(env, run, l, LedgerEffect(l, c, e, run));
    }
  }

  lemma SourcesStay(env: Env, run: nat, c: CacheState, l: Ledger, w: Write, now: nat)
    requires Sourced(env, run, l) && Admissible(env, run, c, Writes(w), now)
    ensures var m := LedgerWrite(l, c, w, run);
            && (forall n :: n in m.slices ==> GoodSlice(env, run, n, m.slices[n]))
            && (forall g :: g in m.globals ==> GoodGlobal(env, run, g, m.globals[g].run))
  {
    SourceIsGood(env, run, c, w, now);
    hide GoodSlice, GoodGlobal, GoodRaws, Admissible, Dropped;
  }

  lemma RawsAsBefore(env: Env, run: nat, l: Ledger, m: Ledger)
    requires GoodRaws(env, run, l) && m.raws == l.raws && m.cleared == l.cleared
    ensures GoodRaws(env, run, m)
  {
    hide GoodRaw;
  }

  lemma RawsStay(env: Env, run: nat, c: CacheState, l: Ledger, w: Write, now: nat)
    requires GoodRaws(env, run, l) && Admissible(env, run, c, Writes(w), now)
    ensures GoodRaws(env, run, LedgerWrite(l, c, w, run))
  {
    assert w.WriteRaw? ==> GoodRaw(env, run, run);
    hide Rendering, GlobalRendering, PerTenant, Dropped, GoodRaw;
  }

  lemma SourceIsGood(env: Env, run: nat, c: CacheState, w: Write, now: nat)
    requires Admissible(env, run, c, Writes(w), now)
    ensures match w
            case WriteSlice(g, t, _) => GoodSlice(env, run, SliceName(g, t), FromTenant(run))
            case WriteRaw(_) => GoodSlice(env, run, SliceName(GVSAnalytics, "admin"), FromAdmin(run))
            case WriteGlobal(g, _) => GoodGlobal(env, run, g, run)
            case _ => true
  {
    hide TenantRendering, GlobalRendering;
  }

  lemma SetTenantsShape(c: CacheState, next: seq<string>, k: ModuleKey)
    ensures var d := SetTenants(c, next);
            && d.tenants == next && d.up == c.up - Dropped(c, next)
            && (k in d.states <==> k in c.states && k.tenant !in Dropped(c, next))
            && (k in d.states ==> d.states[k] == c.states[k])
  {
    hide Dropped;
  }

  lemma BookShape(c: CacheState, key: ModuleKey, ok: bool, at: nat)
    ensures Book(c, key, ok, at).states == c.states[key := BookedState(c, key, ok, at)]
    ensures Book(c, key, ok, at).tenants == c.tenants && Book(c, key, ok, at).up == c.up
  {
    hide BookedState, Inc;
  }

  lemma WriteShape(c: CacheState, w: Write)
    requires !w.WriteTenants?
    ensures var d := ApplyWrite(c, w); d.states == c.states && d.tenants == c.tenants && d.up == c.up
  {
    hide ReplaceSlice, ReplaceRaw, ReplaceGroup, SetTenants;
  }

  /** An effect reaches the states of a dropped tenant's modules and of the module it books. */
  lemma StatesAfter(c: CacheState, e: Effect, k: ModuleKey)
    ensures var d := ApplyEffect(c, e);
            match e
            case Writes(WriteTenants(next)) =>
              (k in d.states <==> k in c.states && k.tenant !in Dropped(c, next)) && (k in d.states ==> d.states[k] == c.states[k])
            case Books(key, ok, at) =>
              if k == key then k in d.states && d.states[k] == BookedState(c, key, ok, at)
              else (k in d.states <==> k in c.states) && (k in d.states ==> d.states[k] == c.states[k])
            case _ => d.states == c.states
  {
    hide SetTenants, Dropped, Book, BookedState;
    match e
    case Writes(WriteTenants(next)) => SetTenantsShape(c, next, k);
    case Writes(w) => hide ApplyWrite; WriteShape(c, w);
    case Books(key, ok, at) => BookShape(c, key, ok, at);
    case _ =>
  }

  /** An effect reaches the tenants only by replacing the list. */
  lemma TenantsAfter(c: CacheState, e: Effect)
    ensures var d := ApplyEffect(c, e);
            match e
            case Writes(WriteTenants(next)) => d.tenants == next && d.up == c.up - Dropped(c, next)
            case PublishesUp(t, up) => d.tenants == c.tenants && d.up == c.up[t := up]
            case _ => d.tenants == c.tenants && d.up == c.up
  {
    hide SetTenants, Dropped, Book;
    match e
    case Writes(WriteTenants(next)) => SetTenantsShape(c, next, ModuleKey(TenantDiscovery, ""));
    case Writes(w) => hide ApplyWrite; WriteShape(c, w);
    case Books(key, ok, at) => BookShape(c, key, ok, at);
    case _ =>
  }

  lemma LiveStays(env: Env, run: nat, c: CacheState, l: Ledger, e: Effect, now: nat, k: ModuleKey)
    requires Resident(c, l) && Admissible(env, run, c, e, now) && k in ApplyEffect(c, e).states
    ensures LiveKey(ApplyEffect(c, e).tenants, k)
  {
    TenantsAfter(c, e);
    StatesAfter(c, e, k);
    hide Rendering, GlobalRendering, ApplyEffect, BookedState, PerTenant;
  }

  lemma ResidentStays(env: Env, run: nat, c: CacheState, l: Ledger, e: Effect, now: nat)
    requires Resident(c, l) && Admissible(env, run, c, e, now)
    ensures Resident(ApplyEffect(c, e), LedgerEffect(l, c, e, run))
  {
    TenantsAfter(c, e);
    forall k | k in ApplyEffect(c, e).states ensures LiveKey(ApplyEffect(c, e).tenants, k) {
      LiveStays(env, run, c, l, e, now, k);
    }
    hide Rendering, GlobalRendering, ApplyEffect, PerTenant, LiveKey;
  }

  lemma AttemptedStays(env: Env, run: nat, c: CacheState, e: Effect, now: nat)
    requires Attempted(c, now) && Admissible(env, run, c, e, now)
    ensures Attempted(ApplyEffect(c, e), now)
  {
    forall k | k in ApplyEffect(c, e).states ensures ApplyEffect(c, e).states[k].lastAttempt <= now {
      StatesAfter(c, e, k);
      hide Rendering, GlobalRendering, ApplyEffect, PerTenant, LiveKey;
    }
  }

  lemma CountersStay(env: Env, run: nat, c: CacheState, e: Effect, now: nat)
    requires CountersAgree(c) && Admissible(env, run, c, e, now)
    ensures CountersAgree(ApplyEffect(c, e))
  {
    hide Rendering, GlobalRendering, PerTenant, LiveKey, CountersAgree, ApplyWrite, Book;
    match e
    case Writes(w) => CountersAgreeWrite(c, w);
    case Books(key, ok, at) => CountersAgreeBook(c, key, ok, at);
    case PublishesUp(t, up) => CountersAgreeUp(c, t, up);
    case Nothing =>
  }

  lemma CountersAgreeUp(c: CacheState, t: string, up: bool)
    requires CountersAgree(c)
    ensures CountersAgree(SetUp(c, t, up))
  {
    hide StateAgrees;
    forall k ensures KeyAgrees(SetUp(c, t, up), k) {
      assert KeyAgrees(c, k);
    }
  }

  /** What the shared part of the system keeps. */
  ghost predicate StoreInv(env: Env, run: nat, c: CacheState, l: Ledger, now: nat) {
    && GoodTenants(c)
    && CountersAgree(c)
    && Attempted(c, now)
    && Resident(c, l)
    && Sourced(env, run, l)
    && Agrees(env, c, l)
  }

  lemma StoreStays(env: Env, run: nat, c: CacheState, l: Ledger, e: Effect, now: nat)
    requires StoreInv(env, run, c, l, now) && Admissible(env, run, c, e, now)
    ensures StoreInv(env, run, ApplyEffect(c, e), LedgerEffect(l, c, e, run), now)
  {
    hide CountersAgree, Attempted, Resident, Sourced, Agrees, GoodRaws, GoodTenants, Admissible, ApplyEffect, LedgerEffect;
    CountersStay(env, run, c, e, now);
    AttemptedStays(env, run, c, e, now);
    ResidentStays(env, run, c, l, e, now);
    SourcedStays(env, run, c, l, e, now);
    SourcedRaws(env, run, l);
    AgreesStays(env, run, c, l, e, now);
    GoodTenantsStay(env, run, c, e, now);
  }

  lemma SourcedRaws(env: Env, run: nat, l: Ledger)
    requires Sourced(env, run, l)
    ensures GoodRaws(env, run, l)
  {
    hide GoodRaws, GoodSlice, GoodGlobal;
  }

  lemma GoodTenantsStay(env: Env, run: nat, c: CacheState, e: Effect, now: nat)
    requires GoodTenants(c) && Admissible(env, run, c, e, now)
    ensures GoodTenants(ApplyEffect(c, e))
  {
    TenantsAfter(c, e);
    hide ApplyEffect, Rendering, GlobalRendering, PerTenant, LiveKey;
  }
}
