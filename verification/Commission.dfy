/** The commission agreement between the platform and a tenant: proposals, consent and billing mode. */
module Commission {
  import opened Wrappers

  datatype Tier = Starter | Pro | Business
  datatype BillingType = SubscriptionBilling | OneTimeBilling | CommissionBilling

  datatype Tenant = Tenant(
    tier: Tier, billingType: BillingType, commissionEnabled: bool,
    commissionPct: Option<real>, pendingPct: Option<real>,
    proposedAt: Option<int>, acceptedAt: Option<int>)

  /** A field of a JSON body: missing, an explicit null, or a value. */
  datatype Field<T> = Undefined | Null | Value(value: T)

  datatype NewTenant = NewTenant(tier: Option<Tier>, commissionEnabled: Option<bool>, commissionPct: Field<real>)
  datatype TenantChange = TenantChange(tier: Option<Tier>, billingType: Option<BillingType>, commissionPct: Field<real>)

  function Nullable<T>(f: Field<T>): Option<T> {
    match f
    case Value(v) => Some(v)
    case _ => None
  }

  /** Commission can only be enabled here, and never on the starter tier; a given percentage starts at once. */
  function Created(dto: NewTenant, now: int): Result<Tenant> {
    var tier := OrElse(dto.tier, Starter);
    var enabled := OrElse(dto.commissionEnabled, false);
    if enabled && tier == Starter then Err(BadRequest)
    else if enabled && dto.commissionPct.Value? then
      Ok(Tenant(tier, CommissionBilling, enabled, Some(dto.commissionPct.value), None, None, Some(now)))
    else Ok(Tenant(tier, SubscriptionBilling, enabled, None, None, None, None))
  }

  /** The first percentage is fixed at once; any different one later is only a proposal. Sending the active
      percentage again changes nothing, and an explicit null withdraws a proposal. */
  function WithPercentage(t: Tenant, pct: Field<real>, now: int): Tenant {
    if pct == Undefined then t
    else if t.commissionPct.None? then
      t.(commissionPct := Nullable(pct), acceptedAt := Some(now), pendingPct := None, proposedAt := None)
    else if Nullable(pct) != t.commissionPct then t.(pendingPct := Nullable(pct), proposedAt := Some(now))
    else t
  }

  function Changed(t: Tenant, dto: TenantChange, now: int): Result<Tenant> {
    var tier := OrElse(dto.tier, t.tier);
    var billing := OrElse(dto.billingType, t.billingType);
    if billing == CommissionBilling && (!t.commissionEnabled || tier == Starter) then Err(BadRequest)
    else Ok(WithPercentage(t, dto.commissionPct, now).(tier := tier, billingType := billing))
  }

  function Accepted(t: Tenant, now: int): Result<Tenant> {
    if t.pendingPct.None? then Err(BadRequest)
    else Ok(t.(commissionPct := t.pendingPct, acceptedAt := Some(now), pendingPct := None, proposedAt := None))
  }

  function Rejected(t: Tenant): Result<Tenant> {
    if t.pendingPct.None? then Err(BadRequest) else Ok(t.(pendingPct := None, proposedAt := None))
  }

  // ── Runs of one tenant row ────────────────────────────────────────────────

  datatype Step = UpdateBy(dto: TenantChange, at: int) | AcceptAt(at: int) | Reject

  function Attempt(t: Tenant, st: Step): Result<Tenant> {
    match st
    case UpdateBy(dto, at) => Changed(t, dto, at)
    case AcceptAt(at) => Accepted(t, at)
    case Reject => Rejected(t)
  }

  function Apply(t: Tenant, st: Step): Tenant {
    After(t, Attempt(t, st))
  }

  function Run(t: Tenant, run: seq<Step>): Tenant {
    if run == [] then t else Apply(Run(t, run[..|run| - 1]), run[|run| - 1])
  }

  /** A pending percentage is a change of an active one, and commission billing has its conditions. */
  predicate TenantOk(t: Tenant) {
    && (t.pendingPct.Some? ==> t.commissionPct.Some? && t.pendingPct != t.commissionPct)
    && (t.billingType == CommissionBilling ==> t.commissionEnabled && t.tier != Starter)
  }

  lemma {:induction false} RunKeepsTenantOk(t: Tenant, run: seq<Step>)
    requires TenantOk(t)
    ensures TenantOk(Run(t, run)) && Run(t, run).commissionEnabled == t.commissionEnabled
  {
    if run != [] {
      RunKeepsTenantOk(t, run[..|run| - 1]);
    }
  }

  lemma CreatedIsOk(dto: NewTenant, now: int)
    requires Created(dto, now).Ok?
    ensures TenantOk(Created(dto, now).value) && Created(dto, now).value.pendingPct.None?
  {}

  /** A new tenant is refused exactly when commission is asked for on the starter tier. It bills by commission exactly
      when that is enabled with a percentage, which is active and accepted at once. */
  lemma CreatedEffect(dto: NewTenant, now: int)
    ensures var r := Created(dto, now);
            var enabled := dto.commissionEnabled == Some(true);
            var starts := enabled && dto.commissionPct.Value?;
            && (r.Err? <==> enabled && (dto.tier == None || dto.tier == Some(Starter)))
            && (r.Err? ==> r == Err(BadRequest))
            && (r.Ok? ==>
                  && r.value.tier == (if dto.tier.Some? then dto.tier.value else Starter)
                  && r.value.commissionEnabled == enabled && r.value.pendingPct.None? && r.value.proposedAt.None?
                  && (starts ==> r.value.billingType == CommissionBilling && r.value.acceptedAt == Some(now)
                                 && r.value.commissionPct == Some(dto.commissionPct.value))
                  && (!starts ==> r.value.billingType == SubscriptionBilling && r.value.acceptedAt.None?
                                  && r.value.commissionPct.None?))
  {}

  /** What an update does to the percentages: the first one is active and accepted at once; a different one, null
      included, becomes the proposal and leaves the active one; the active one sent again, or none, changes nothing.
      The rest of the agreement is stored as sent, commission billing only where enabled above starter. */
  lemma UpdateEffect(t: Tenant, dto: TenantChange, at: int)
    ensures var r, sent := Attempt(t, UpdateBy(dto, at)), dto.commissionPct;
            var tier := if dto.tier.Some? then dto.tier.value else t.tier;
            var billing := if dto.billingType.Some? then dto.billingType.value else t.billingType;
            && (r.Ok? <==> (billing == CommissionBilling ==> t.commissionEnabled && tier != Starter))
            && (r.Err? ==> r == Err(BadRequest))
            && (r.Ok? ==>
                  && var u := r.value;
                  && u.tier == tier && u.billingType == billing && u.commissionEnabled == t.commissionEnabled
                  && (t.commissionPct.None? && sent.Value? ==>
                        u.commissionPct == Some(sent.value) && u.acceptedAt == Some(at)
                        && u.pendingPct.None? && u.proposedAt.None?)
                  && (t.commissionPct.Some? ==> u.commissionPct == t.commissionPct && u.acceptedAt == t.acceptedAt)
                  && (t.commissionPct.Some? && sent.Value? && sent.value != t.commissionPct.value ==>
                        u.pendingPct == Some(sent.value) && u.proposedAt == Some(at))
                  && (t.commissionPct.Some? && sent.Null? ==> u.pendingPct.None? && u.proposedAt == Some(at))
                  && (sent.Undefined? || (sent.Value? && t.commissionPct == Some(sent.value)) ==>
                        u == t.(tier := tier, billingType := billing)))
  {}

  /** Accepting makes exactly the pending percentage active, rejecting keeps the active one; both need a proposal and
      take it off the table. */
  lemma DecisionEffect(t: Tenant, at: int)
    ensures var r := Attempt(t, AcceptAt(at));
            && (r.Ok? <==> t.pendingPct.Some?) && (r.Err? ==> r == Err(BadRequest))
            && (r.Ok? ==> r.value == t.(commissionPct := Some(t.pendingPct.value), acceptedAt := Some(at),
                                        pendingPct := None, proposedAt := None))
    ensures var r := Attempt(t, Reject);
            && (r.Ok? <==> t.pendingPct.Some?) && (r.Err? ==> r == Err(BadRequest))
            && (r.Ok? ==> r.value == t.(pendingPct := None, proposedAt := None))
  {}

  /** The step is an accepted update naming exactly this percentage. */
  predicate Proposes(t: Tenant, st: Step, pct: real) {
    st.UpdateBy? && st.dto.commissionPct == Value(pct) && Attempt(t, st).Ok?
  }

  /** Since step `i` proposed the percentage, it stayed on the table: it was pending after every later step, so
      none of them accepted, rejected, withdrew or replaced it. */
  predicate Outstanding(t: Tenant, run: seq<Step>, i: nat, pct: real) {
    && i < |run| && Proposes(Run(t, run[..i]), run[i], pct)
    && forall j :: i < j <= |run| ==> Run(t, run[..j]).pendingPct == Some(pct)
  }

  /** Every pending percentage is the latest proposal of the platform, still outstanding. */
  lemma {:induction false} PendingWasProposed(t: Tenant, run: seq<Step>)
    requires TenantOk(t) && t.pendingPct.None?
    ensures Run(t, run).pendingPct.Some? ==> exists i: nat :: Outstanding(t, run, i, Run(t, run).pendingPct.value)
  {
    if run != [] && Run(t, run).pendingPct.Some? {
      var init, last := run[..|run| - 1], run[|run| - 1];
      var before, pct := Run(t, init), Run(t, run).pendingPct.value;
      PendingWasProposed(t, init);
      RunKeepsTenantOk(t, init);
      assert run[..|run|] == run && run[..|init|] == init;
      if before.pendingPct == Some(pct) {
        var i: nat :| Outstanding(t, init, i, pct);
        assert forall j :: 0 <= j <= |init| ==> run[..j] == init[..j];
        assert Outstanding(t, run, i, pct);
      } else {
        assert Proposes(before, last, pct);
        assert Outstanding(t, run, |init|, pct);
      }
    }
  }

  /** Consent: once a percentage is active, a step changes it exactly when it accepts with a proposal outstanding, and
      then to the percentage that an earlier accepted update proposed and that stayed outstanding until then. It never
      becomes null again. */
  lemma ActiveChangesOnlyByConsent(t: Tenant, run: seq<Step>, st: Step)
    requires TenantOk(t) && t.pendingPct.None?
    requires Run(t, run).commissionPct.Some?
    ensures var before, after := Run(t, run), Apply(Run(t, run), st);
            && after.commissionPct.Some?
            && (after.commissionPct != before.commissionPct <==> st.AcceptAt? && before.pendingPct.Some?)
            && (after.commissionPct != before.commissionPct ==>
                  && after.commissionPct == before.pendingPct
                  && after.acceptedAt == Some(st.at) && after.pendingPct.None?
                  && exists i: nat :: Outstanding(t, run, i, after.commissionPct.value))
  {
    PendingWasProposed(t, run);
    RunKeepsTenantOk(t, run);
  }

  /** An active percentage survives every run, as some percentage. */
  lemma {:induction false} ActiveStaysActive(t: Tenant, run: seq<Step>)
    requires TenantOk(t) && t.commissionPct.Some?
    ensures Run(t, run).commissionPct.Some?
  {
    if run != [] {
      ActiveStaysActive(t, run[..|run| - 1]);
      RunKeepsTenantOk(t, run[..|run| - 1]);
    }
  }

  // ── The services ──────────────────────────────────────────────────────────

  class TenantTable {
    var now: int
    var tenants: map<nat, Tenant>

    constructor (now: int)
      ensures this.now == now && tenants == map[]
    {
      this.now, tenants := now, map[];
    }
  }

  /** A call on one row: unknown tenants are rejected, other rows are untouched. */
  function OnRow(tenants: map<nat, Tenant>, id: nat, st: Step): Result<map<nat, Tenant>> {
    if id !in tenants then Err(NotFound)
    else
      match Attempt(tenants[id], st)
      case Err(e) => Err(e)
      case Ok(row) => Ok(tenants[id := row])
  }

  class PlatformTenantsService {
    const table: TenantTable

    constructor (table: TenantTable)
      ensures this.table == table
    {
      this.table := table;
    }

    method Create(id: nat, dto: NewTenant) returns (r: Result<()>)
      modifies table
      ensures table.now == old(table.now)
      ensures if id in old(table.tenants) then table.tenants == old(table.tenants) && r == Err(Conflict)
              else
                var created := Created(dto, table.now);
                && r == Outcome(created)
                && table.tenants == if created.Ok? then old(table.tenants)[id := created.value] else old(table.tenants)
    {
      if id in table.tenants {
        return Err(Conflict);
      }
      var tier := OrElse(dto.tier, Starter);
      if OrElse(dto.commissionEnabled, false) && tier == Starter {
        return Err(BadRequest);
      }
      var commissionEnabled := OrElse(dto.commissionEnabled, false);
      var startsOnCommission := commissionEnabled && dto.commissionPct.Value?;
      var row := Tenant(tier, SubscriptionBilling, commissionEnabled, None, None, None, None);
      if startsOnCommission {
        row := row.(billingType := CommissionBilling, commissionPct := Some(dto.commissionPct.value),
                    acceptedAt := Some(table.now));
      }
      table.tenants := table.tenants[id := row];
      r := Ok(());
    }

    /** `proposed` is the change the owner is notified of. */
    method Update(id: nat, dto: TenantChange) returns (r: Result<()>, proposed: Option<(real, Option<real>)>)
      modifies table
      ensures table.now == old(table.now)
      ensures var result := OnRow(old(table.tenants), id, UpdateBy(dto, old(table.now)));
              table.tenants == After(old(table.tenants), result) && r == Outcome(result)
      ensures proposed.Some? <==>
                && r.Ok? && dto.commissionPct != Undefined && old(table.tenants)[id].commissionPct.Some?
                && Nullable(dto.commissionPct) != old(table.tenants)[id].commissionPct
      ensures proposed.Some? ==>
                && id in old(table.tenants) && old(table.tenants)[id].commissionPct == Some(proposed.value.0)
                && table.tenants[id].commissionPct == Some(proposed.value.0)
                && table.tenants[id].pendingPct == proposed.value.1 == Nullable(dto.commissionPct)
    {
      proposed := None;
      if id !in table.tenants {
        return Err(NotFound), None;
      }
      var tenant := table.tenants[id];
      var effectiveTier := OrElse(dto.tier, tenant.tier);
      var effectiveType := OrElse(dto.billingType, tenant.billingType);
      if effectiveType == CommissionBilling {
        if !tenant.commissionEnabled {
          return Err(BadRequest), None;
        }
        if effectiveTier == Starter {
          return Err(BadRequest), None;
        }
      }
      var row := tenant;
      if dto.commissionPct != Undefined {
        var pct := Nullable(dto.commissionPct);
        if tenant.commissionPct.None? {
          row := row.(commissionPct := pct, acceptedAt := Some(table.now), pendingPct := None, proposedAt := None);
        } else if pct != tenant.commissionPct {
          row := row.(pendingPct := pct, proposedAt := Some(table.now));
          proposed := Some((tenant.commissionPct.value, pct));
        }
      }
      table.tenants := table.tenants[id := row.(tier := effectiveTier, billingType := effectiveType)];
      r := Ok(());
    }
  }

  class AdminBillingService {
    const table: TenantTable

    constructor (table: TenantTable)
      ensures this.table == table
    {
      this.table := table;
    }

    method AcceptCommission(id: nat) returns (r: Result<()>)
      modifies table
      ensures table.now == old(table.now)
      ensures var result := OnRow(old(table.tenants), id, AcceptAt(old(table.now)));
              table.tenants == After(old(table.tenants), result) && r == Outcome(result)
    {
      if id !in table.tenants {
        return Err(NotFound);
      }
      var t := table.tenants[id];
      if t.pendingPct.None? {
        return Err(BadRequest);
      }
      table.tenants := table.tenants[id :=
        t.(commissionPct := t.pendingPct, acceptedAt := Some(table.now), pendingPct := None, proposedAt := None)];
      r := Ok(());
    }

    method RejectCommission(id: nat) returns (r: Result<()>)
      modifies table
      ensures table.now == old(table.now)
      ensures var result := OnRow(old(table.tenants), id, Reject);
              table.tenants == After(old(table.tenants), result) && r == Outcome(result)
    {
      if id !in table.tenants {
        return Err(NotFound);
      }
      var t := table.tenants[id];
      if t.pendingPct.None? {
        return Err(BadRequest);
      }
      table.tenants := table.tenants[id := t.(pendingPct := None, proposedAt := None)];
      r := Ok(());
    }
  }
}
