/** Discount codes as the admin panel creates, edits and deletes them. */
module Promotions {
  import opened Wrappers
  import opened ShopState
  import opened Pricing

  type CodeTable = map<CodeKey, DiscountCode>

  /** A field of a partial edit: left alone or set. */
  datatype Edit<T> = Keep | Set(value: T)

  function Edited<T>(e: Edit<T>, existing: T): T {
    match e
    case Keep => existing
    case Set(v) => v
  }

  datatype NewCode = NewCode(
    kind: DiscountKind, value: int, minSubtotal: Option<int>, maxRedemptions: Option<int>,
    oneUse: Option<bool>, startsAt: Option<int>, endsAt: Option<int>, active: Option<bool>)

  datatype CodeChange = CodeChange(
    code: Edit<Id>, kind: Edit<DiscountKind>, value: Edit<int>, minSubtotal: Edit<Option<int>>,
    maxRedemptions: Edit<Option<int>>, oneUse: Edit<bool>, startsAt: Edit<Option<int>>,
    endsAt: Edit<Option<int>>, active: Edit<bool>)

  /** The service's own check: only percentages are bounded here. */
  predicate ValueAccepted(kind: DiscountKind, value: int) {
    !(kind == Percentage && (value < 1 || value > 100))
  }

  predicate WindowAccepted(startsAt: Option<int>, endsAt: Option<int>) {
    !(startsAt.Some? && endsAt.Some? && startsAt.value > endsAt.value)
  }

  /** The input rules of the request body: positive values. */
  predicate NewCodeOk(dto: NewCode) {
    1 <= dto.value
  }

  predicate ChangeOk(change: CodeChange) {
    change.value.Set? ==> 1 <= change.value.value
  }

  function Created(dto: NewCode): DiscountCode {
    DiscountCode(dto.kind, dto.value, dto.minSubtotal, dto.maxRedemptions, 0,
                 OrElse(dto.oneUse, false), dto.startsAt, dto.endsAt, OrElse(dto.active, true))
  }

  function Changed(dc: DiscountCode, change: CodeChange): DiscountCode {
    dc.(kind := Edited(change.kind, dc.kind), value := Edited(change.value, dc.value),
        minSubtotal := Edited(change.minSubtotal, dc.minSubtotal),
        maxRedemptions := Edited(change.maxRedemptions, dc.maxRedemptions),
        oneUse := Edited(change.oneUse, dc.oneUse), startsAt := Edited(change.startsAt, dc.startsAt),
        endsAt := Edited(change.endsAt, dc.endsAt), active := Edited(change.active, dc.active))
  }

  datatype PromoOp =
    | CreateCode(code: Id, dto: NewCode)
    | UpdateCode(code: Id, change: CodeChange)
    | RemoveCode(code: Id)

  predicate PromoOpOk(op: PromoOp) {
    match op
    case CreateCode(_, dto) => NewCodeOk(dto)
    case UpdateCode(_, change) => ChangeOk(change)
    case RemoveCode(_) => true
  }

  function PromoAttempt(s: State, tenant: Id, op: PromoOp): Result<State> {
    var key := CodeKey(tenant, op.code);
    match op
    case CreateCode(_, dto) =>
      if !ValueAccepted(dto.kind, dto.value) || !WindowAccepted(dto.startsAt, dto.endsAt) || key in s.codes
      then Err(BadRequest)
      else Ok(s.(codes := s.codes[key := Created(dto)]))
    case UpdateCode(_, change) =>
      if key !in s.codes then Err(NotFound)
      else
        var dc := Changed(s.codes[key], change);
        var newKey := CodeKey(tenant, Edited(change.code, op.code));
        if (change.kind.Set? || change.value.Set?) && !ValueAccepted(dc.kind, dc.value) then Err(BadRequest)
        else if !WindowAccepted(dc.startsAt, dc.endsAt) then Err(BadRequest)
        else if newKey != key && newKey in s.codes then Err(BadRequest)
        else Ok(s.(codes := (s.codes - {key})[newKey := dc]))
    case RemoveCode(_) =>
      if key !in s.codes then Err(NotFound) else Ok(s.(codes := s.codes - {key}))
  }

  /** A promotion call only writes the code table. */
  lemma PromoOpFrame(s: State, tenant: Id, op: PromoOp)
    ensures var t := After(s, PromoAttempt(s, tenant, op));
            t == s.(codes := t.codes)
  {}

  /** The table invariant that pricing relies on survives every accepted edit, although an edit that touches
      neither the kind nor the value is not re-checked. */
  lemma PromoOpKeepsCodesOk(s: State, tenant: Id, op: PromoOp)
    requires CodesOk(s.codes) && PromoOpOk(op)
    ensures CodesOk(After(s, PromoAttempt(s, tenant, op)).codes)
  {
    var t := After(s, PromoAttempt(s, tenant, op));
    forall k | k in t.codes ensures CodeOk(t.codes[k]) {
      if k in s.codes {
        assert CodeOk(s.codes[k]);
      }
      if op.UpdateCode? && CodeKey(tenant, op.code) in s.codes {
        assert CodeOk(s.codes[CodeKey(tenant, op.code)]);
      }
    }
  }

  /** The field an edit leaves: the sent value, or the stored one where none was sent. */
  ghost predicate FieldEdited<T>(e: Edit<T>, before: T, after: T) {
    (e.Set? ==> after == e.value) && (e.Keep? ==> after == before)
  }

  /** What creating stores: exactly what was sent, unused, without a one-use rule and active unless sent otherwise. It is
      accepted exactly for a free code with an admissible value and window. */
  lemma CreateEffect(s: State, tenant: Id, code: Id, dto: NewCode)
    ensures var r, key := PromoAttempt(s, tenant, CreateCode(code, dto)), CodeKey(tenant, code);
            && (r.Ok? <==> key !in s.codes && (dto.kind == Percentage ==> 1 <= dto.value <= 100)
                           && (dto.startsAt.Some? && dto.endsAt.Some? ==> dto.startsAt.value <= dto.endsAt.value))
            && (r.Err? ==> r == Err(BadRequest))
            && (r.Ok? ==>
                  && r.value == s.(codes := s.codes[key := r.value.codes[key]])
                  && var dc := r.value.codes[key];
                  && dc.kind == dto.kind && dc.value == dto.value && dc.minSubtotal == dto.minSubtotal
                  && dc.maxRedemptions == dto.maxRedemptions && dc.timesRedeemed == 0
                  && (dc.oneUse <==> dto.oneUse == Some(true)) && (dc.active <==> dto.active != Some(false))
                  && dc.startsAt == dto.startsAt && dc.endsAt == dto.endsAt)
  {}

  /** What editing stores: each field as sent or as it was, under the sent code or the same one, and the counter as it
      was. Every other code stays. */
  lemma UpdateEffect(s: State, tenant: Id, code: Id, change: CodeChange, k: CodeKey)
    requires PromoAttempt(s, tenant, UpdateCode(code, change)).Ok?
    ensures var key := CodeKey(tenant, code);
            var newKey := if change.code.Set? then CodeKey(tenant, change.code.value) else key;
            var t := PromoAttempt(s, tenant, UpdateCode(code, change)).value;
            && key in s.codes && newKey in t.codes && t == s.(codes := t.codes)
            && (newKey != key ==> key !in t.codes && newKey !in s.codes)
            && (k != key && k != newKey ==>
                  (k in t.codes <==> k in s.codes) && (k in s.codes ==> t.codes[k] == s.codes[k]))
            && var was, dc := s.codes[key], t.codes[newKey];
            && FieldEdited(change.kind, was.kind, dc.kind) && FieldEdited(change.value, was.value, dc.value)
            && FieldEdited(change.minSubtotal, was.minSubtotal, dc.minSubtotal)
            && FieldEdited(change.maxRedemptions, was.maxRedemptions, dc.maxRedemptions)
            && FieldEdited(change.oneUse, was.oneUse, dc.oneUse) && FieldEdited(change.active, was.active, dc.active)
            && FieldEdited(change.startsAt, was.startsAt, dc.startsAt)
            && FieldEdited(change.endsAt, was.endsAt, dc.endsAt)
            && dc.timesRedeemed == was.timesRedeemed
  {}

  /** An edit is refused for an unknown code, a taken new code, an empty resulting window, and a resulting percentage
      outside 1..100 when kind or value is sent; removing takes exactly the named code away. */
  lemma UpdateAndRemoveIff(s: State, tenant: Id, code: Id, change: CodeChange)
    ensures var r, key := PromoAttempt(s, tenant, UpdateCode(code, change)), CodeKey(tenant, code);
            && (r == Err(NotFound) <==> key !in s.codes)
            && (r.Ok? <==>
                  && key in s.codes
                  && var was := s.codes[key];
                  && var kind := if change.kind.Set? then change.kind.value else was.kind;
                  && var value := if change.value.Set? then change.value.value else was.value;
                  && var from := if change.startsAt.Set? then change.startsAt.value else was.startsAt;
                  && var to := if change.endsAt.Set? then change.endsAt.value else was.endsAt;
                  && ((change.kind.Set? || change.value.Set?) && kind == Percentage ==> 1 <= value <= 100)
                  && (from.Some? && to.Some? ==> from.value <= to.value)
                  && (change.code.Set? && change.code.value != code ==> CodeKey(tenant, change.code.value) !in s.codes))
    ensures var r, key := PromoAttempt(s, tenant, RemoveCode(code)), CodeKey(tenant, code);
            && (r.Ok? <==> key in s.codes) && (r.Err? ==> r == Err(NotFound))
            && (r.Ok? ==> r.value == s.(codes := r.value.codes) && r.value.codes.Keys == s.codes.Keys - {key}
                          && forall k :: k in r.value.codes ==> r.value.codes[k] == s.codes[k])
  {}

  /** No edit can reset or forge the redemption counter: a code keeps it unless the code is deleted or renamed. */
  lemma PromoOpKeepsCounters(s: State, tenant: Id, op: PromoOp, k: CodeKey)
    requires k in s.codes
    requires op.RemoveCode? ==> k != CodeKey(tenant, op.code)
    requires op.UpdateCode? && k == CodeKey(tenant, op.code) && op.change.code.Set? ==> op.change.code.value == op.code
    ensures var t := After(s, PromoAttempt(s, tenant, op));
            k in t.codes && t.codes[k].timesRedeemed == s.codes[k].timesRedeemed
  {}

  class AdminPromotionsService {
    const prisma: Prisma

    constructor (prisma: Prisma)
      ensures this.prisma == prisma
    {
      this.prisma := prisma;
    }

    method Create(tenant: Id, code: Id, dto: NewCode) returns (r: Result<()>)
      modifies prisma
      ensures var result := PromoAttempt(old(prisma.Model()), tenant, CreateCode(code, dto));
              prisma.Model() == After(old(prisma.Model()), result) && r == Outcome(result)
    {
      var accepted := AssertValue(dto.kind, dto.value);
      if !accepted || !WindowAccepted(dto.startsAt, dto.endsAt) {
        return Err(BadRequest);
      }
      if CodeKey(tenant, code) in prisma.codes {
        return Err(BadRequest);
      }
      var row := DiscountCode(dto.kind, dto.value, dto.minSubtotal, dto.maxRedemptions, 0,
                              OrElse(dto.oneUse, false), dto.startsAt, dto.endsAt, OrElse(dto.active, true));
      prisma.codes := prisma.codes[CodeKey(tenant, code) := row];
      r := Ok(());
    }

    method Update(tenant: Id, code: Id, change: CodeChange) returns (r: Result<()>)
      modifies prisma
      ensures var result := PromoAttempt(old(prisma.Model()), tenant, UpdateCode(code, change));
              prisma.Model() == After(old(prisma.Model()), result) && r == Outcome(result)
    {
      var key := CodeKey(tenant, code);
      if key !in prisma.codes {
        return Err(NotFound);
      }
      var existing := prisma.codes[key];
      var kind := Edited(change.kind, existing.kind);
      var value := Edited(change.value, existing.value);
      if change.kind.Set? || change.value.Set? {
        var accepted := AssertValue(kind, value);
        if !accepted {
          return Err(BadRequest);
        }
      }
      var startsAt := Edited(change.startsAt, existing.startsAt);
      var endsAt := Edited(change.endsAt, existing.endsAt);
      if !WindowAccepted(startsAt, endsAt) {
        return Err(BadRequest);
      }
      var newKey := CodeKey(tenant, Edited(change.code, code));
      if newKey != key && newKey in prisma.codes {
        return Err(BadRequest);
      }
      prisma.codes := (prisma.codes - {key})[newKey := existing.(
        kind := kind, value := value, minSubtotal := Edited(change.minSubtotal, existing.minSubtotal),
        maxRedemptions := Edited(change.maxRedemptions, existing.maxRedemptions),
        oneUse := Edited(change.oneUse, existing.oneUse), startsAt := startsAt, endsAt := endsAt,
        active := Edited(change.active, existing.active))];
      r := Ok(());
    }

    method Remove(tenant: Id, code: Id) returns (r: Result<()>)
      modifies prisma
      ensures var result := PromoAttempt(old(prisma.Model()), tenant, RemoveCode(code));
              prisma.Model() == After(old(prisma.Model()), result) && r == Outcome(result)
    {
      var key := CodeKey(tenant, code);
      if key !in prisma.codes {
        return Err(NotFound);
      }
      prisma.codes := prisma.codes - {key};
      r := Ok(());
    }

    method AssertValue(kind: DiscountKind, value: int) returns (accepted: bool)
      ensures accepted <==> (kind == Percentage ==> 1 <= value <= 100)
    {
      if kind == Percentage && (value < 1 || value > 100) {
        return false;
      }
      return true;
    }
  }
}
