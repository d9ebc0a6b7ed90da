/** Completion policies of maker-commerce-v8.js: what is accepted, and what one Complete costs under it. */
module CompletionPolicy {
  import opened Results

  const MAX_PRICE_ATOMIC: nat := 1_000_000_000_000
  const MAX_QUOTA: nat := 1_000_000_000
  const MAX_SAFE_INTEGER: nat := 9007199254740991

  datatype Mode = UnlimitedFree | FreeQuotaThenPaid | PaidEveryTime | FreeQuotaThenBlock

  /** A JSON value where a number is expected; Integer holds the safe integers. */
  datatype Scalar = Integer(n: int) | Null | Other

  predicate Within(v: Scalar, minimum: int, maximum: int) {
    v.Integer? && minimum <= v.n <= maximum
  }

  /** A policy record as received; mode is None when it is not one of the four names. */
  datatype RawPolicy = NotExact | RawPolicy(mode: Option<Mode>, quota: Scalar, price: Scalar, cap: Scalar)

  datatype Policy = Policy(mode: Mode, quota: nat, price: nat, cap: Option<nat>)

  predicate UsesQuota(m: Mode) { m.FreeQuotaThenPaid? || m.FreeQuotaThenBlock? }

  predicate IsPaid(m: Mode) { m.FreeQuotaThenPaid? || m.PaidEveryTime? }

  /** The meaning of an accepted policy: a quota exactly in the quota modes, a price exactly in the paid
      modes, and a cap no wallet's free quota exceeds. */
  predicate PolicyOk(p: Policy) {
    && p.quota <= MAX_QUOTA && (p.quota > 0 <==> UsesQuota(p.mode))
    && p.price <= MAX_PRICE_ATOMIC && (p.price > 0 <==> IsPaid(p.mode))
    && (p.cap.Some? ==> 0 < p.cap.value <= MAX_QUOTA && p.quota <= p.cap.value)
  }

  predicate Denotes(raw: RawPolicy, p: Policy) {
    && raw.RawPolicy? && raw.mode == Some(p.mode)
    && raw.quota == Integer(p.quota) && raw.price == Integer(p.price)
    && raw.cap == if p.cap.Some? then Integer(p.cap.value) else Null
  }

  datatype PolicyIssue = RecordInvalid | ModeInvalid | QuotaInvalid | PriceInvalid | CapInvalid | CapBelowQuota

  /** Accepts exactly the records that denote a sound policy. */
  method ValidateCompletionPolicy(raw: RawPolicy) returns (issues: seq<PolicyIssue>, ghost policy: Option<Policy>)
    ensures issues == [] <==> exists p :: Denotes(raw, p) && PolicyOk(p)
    ensures issues == [] <==> policy.Some?
    ensures policy.Some? ==> Denotes(raw, policy.value) && PolicyOk(policy.value)
  {
    issues, policy := [], None;
    if raw.NotExact? { return [RecordInvalid], None; }
    if raw.mode.None? { return [ModeInvalid], None; }
    var mode := raw.mode.value;
    var usesQuota := mode == FreeQuotaThenPaid || mode == FreeQuotaThenBlock;
    var isPaid := mode == FreeQuotaThenPaid || mode == PaidEveryTime;
    if !Within(raw.quota, 0, MAX_QUOTA) || (usesQuota && raw.quota.n == 0) || (!usesQuota && raw.quota.n != 0) {
      issues := issues + [QuotaInvalid];
    }
    if !Within(raw.price, 0, MAX_PRICE_ATOMIC) || (isPaid && raw.price.n == 0) || (!isPaid && raw.price.n != 0) {
      issues := issues + [PriceInvalid];
    }
    if raw.cap != Null && !Within(raw.cap, 1, MAX_QUOTA) {
      issues := issues + [CapInvalid];
    } else if raw.cap != Null && raw.quota.Integer? && raw.cap.n < raw.quota.n {
      issues := issues + [CapBelowQuota];
    }
    if issues == [] {
      policy := Some(Policy(mode, raw.quota.n, raw.price.n, if raw.cap == Null then None else Some(raw.cap.n)));
      assert Denotes(raw, policy.value);
    }
  }

  datatype ChargeReason =
    | Free | Paid | FreeQuota | PaidAfterQuota | TotalCapReached | FreeQuotaExhausted

  datatype Charge = Charge(blocked: bool, reason: ChargeReason, amount: nat)

  function CompletionCharge(p: Policy, walletCount: nat, totalCount: nat): Charge {
    if p.cap.Some? && totalCount >= p.cap.value then Charge(true, TotalCapReached, 0)
    else if p.mode == UnlimitedFree then Charge(false, Free, 0)
    else if p.mode == PaidEveryTime then Charge(false, Paid, p.price)
    else if walletCount < p.quota then Charge(false, FreeQuota, 0)
    else if p.mode == FreeQuotaThenPaid then Charge(false, PaidAfterQuota, p.price)
    else Charge(true, FreeQuotaExhausted, 0)
  }

  predicate CapReached(p: Policy, totalCount: nat) { p.cap.Some? && totalCount >= p.cap.value }

  predicate QuotaExhausted(p: Policy, walletCount: nat) { p.mode == FreeQuotaThenBlock && walletCount >= p.quota }

  /** What a wallet that has completed this many times owes in all, cap and blocking aside. */
  function Owed(p: Policy, completes: nat): nat {
    if p.mode == FreeQuotaThenPaid then (if completes > p.quota then completes - p.quota else 0) * p.price
    else if p.mode == PaidEveryTime then completes * p.price
    else 0
  }

  /** Each reason names one state of the policy and its counters. */
  ghost predicate ReasonTells(p: Policy, walletCount: nat, totalCount: nat, r: ChargeReason) {
    var capped, inQuota := CapReached(p, totalCount), UsesQuota(p.mode) && walletCount < p.quota;
    && (r == TotalCapReached <==> capped)
    && (r == Free <==> !capped && p.mode == UnlimitedFree)
    && (r == Paid <==> !capped && p.mode == PaidEveryTime)
    && (r == FreeQuota <==> !capped && inQuota)
    && (r == PaidAfterQuota <==> !capped && p.mode == FreeQuotaThenPaid && !inQuota)
    && (r == FreeQuotaExhausted <==> !capped && QuotaExhausted(p, walletCount))
  }

  /** Blocking is the cap or the exhausted quota, nothing else; a charge is exactly the next step of what the
      wallet owes. */
  lemma ChargeMeaning(p: Policy, walletCount: nat, totalCount: nat)
    requires PolicyOk(p)
    ensures var c := CompletionCharge(p, walletCount, totalCount);
      && (c.blocked <==> CapReached(p, totalCount) || QuotaExhausted(p, walletCount))
      && ReasonTells(p, walletCount, totalCount, c.reason)
      && (c.blocked ==> c.amount == 0)
      && (!c.blocked ==> Owed(p, walletCount + 1) == Owed(p, walletCount) + c.amount)
      && c.amount <= p.price
  {
    if p.mode == FreeQuotaThenPaid && walletCount >= p.quota {
      assert (walletCount + 1 - p.quota) * p.price == (walletCount - p.quota) * p.price + p.price;
    }
  }
}
