/** Complete quotes of maker-commerce-v8.js: input validation, blocking, and the multi-line split. */
module CompleteQuote {
  import opened Results
  import opened SafeText
  import opened CompletionPolicy

  const MAX_PACK_LINES: nat := 1_000
  const BPS_DENOMINATOR: nat := 10_000
  const U128_MAX: nat := 0xFFFF_FFFF_FFFF_FFFF_FFFF_FFFF_FFFF_FFFF

  datatype Lifecycle = Draft | Active | Paused | Archived

  datatype PackAccess = PackFree | PackPaid | IncludedWithMaker

  datatype EntitlementKind = NoEntitlement | PackAccessProof | MakerAccessProof

  /** A pack's policy record as received: id and access mode are None when malformed. */
  datatype RawPackPolicy = PolicyNotExact
    | RawPackPolicy(schemaOk: bool, packId: Option<string>, access: Option<PackAccess>, purchasePrice: Scalar,
                    completion: RawPolicy)

  datatype RawEntitlement = EntitlementNotExact | RawEntitlement(kind: Option<EntitlementKind>, verified: Option<bool>)

  /** One used-pack line as received.  A field that is missing or of the wrong type is None, Null or Other. */
  datatype RawLine = LineNotRecord
    | RawLine(exact: bool, packId: Option<string>, policy: RawPackPolicy, entitlement: RawEntitlement,
              lifecycle: Option<Lifecycle>, treasury: Option<string>, walletCount: Scalar, totalCount: Scalar)

  datatype RawBool = Absent | Is(b: bool) | NotBoolean

  datatype RawProtocol = DefaultProtocol | ProtocolNotExact | RawProtocol(bps: Scalar, fixedFee: Scalar)

  datatype RawInputs = RawInputs(owns: RawBool, lifecycle: Option<Lifecycle>, treasury: Option<string>,
                                 walletCount: Scalar, totalCount: Scalar, protocol: RawProtocol,
                                 lines: Option<seq<RawLine>>)

  datatype Line = Line(packId: string, access: PackAccess, completion: Policy, kind: EntitlementKind, verified: bool,
                       lifecycle: Lifecycle, treasury: string, walletCount: nat, totalCount: nat)

  datatype Inputs = Inputs(owns: bool, lifecycle: Lifecycle, treasury: string, walletCount: nat, totalCount: nat,
                           bps: nat, fixedFee: nat, lines: seq<Line>)

  // ---- validation -------------------------------------------------------------------------------------

  datatype InputIssue =
    | BooleanInvalid | LifecycleInvalid | TreasuryRequired | CountInvalid | ProtocolInvalid | LinesInvalid
    | LineRecordInvalid | PackIdInvalid | PackDuplicate | PackPolicyInvalid | PackIdMismatch | EntitlementInvalid
    | PackNotActiveIssue

  predicate CountOk(v: Scalar) { Within(v, 0, MAX_QUOTA) }

  predicate TreasuryOk(t: Option<string>) { t.Some? && IsNonEmptyText(t.value, 256) }

  ghost predicate PackPolicyOk(raw: RawPackPolicy) {
    && raw.RawPackPolicy? && raw.schemaOk
    && raw.packId.Some? && IsSafeKey(raw.packId.value, 256)
    && raw.access.Some? && Within(raw.purchasePrice, 0, MAX_PRICE_ATOMIC)
    && (raw.purchasePrice.n > 0 <==> raw.access.value == PackPaid)
    && exists p :: Denotes(raw.completion, p) && PolicyOk(p)
  }

  predicate EntitlementOk(e: RawEntitlement) {
    e.RawEntitlement? && e.kind.Some? && e.verified.Some? && (e.kind.value == NoEntitlement ==> !e.verified.value)
  }

  ghost predicate LineOk(raw: RawLine) {
    && raw.RawLine? && raw.exact && raw.packId.Some? && IsSafeKey(raw.packId.value, 256)
    && PackPolicyOk(raw.policy) && raw.policy.packId == raw.packId
    && EntitlementOk(raw.entitlement) && raw.lifecycle == Some(Active) && TreasuryOk(raw.treasury)
    && CountOk(raw.walletCount) && CountOk(raw.totalCount)
  }

  predicate ProtocolOk(raw: RawProtocol) {
    match raw
    case DefaultProtocol => true
    case ProtocolNotExact => false
    case RawProtocol(bps, fixedFee) => Within(bps, 0, BPS_DENOMINATOR) && Within(fixedFee, 0, MAX_PRICE_ATOMIC)
  }

  ghost predicate PacksDistinct(lines: seq<RawLine>) {
    forall i, j | 0 <= i < j < |lines| && lines[i].RawLine? && lines[j].RawLine? ::
      lines[i].packId.Some? ==> lines[i].packId != lines[j].packId
  }

  ghost predicate RawOk(raw: RawInputs) {
    && raw.owns != NotBoolean && raw.lifecycle.Some? && TreasuryOk(raw.treasury)
    && CountOk(raw.walletCount) && CountOk(raw.totalCount) && ProtocolOk(raw.protocol)
    && raw.lines.Some? && |raw.lines.value| <= MAX_PACK_LINES
    && (forall i :: 0 <= i < |raw.lines.value| ==> LineOk(raw.lines.value[i]))
    && PacksDistinct(raw.lines.value)
  }

  ghost predicate LineDenotes(raw: RawLine, line: Line) {
    && raw.RawLine? && raw.packId == Some(line.packId)
    && raw.policy.RawPackPolicy? && raw.policy.access == Some(line.access)
    && Denotes(raw.policy.completion, line.completion)
    && raw.entitlement == RawEntitlement(Some(line.kind), Some(line.verified))
    && raw.lifecycle == Some(line.lifecycle) && raw.treasury == Some(line.treasury)
    && raw.walletCount == Integer(line.walletCount) && raw.totalCount == Integer(line.totalCount)
  }

  ghost predicate InputsDenote(raw: RawInputs, i: Inputs) {
    && raw.owns == (if raw.owns == Absent then Absent else Is(i.owns)) && (raw.owns == Absent ==> !i.owns)
    && raw.lifecycle == Some(i.lifecycle) && raw.treasury == Some(i.treasury)
    && raw.walletCount == Integer(i.walletCount) && raw.totalCount == Integer(i.totalCount)
    && (if raw.protocol == DefaultProtocol then i.bps == 1_000 && i.fixedFee == 0
        else raw.protocol == RawProtocol(Integer(i.bps), Integer(i.fixedFee)))
    && raw.lines.Some? && |raw.lines.value| == |i.lines|
    && forall k :: 0 <= k < |i.lines| ==> LineDenotes(raw.lines.value[k], i.lines[k])
  }

  /** What the quote may rely on. */
  ghost predicate InputsOk(i: Inputs) {
    && i.walletCount <= MAX_QUOTA && i.totalCount <= MAX_QUOTA
    && i.bps <= BPS_DENOMINATOR && i.fixedFee <= MAX_PRICE_ATOMIC
    && |i.lines| <= MAX_PACK_LINES
    && (forall k :: 0 <= k < |i.lines| ==>
          PolicyOk(i.lines[k].completion) && i.lines[k].lifecycle == Active
          && i.lines[k].walletCount <= MAX_QUOTA && i.lines[k].totalCount <= MAX_QUOTA)
    && (forall j, k :: 0 <= j < k < |i.lines| ==> i.lines[j].packId != i.lines[k].packId)
  }

  method ValidatePackPolicy(raw: RawPackPolicy) returns (ok: bool, ghost completion: Option<Policy>)
    ensures ok <==> PackPolicyOk(raw)
    ensures ok ==> completion.Some? && Denotes(raw.completion, completion.value) && PolicyOk(completion.value)
  {
    completion := None;
    if raw.PolicyNotExact? { return false, None; }
    ok := raw.schemaOk && raw.packId.Some? && IsSafeKey(raw.packId.value, 256);
    if raw.access.None? {
      ok := false;
    } else {
      var paid := raw.access.value == PackPaid;
      if !Within(raw.purchasePrice, 0, MAX_PRICE_ATOMIC)
         || (paid && raw.purchasePrice.n == 0) || (!paid && raw.purchasePrice.n != 0) {
        ok := false;
      }
    }
    var issues;
    issues, completion := ValidateCompletionPolicy(raw.completion);
    if issues != [] { ok := false; }
  }

  function TypedPolicy(raw: RawPolicy): Policy
    requires exists p :: Denotes(raw, p) && PolicyOk(p)
  {
    Policy(raw.mode.value, raw.quota.n, raw.price.n, if raw.cap == Null then None else Some(raw.cap.n))
  }

  /** One line's issues, and its typed form when there are none. */
  method ValidateLine(raw: RawLine, seen: set<Option<string>>) returns (issues: seq<InputIssue>, line: Option<Line>)
    ensures issues == [] <==> LineOk(raw) && raw.packId !in seen
    ensures issues == [] ==> line.Some? && LineDenotes(raw, line.value) && PolicyOk(line.value.completion)
  {
    issues, line := [], None;
    if raw.LineNotRecord? { return [LineRecordInvalid], None; }
    if !raw.exact { issues := issues + [LineRecordInvalid]; }
    if raw.packId.None? || !IsSafeKey(raw.packId.value, 256) {
      issues := issues + [PackIdInvalid];
    } else if raw.packId in seen {
      issues := issues + [PackDuplicate];
    }
    var policyOk, _ := ValidatePackPolicy(raw.policy);
    if !policyOk { issues := issues + [PackPolicyInvalid]; }
    if raw.policy.RawPackPolicy? && raw.policy.packId != raw.packId { issues := issues + [PackIdMismatch]; }
    if !EntitlementOk(raw.entitlement) { issues := issues + [EntitlementInvalid]; }
    if raw.lifecycle.None? { issues := issues + [LifecycleInvalid]; }
    if raw.lifecycle.Some? && raw.lifecycle.value != Active { issues := issues + [PackNotActiveIssue]; }
    if !TreasuryOk(raw.treasury) { issues := issues + [TreasuryRequired]; }
    if !CountOk(raw.walletCount) { issues := issues + [CountInvalid]; }
    if !CountOk(raw.totalCount) { issues := issues + [CountInvalid]; }
    if issues == [] {
      line := Some(Line(raw.packId.value, raw.policy.access.value, TypedPolicy(raw.policy.completion),
                        raw.entitlement.kind.value, raw.entitlement.verified.value, raw.lifecycle.value,
                        raw.treasury.value, raw.walletCount.n, raw.totalCount.n));
    }
  }

  /** All issues are collected before throwing; the accepted inputs are exactly the sound ones, and what they
      are normalised to is what they say, with the documented defaults. */
  method ValidateCompleteInputs(raw: RawInputs) returns (r: Result<Inputs, seq<InputIssue>>)
    ensures r.Ok? <==> RawOk(raw)
    ensures r.Ok? ==> InputsDenote(raw, r.value) && InputsOk(r.value)
    ensures r.Err? ==> r.error != []
  {
    var issues: seq<InputIssue> := [];
    if raw.owns == NotBoolean { issues := issues + [BooleanInvalid]; }
    if raw.lifecycle.None? { issues := issues + [LifecycleInvalid]; }
    if !TreasuryOk(raw.treasury) { issues := issues + [TreasuryRequired]; }
    if !CountOk(raw.walletCount) { issues := issues + [CountInvalid]; }
    if !CountOk(raw.totalCount) { issues := issues + [CountInvalid]; }
    if !ProtocolOk(raw.protocol) { issues := issues + [ProtocolInvalid]; }
    var lines: seq<Line> := [];
    if raw.lines.None? || |raw.lines.value| > MAX_PACK_LINES {
      issues := issues + [LinesInvalid];
    } else {
      lines, issues := ValidateLines(raw.lines.value, issues);
    }
    if issues != [] { return Err(issues); }
    var bps, fixedFee := 1_000, 0;
    if raw.protocol.RawProtocol? { bps, fixedFee := raw.protocol.bps.n, raw.protocol.fixedFee.n; }
    var i := Inputs(raw.owns == Is(true), raw.lifecycle.value, raw.treasury.value, raw.walletCount.n,
                    raw.totalCount.n, bps, fixedFee, lines);
    forall j, k | 0 <= j < k < |lines| ensures lines[j].packId != lines[k].packId {
      assert LineDenotes(raw.lines.value[j], lines[j]) && LineDenotes(raw.lines.value[k], lines[k]);
    }
    forall k | 0 <= k < |lines| ensures lines[k].lifecycle == Active
                                        && lines[k].walletCount <= MAX_QUOTA && lines[k].totalCount <= MAX_QUOTA {
      assert LineOk(raw.lines.value[k]) && LineDenotes(raw.lines.value[k], lines[k]);
    }
    return Ok(i);
  }

  method ValidateLines(raws: seq<RawLine>, before: seq<InputIssue>) returns (lines: seq<Line>, issues: seq<InputIssue>)
    ensures issues == [] <==> before == [] && PacksDistinct(raws) && forall k :: 0 <= k < |raws| ==> LineOk(raws[k])
    ensures before <= issues
    ensures issues == [] ==> AllDenote(raws, lines)
  {
    lines, issues := [], before;
    var seen: set<Option<string>> := {};
    for n := 0 to |raws|
      invariant before <= issues
      invariant forall id :: id in seen <==> exists k :: 0 <= k < n && raws[k].RawLine? && raws[k].packId == id
      invariant issues == [] ==> before == [] && PacksDistinct(raws[..n]) && forall k :: 0 <= k < n ==> LineOk(raws[k])
      invariant issues != [] ==> before != [] || !PacksDistinct(raws) || exists k :: 0 <= k < n && !LineOk(raws[k])
      invariant issues == [] ==> AllDenote(raws[..n], lines)
    {
      var more, line := ValidateLine(raws[n], seen);
      assert raws[..n + 1] == raws[..n] + [raws[n]];
      if more != [] && LineOk(raws[n]) {
        ghost var k :| 0 <= k < n && raws[k].RawLine? && raws[k].packId == raws[n].packId;
        assert !PacksDistinct(raws);
      }
      issues := issues + more;
      if raws[n].RawLine? { seen := seen + {raws[n].packId}; }
      if line.Some? { lines := lines + [line.value]; }
    }
    assert raws[..|raws|] == raws;
  }

  ghost predicate AllDenote(raws: seq<RawLine>, lines: seq<Line>) {
    && |lines| == |raws|
    && forall k :: 0 <= k < |raws| ==> LineDenotes(raws[k], lines[k]) && PolicyOk(lines[k].completion)
  }

  // ---- what each line is charged ----------------------------------------------------------------------

  /** A validated commerce record, as far as a Complete reads it. */
  datatype Commerce = Commerce(paidAccess: bool, base: Policy)

  datatype Reason =
    | Ready | MakerNotActive | MakerAccessRequired | PackNotActive | PackAccessRequired | ProtocolShareRoundsToZero
    | Charged(why: ChargeReason)

  /** A pending line: the base line has no pack id. */
  datatype Pending = Pending(packId: Option<string>, blocked: bool, reason: Reason, amount: nat, treasury: string)

  predicate Accessible(c: Commerce, i: Inputs) { c.paidAccess ==> i.owns }

  /** A verified pack proof, or a verified maker proof for an included pack when the maker is accessible. */
  predicate Entitled(c: Commerce, i: Inputs, line: Line) {
    line.verified && (line.kind == PackAccessProof
                      || (line.kind == MakerAccessProof && line.access == IncludedWithMaker && Accessible(c, i)))
  }

  function FromCharge(id: Option<string>, charge: Charge, treasury: string): Pending {
    Pending(id, charge.blocked, Charged(charge.reason), charge.amount, treasury)
  }

  function BaseLine(c: Commerce, i: Inputs): Pending {
    if i.lifecycle != Active then Pending(None, true, MakerNotActive, 0, i.treasury)
    else if !Accessible(c, i) then Pending(None, true, MakerAccessRequired, 0, i.treasury)
    else FromCharge(None, CompletionCharge(c.base, i.walletCount, i.totalCount), i.treasury)
  }

  function PackLine(c: Commerce, i: Inputs, line: Line): Pending {
    if line.lifecycle != Active then Pending(Some(line.packId), true, PackNotActive, 0, line.treasury)
    else if !Entitled(c, i, line) then Pending(Some(line.packId), true, PackAccessRequired, 0, line.treasury)
    else FromCharge(Some(line.packId), CompletionCharge(line.completion, line.walletCount, line.totalCount), line.treasury)
  }

  function PackLines(c: Commerce, i: Inputs, lines: seq<Line>): (r: seq<Pending>)
    ensures |r| == |lines|
    ensures forall k :: 0 <= k < |lines| ==> r[k] == PackLine(c, i, lines[k])
  {
    if lines == [] then []
    else PackLines(c, i, lines[..|lines| - 1]) + [PackLine(c, i, lines[|lines| - 1])]
  }

  /** The pending lines: base first, then the packs in input order. */
  function Lines(c: Commerce, i: Inputs): seq<Pending> {
    [BaseLine(c, i)] + PackLines(c, i, i.lines)
  }

  /** Every unentitled pack, in order. */
  function Missing(c: Commerce, i: Inputs, lines: seq<Line>): seq<string> {
    if lines == [] then []
    else
      var last := lines[|lines| - 1];
      Missing(c, i, lines[..|lines| - 1]) + if Entitled(c, i, last) then [] else [last.packId]
  }

  /** Maker active and accessible, base and packs within cap and quota, packs entitled. */
  predicate Unblocked(c: Commerce, i: Inputs) {
    && i.lifecycle == Active && Accessible(c, i)
    && !CapReached(c.base, i.totalCount) && !QuotaExhausted(c.base, i.walletCount)
    && forall k :: 0 <= k < |i.lines| ==> LineUnblocked(c, i, i.lines[k])
  }

  predicate LineUnblocked(c: Commerce, i: Inputs, line: Line) {
    && Entitled(c, i, line)
    && !CapReached(line.completion, line.totalCount) && !QuotaExhausted(line.completion, line.walletCount)
  }

  predicate RoundsToZero(amount: nat, bps: nat) { amount > 0 && bps > 0 && amount * bps < BPS_DENOMINATOR }

  ghost predicate ReadyToComplete(c: Commerce, i: Inputs) {
    Unblocked(c, i) && forall k :: 0 <= k < |Lines(c, i)| ==> !RoundsToZero(Lines(c, i)[k].amount, i.bps)
  }

  lemma BlockedMeaning(c: Commerce, i: Inputs)
    requires PolicyOk(c.base) && InputsOk(i)
    ensures Unblocked(c, i) <==> forall k :: 0 <= k < |Lines(c, i)| ==> !Lines(c, i)[k].blocked
    ensures forall k :: 0 <= k < |Lines(c, i)| ==> Lines(c, i)[k].amount <= MAX_PRICE_ATOMIC
    ensures forall k :: 0 <= k < |Lines(c, i)| ==> Lines(c, i)[k].reason != PackNotActive
  {
    var all := Lines(c, i);
    ChargeMeaning(c.base, i.walletCount, i.totalCount);
    assert all[0] == BaseLine(c, i);
    forall k | 0 <= k < |i.lines|
      ensures all[k + 1] == PackLine(c, i, i.lines[k]) && all[k + 1].amount <= MAX_PRICE_ATOMIC
      ensures !all[k + 1].blocked <==> LineUnblocked(c, i, i.lines[k])
      ensures all[k + 1].reason != PackNotActive
    {
      ChargeMeaning(i.lines[k].completion, i.lines[k].walletCount, i.lines[k].totalCount);
    }
    forall k | 0 <= k < |all| ensures all[k].amount <= MAX_PRICE_ATOMIC && all[k].reason != PackNotActive {
      if k > 0 { assert all[(k - 1) + 1].amount <= MAX_PRICE_ATOMIC; }
    }
    if forall k :: 0 <= k < |all| ==> !all[k].blocked {
      forall k | 0 <= k < |i.lines| ensures LineUnblocked(c, i, i.lines[k]) {
        assert !all[k + 1].blocked;
      }
    }
    if Unblocked(c, i) {
      forall k | 0 <= k < |all| ensures !all[k].blocked {
        if k > 0 { assert !all[(k - 1) + 1].blocked; }
      }
    }
  }

  // ---- splitting --------------------------------------------------------------------------------------

  function Share(amount: nat, bps: nat): nat { amount * bps / BPS_DENOMINATOR }

  function Gross(lines: seq<Pending>): nat {
    if lines == [] then 0 else Gross(lines[..|lines| - 1]) + lines[|lines| - 1].amount
  }

  function Shares(lines: seq<Pending>, bps: nat): nat {
    if lines == [] then 0 else Shares(lines[..|lines| - 1], bps) + Share(lines[|lines| - 1].amount, bps)
  }

  /** What the treasuries of the base line, or of the pack lines, receive. */
  function Treasury(lines: seq<Pending>, bps: nat, packs: bool): int {
    if lines == [] then 0
    else
      var last := lines[|lines| - 1];
      Treasury(lines[..|lines| - 1], bps, packs) +
      if last.packId.Some? == packs then last.amount - Share(last.amount, bps) else 0
  }

  lemma ShareBounds(amount: nat, bps: nat)
    requires bps <= BPS_DENOMINATOR
    ensures Share(amount, bps) <= amount
    ensures Share(amount, bps) * BPS_DENOMINATOR <= amount * bps < (Share(amount, bps) + 1) * BPS_DENOMINATOR
    ensures amount > 0 && bps > 0 ==> (Share(amount, bps) == 0 <==> RoundsToZero(amount, bps))
  {
    assert amount * bps <= amount * BPS_DENOMINATOR;
  }

  lemma {:induction false} FloorSums(lines: seq<Pending>, bps: nat)
    requires bps <= BPS_DENOMINATOR
    ensures Shares(lines, bps) * BPS_DENOMINATOR <= Gross(lines) * bps
    ensures lines != [] ==> Gross(lines) * bps < (Shares(lines, bps) + |lines|) * BPS_DENOMINATOR
  {
    if lines != [] {
      var init, last := lines[..|lines| - 1], lines[|lines| - 1];
      FloorSums(init, bps);
      ShareBounds(last.amount, bps);
      Distribute(Gross(init), last.amount, bps);
    }
  }

  lemma Distribute(a: nat, b: nat, c: nat)
    ensures (a + b) * c == a * c + b * c
  {
  }

  lemma FloorBetween(x: nat, low: nat, high: nat)
    requires low * BPS_DENOMINATOR <= x < high * BPS_DENOMINATOR
    ensures low <= x / BPS_DENOMINATOR < high
  {
  }

  /** The per-line floors add up to at most the floor of the whole fee, and miss it by less than one unit a
      line. */
  lemma FloorsAddUp(lines: seq<Pending>, bps: nat)
    requires bps <= BPS_DENOMINATOR && lines != []
    ensures Shares(lines, bps) <= Share(Gross(lines), bps) < Shares(lines, bps) + |lines|
  {
    FloorSums(lines, bps);
    FloorBetween(Gross(lines) * bps, Shares(lines, bps), Shares(lines, bps) + |lines|);
  }

  /** No unit is created or lost by splitting. */
  lemma {:induction false} SplitConserves(lines: seq<Pending>, bps: nat)
    requires bps <= BPS_DENOMINATOR
    ensures Gross(lines) == Shares(lines, bps) + Treasury(lines, bps, false) + Treasury(lines, bps, true)
    ensures Treasury(lines, bps, false) >= 0 && Treasury(lines, bps, true) >= 0
  {
    if lines != [] {
      SplitConserves(lines[..|lines| - 1], bps);
      ShareBounds(lines[|lines| - 1].amount, bps);
    }
  }

  lemma {:induction false} GrossBounded(lines: seq<Pending>)
    requires forall k :: 0 <= k < |lines| ==> lines[k].amount <= MAX_PRICE_ATOMIC
    ensures Gross(lines) <= |lines| * MAX_PRICE_ATOMIC
  {
    if lines != [] { GrossBounded(lines[..|lines| - 1]); }
  }

  // ---- the quote --------------------------------------------------------------------------------------

  datatype LineItem = LineItem(packId: Option<string>, reason: Reason, content: nat, protocol: nat, treasury: nat,
                               payee: Option<string>)

  datatype Allocation =
    | ToProtocol(amount: nat)
    | ToMaker(identity: string, amount: nat)
    | ToPack(packId: string, identity: string, amount: nat)

  datatype Quote = Quote(valid: bool, reason: Reason, usedPackIds: seq<string>, missing: seq<string>,
                         lineItems: seq<LineItem>, content: nat, fixedProtocol: nat, protocolContent: nat,
                         protocol: nat, makerTreasury: nat, packTreasury: nat, gross: nat,
                         allocations: seq<Allocation>)

  function Allocated(a: seq<Allocation>): nat {
    if a == [] then 0 else Allocated(a[..|a| - 1]) + a[|a| - 1].amount
  }

  function EmptyQuote(reason: Reason, ids: seq<string>, missing: seq<string>, items: seq<LineItem>): Quote {
    Quote(false, reason, ids, missing, items, 0, 0, 0, 0, 0, 0, 0, [])
  }

  /** A range error, as thrown by the checked u128 operations. */
  datatype RangeError = RangeError

  method CheckedAdd(left: nat, right: nat) returns (r: Result<nat, RangeError>)
    ensures r == if left + right <= U128_MAX then Ok(left + right) else Err(RangeError)
  {
    if left + right > U128_MAX { return Err(RangeError); }
    return Ok(left + right);
  }

  /** The protocol's share and the rest; None when a charged fee would round to nothing. */
  method SplitAtomic(amount: nat, bps: nat) returns (r: Result<Option<(nat, nat)>, RangeError>)
    requires bps <= BPS_DENOMINATOR
    ensures r.Err? <==> amount * bps > U128_MAX
    ensures r.Ok? ==> (r.value.None? <==> RoundsToZero(amount, bps))
    ensures r.Ok? && r.value.Some? ==> r.value.value.0 == Share(amount, bps) && r.value.value.0 + r.value.value.1 == amount
  {
    ShareBounds(amount, bps);
    var product := amount * bps;
    if product > U128_MAX { return Err(RangeError); }
    var protocol := product / BPS_DENOMINATOR;
    if amount > 0 && bps > 0 && protocol == 0 { return Ok(None); }
    return Ok(Some((protocol, amount - protocol)));
  }

  ghost predicate FirstBlocked(lines: seq<Pending>, k: int) {
    0 <= k < |lines| && lines[k].blocked && forall j :: 0 <= j < k ==> !lines[j].blocked
  }

  ghost predicate FirstRounding(lines: seq<Pending>, bps: nat, k: int) {
    && 0 <= k < |lines| && RoundsToZero(lines[k].amount, bps)
    && forall j :: 0 <= j < k ==> !RoundsToZero(lines[j].amount, bps)
  }

  /** All amounts zero, one zero item per line, carrying the line's own reason except where a rounding
      failure replaces it. */
  ghost predicate ZeroItems(items: seq<LineItem>, lines: seq<Pending>, rounding: Option<nat>) {
    && |items| == |lines|
    && forall k :: 0 <= k < |lines| ==>
         items[k] == LineItem(lines[k].packId, if rounding == Some(k) then ProtocolShareRoundsToZero else lines[k].reason,
                              0, 0, 0, None)
  }

  ghost predicate SplitItem(item: LineItem, line: Pending, bps: nat) {
    && item.packId == line.packId && item.reason == line.reason && item.payee == Some(line.treasury)
    && item.content == line.amount && item.protocol == Share(line.amount, bps)
    && item.content == item.protocol + item.treasury
  }

  ghost predicate PackAllocations(a: seq<Allocation>, lines: seq<Pending>, bps: nat) {
    && |a| == |lines|
    && forall k :: 0 <= k < |a| ==>
         && a[k].ToPack? && lines[k].packId == Some(a[k].packId) && a[k].identity == lines[k].treasury
         && a[k].amount + Share(lines[k].amount, bps) == lines[k].amount
  }

  /** The loop body for one used pack. */
  method PendPack(c: Commerce, i: Inputs, line: Line) returns (pending: Pending, missing: seq<string>)
    requires line.lifecycle == Active
    ensures pending == PackLine(c, i, line)
    ensures missing == if Entitled(c, i, line) then [] else [line.packId]
  {
    if line.lifecycle != Active {
      assert false;
    }
    var included := line.verified && line.kind == MakerAccessProof && line.access == IncludedWithMaker
                    && (!c.paidAccess || i.owns);
    var hasPack := line.verified && line.kind == PackAccessProof;
    if !included && !hasPack {
      return Pending(Some(line.packId), true, PackAccessRequired, 0, line.treasury), [line.packId];
    }
    var charge := CompletionCharge(line.completion, line.walletCount, line.totalCount);
    return Pending(Some(line.packId), charge.blocked, Charged(charge.reason), charge.amount, line.treasury), [];
  }

  ghost predicate BlockedBy(lines: seq<Pending>, blocked: Option<Reason>) {
    if blocked.None? then forall k :: 0 <= k < |lines| ==> !lines[k].blocked
    else exists k :: FirstBlocked(lines, k) && blocked.value == lines[k].reason
  }

  lemma BlockedBySnoc(lines: seq<Pending>, blocked: Option<Reason>, next: Pending)
    requires BlockedBy(lines, blocked)
    ensures BlockedBy(lines + [next], if blocked.None? && next.blocked then Some(next.reason) else blocked)
  {
    if blocked.Some? {
      var k :| FirstBlocked(lines, k) && blocked.value == lines[k].reason;
      assert FirstBlocked(lines + [next], k);
    } else if next.blocked {
      assert FirstBlocked(lines + [next], |lines|);
    }
  }

  method PendBase(c: Commerce, i: Inputs) returns (pending: Pending)
    ensures pending == BaseLine(c, i)
  {
    if i.lifecycle != Active { return Pending(None, true, MakerNotActive, 0, i.treasury); }
    if c.paidAccess && !i.owns { return Pending(None, true, MakerAccessRequired, 0, i.treasury); }
    var charge := CompletionCharge(c.base, i.walletCount, i.totalCount);
    return Pending(None, charge.blocked, Charged(charge.reason), charge.amount, i.treasury);
  }

  lemma LinesSnoc(c: Commerce, i: Inputs, n: nat)
    requires n < |i.lines|
    ensures PackLines(c, i, i.lines[..n + 1]) == PackLines(c, i, i.lines[..n]) + [PackLine(c, i, i.lines[n])]
    ensures Missing(c, i, i.lines[..n + 1])
            == Missing(c, i, i.lines[..n]) + if Entitled(c, i, i.lines[n]) then [] else [i.lines[n].packId]
  {
    assert i.lines[..n + 1][..n] == i.lines[..n];
  }

  /** The base line and the first n pack lines, the packs missing among them, and the first blocker. */
  ghost predicate Pended(c: Commerce, i: Inputs, n: nat, lines: seq<Pending>, missing: seq<string>, blocked: Option<Reason>)
    requires n <= |i.lines|
  {
    && lines == [BaseLine(c, i)] + PackLines(c, i, i.lines[..n]) && missing == Missing(c, i, i.lines[..n])
    && BlockedBy(lines, blocked)
  }

  lemma PendedNext(c: Commerce, i: Inputs, n: nat, lines: seq<Pending>, missing: seq<string>, blocked: Option<Reason>, pending: Pending)
    requires n < |i.lines| && Pended(c, i, n, lines, missing, blocked) && pending == PackLine(c, i, i.lines[n])
    ensures Pended(c, i, n + 1, lines + [pending], missing + if Entitled(c, i, i.lines[n]) then [] else [i.lines[n].packId],
                   if blocked.None? && pending.blocked then Some(pending.reason) else blocked)
  {
    LinesSnoc(c, i, n);
    BlockedBySnoc(lines, blocked, pending);
  }

  /** The blocked half of the quote: what is refused, why, and which entitlements are missing. */
  method Pend(c: Commerce, i: Inputs)
    returns (lines: seq<Pending>, missing: seq<string>, blocked: Option<Reason>)
    requires InputsOk(i)
    ensures lines == Lines(c, i) && missing == Missing(c, i, i.lines)
    ensures BlockedBy(lines, blocked)
  {
    var base := PendBase(c, i);
    blocked, missing, lines := None, [], [];
    BlockedBySnoc([], None, base);
    assert [] + [base] == [base];
    if base.blocked { blocked := Some(base.reason); }
    lines := [base];
    for n := 0 to |i.lines|
      invariant Pended(c, i, n, lines, missing, blocked)
    {
      var pending, more := PendPack(c, i, i.lines[n]);
      PendedNext(c, i, n, lines, missing, blocked, pending);
      if pending.blocked && blocked.None? { blocked := Some(pending.reason); }
      lines := lines + [pending];
      missing := missing + more;
    }
    assert i.lines[..|i.lines|] == i.lines;
  }

  /** The loop accumulators, and what they hold after some lines. */
  datatype Split = Split(items: seq<LineItem>, packs: seq<Allocation>, content: nat, protocol: nat, maker: nat, pack: nat)

  ghost predicate ItemsOf(items: seq<LineItem>, lines: seq<Pending>, bps: nat) {
    && |items| == |lines| && (forall k :: 0 <= k < |lines| ==> SplitItem(items[k], lines[k], bps))
    && (forall k :: 0 <= k < |lines| ==> !RoundsToZero(lines[k].amount, bps))
  }

  ghost predicate SumsOf(s: Split, lines: seq<Pending>, bps: nat) {
    && s.content == Gross(lines) && s.protocol == Shares(lines, bps)
    && s.maker == Treasury(lines, bps, false) && s.pack == Treasury(lines, bps, true)
  }

  ghost predicate PacksOf(s: Split, lines: seq<Pending>, bps: nat) {
    PackAllocations(s.packs, if lines == [] then [] else lines[1..], bps) && s.pack == Allocated(s.packs)
  }

  ghost predicate SplitOf(s: Split, lines: seq<Pending>, bps: nat) {
    ItemsOf(s.items, lines, bps) && SumsOf(s, lines, bps) && PacksOf(s, lines, bps)
  }

  ghost predicate BaseFirst(lines: seq<Pending>) {
    forall k :: 0 <= k < |lines| ==> (lines[k].packId.None? <==> k == 0)
  }

  function Add(s: Split, line: Pending, fee: nat, rest: nat): Split {
    Split(s.items + [LineItem(line.packId, line.reason, line.amount, fee, rest, Some(line.treasury))],
          if line.packId.None? then s.packs else s.packs + [ToPack(line.packId.value, line.treasury, rest)],
          s.content + line.amount, s.protocol + fee,
          if line.packId.None? then s.maker + rest else s.maker, if line.packId.None? then s.pack else s.pack + rest)
  }

  lemma SumsSnoc(lines: seq<Pending>, line: Pending, bps: nat)
    ensures var all := lines + [line];
      && Gross(all) == Gross(lines) + line.amount && Shares(all, bps) == Shares(lines, bps) + Share(line.amount, bps)
      && forall packs :: Treasury(all, bps, packs) == Treasury(lines, bps, packs) + (if line.packId.Some? == packs then line.amount - Share(line.amount, bps) else 0)
  {
    assert (lines + [line])[..|lines|] == lines;
  }

  lemma PacksSnoc(a: seq<Allocation>, lines: seq<Pending>, bps: nat, line: Pending, rest: nat)
    requires PackAllocations(a, lines, bps) && line.packId.Some? && rest + Share(line.amount, bps) == line.amount
    ensures PackAllocations(a + [ToPack(line.packId.value, line.treasury, rest)], lines + [line], bps)
    ensures Allocated(a + [ToPack(line.packId.value, line.treasury, rest)]) == Allocated(a) + rest
  {
    assert (a + [ToPack(line.packId.value, line.treasury, rest)])[..|a|] == a;
  }

  lemma ItemsSnoc(items: seq<LineItem>, lines: seq<Pending>, bps: nat, item: LineItem, line: Pending)
    requires ItemsOf(items, lines, bps) && SplitItem(item, line, bps) && !RoundsToZero(line.amount, bps)
    ensures ItemsOf(items + [item], lines + [line], bps)
  {}

  lemma PacksOfSnoc(s: Split, lines: seq<Pending>, bps: nat, line: Pending, fee: nat, rest: nat)
    requires PacksOf(s, lines, bps) && (line.packId.None? <==> lines == [])
    requires fee == Share(line.amount, bps) && fee + rest == line.amount
    ensures PacksOf(Add(s, line, fee, rest), lines + [line], bps)
  {
    var all := lines + [line];
    if lines == [] {
      assert all[1..] == [];
    } else {
      assert all[1..] == lines[1..] + [line];
      PacksSnoc(s.packs, lines[1..], bps, line, rest);
    }
  }

  lemma SplitSnoc(s: Split, lines: seq<Pending>, bps: nat, line: Pending, fee: nat, rest: nat)
    requires SplitOf(s, lines, bps) && (line.packId.None? <==> lines == [])
    requires !RoundsToZero(line.amount, bps) && fee == Share(line.amount, bps) && fee + rest == line.amount
    ensures SplitOf(Add(s, line, fee, rest), lines + [line], bps)
  {
    ItemsSnoc(s.items, lines, bps, LineItem(line.packId, line.reason, line.amount, fee, rest, Some(line.treasury)), line);
    PacksOfSnoc(s, lines, bps, line, fee, rest);
    SumsSnoc(lines, line, bps);
    assert SumsOf(Add(s, line, fee, rest), lines + [line], bps);
  }

  lemma SplitNext(s: Split, lines: seq<Pending>, n: nat, bps: nat, fee: nat, rest: nat)
    requires n < |lines| && SplitOf(s, lines[..n], bps) && BaseFirst(lines)
    requires !RoundsToZero(lines[n].amount, bps) && fee == Share(lines[n].amount, bps) && fee + rest == lines[n].amount
    ensures SplitOf(Add(s, lines[n], fee, rest), lines[..n + 1], bps)
  {
    assert lines[..n + 1] == lines[..n] + [lines[n]];
    SplitSnoc(s, lines[..n], bps, lines[n], fee, rest);
  }

  /** The loop body for one pending line. */
  method SplitLine(s: Split, lines: seq<Pending>, n: nat, bps: nat) returns (r: Result<Option<Split>, RangeError>)
    requires bps <= BPS_DENOMINATOR && n < |lines| <= MAX_PACK_LINES + 1 && BaseFirst(lines)
    requires forall k :: 0 <= k < |lines| ==> lines[k].amount <= MAX_PRICE_ATOMIC
    requires SplitOf(s, lines[..n], bps)
    ensures r.Ok?
    ensures r.value.None? <==> RoundsToZero(lines[n].amount, bps)
    ensures r.value.Some? ==> SplitOf(r.value.value, lines[..n + 1], bps)
  {
    var line := lines[n];
    WithinU128(lines, n, bps);
    var split := SplitAtomic(line.amount, bps);
    if split.Err? { assert false; }
    if split.value.None? { return Ok(None); }
    var (fee, rest) := split.value.value;
    var content := CheckedAdd(s.content, line.amount);
    var protocol := CheckedAdd(s.protocol, fee);
    var t := s.(content := content.value, protocol := protocol.value,
                items := s.items + [LineItem(line.packId, line.reason, line.amount, fee, rest, Some(line.treasury))]);
    if line.packId.None? {
      var maker := CheckedAdd(s.maker, rest);
      t := t.(maker := maker.value);
    } else {
      var pack := CheckedAdd(s.pack, rest);
      t := t.(pack := pack.value, packs := s.packs + [ToPack(line.packId.value, line.treasury, rest)]);
    }
    assert t == Add(s, line, fee, rest);
    SplitNext(s, lines, n, bps, fee, rest);
    return Ok(Some(t));
  }

  /** The split of unblocked lines, up to the first that rounds to zero. */
  method SplitLines(lines: seq<Pending>, bps: nat) returns (rounding: Option<nat>, s: Split)
    requires bps <= BPS_DENOMINATOR && |lines| <= MAX_PACK_LINES + 1 && BaseFirst(lines)
    requires forall k :: 0 <= k < |lines| ==> lines[k].amount <= MAX_PRICE_ATOMIC
    ensures rounding.Some? ==> FirstRounding(lines, bps, rounding.value)
    ensures rounding.None? ==> SplitOf(s, lines, bps)
  {
    s := Split([], [], 0, 0, 0, 0);
    for n := 0 to |lines|
      invariant SplitOf(s, lines[..n], bps)
    {
      var next := SplitLine(s, lines, n, bps);
      if next.value.None? {
        forall j | 0 <= j < n ensures !RoundsToZero(lines[j].amount, bps) { assert lines[..n][j] == lines[j]; }
        return Some(n), s;
      }
      s := next.value.value;
    }
    assert lines[..|lines|] == lines;
    return None, s;
  }

  lemma ProductBounded(a: nat, b: nat, x: nat, y: nat)
    requires a <= x && b <= y
    ensures a * b <= x * y
  {
    assert x * y - a * b == (x - a) * y + a * (y - b);
  }

  /** With at most 1001 lines of at most 10^12, every product and every partial sum is far below 2^128. */
  lemma WithinU128(lines: seq<Pending>, n: nat, bps: nat)
    requires bps <= BPS_DENOMINATOR && n < |lines| <= MAX_PACK_LINES + 1
    requires forall k :: 0 <= k < |lines| ==> lines[k].amount <= MAX_PRICE_ATOMIC
    ensures lines[n].amount * bps <= U128_MAX
    ensures Gross(lines[..n]) + lines[n].amount <= 1_001 * MAX_PRICE_ATOMIC <= U128_MAX
    ensures Share(lines[n].amount, bps) <= lines[n].amount
    ensures Shares(lines[..n], bps) + Share(lines[n].amount, bps) <= 1_001 * MAX_PRICE_ATOMIC
    ensures Treasury(lines[..n], bps, false) + lines[n].amount <= 1_001 * MAX_PRICE_ATOMIC
    ensures Treasury(lines[..n], bps, true) + lines[n].amount <= 1_001 * MAX_PRICE_ATOMIC
  {
    ProductBounded(lines[n].amount, bps, MAX_PRICE_ATOMIC, BPS_DENOMINATOR);
    SumsBounded(lines, n, bps);
    ShareBounds(lines[n].amount, bps);
  }

  lemma SumsBounded(lines: seq<Pending>, n: nat, bps: nat)
    requires bps <= BPS_DENOMINATOR && n < |lines| <= MAX_PACK_LINES + 1
    requires forall k :: 0 <= k < |lines| ==> lines[k].amount <= MAX_PRICE_ATOMIC
    ensures Gross(lines[..n]) <= 1_000 * MAX_PRICE_ATOMIC && Shares(lines[..n], bps) <= Gross(lines[..n])
    ensures Treasury(lines[..n], bps, false) <= Gross(lines[..n]) && Treasury(lines[..n], bps, true) <= Gross(lines[..n])
  {
    GrossBounded(lines[..n]);
    SplitConserves(lines[..n], bps);
  }

  /** What a quote of these inputs must be. */
  ghost predicate QuoteOk(c: Commerce, i: Inputs, q: Quote)
    requires PolicyOk(c.base) && InputsOk(i)
  {
    && (q.valid <==> ReadyToComplete(c, i))
    && q.missing == Missing(c, i, i.lines)
    && |q.usedPackIds| == |i.lines| && (forall k :: 0 <= k < |i.lines| ==> q.usedPackIds[k] == i.lines[k].packId)
    && (q.valid ==> ReadyQuote(c, i, q))
    && (!q.valid ==> RefusedQuote(c, i, q))
  }

  function PackIds(i: Inputs): (r: seq<string>)
    ensures |r| == |i.lines| && forall k :: 0 <= k < |i.lines| ==> r[k] == i.lines[k].packId
  { seq(|i.lines|, k requires 0 <= k < |i.lines| => i.lines[k].packId) }

  /** The quote a split makes when nothing blocks. */
  function ReadyOf(i: Inputs, missing: seq<string>, s: Split): Quote {
    Quote(true, Ready, PackIds(i), missing, s.items, s.content, i.fixedFee, s.protocol, s.protocol + i.fixedFee, s.maker, s.pack,
          s.content + i.fixedFee, [ToProtocol(s.protocol + i.fixedFee), ToMaker(i.treasury, s.maker)] + s.packs)
  }

  /** The totals and allocations of a split that met no blocker. */
  method Total(lines: seq<Pending>, i: Inputs, missing: seq<string>, s: Split) returns (q: Quote)
    requires LinesBounded(lines, i) && SplitOf(s, lines, i.bps)
    ensures q == ReadyOf(i, missing, s)
  {
    AmountsBounded(lines, i);
    var protocol := CheckedAdd(s.protocol, i.fixedFee);
    var gross := CheckedAdd(s.content, i.fixedFee);
    return Quote(true, Ready, PackIds(i), missing, s.items, s.content, i.fixedFee, s.protocol, protocol.value, s.maker, s.pack,
                 gross.value, [ToProtocol(protocol.value), ToMaker(i.treasury, s.maker)] + s.packs);
  }

  ghost predicate LinesBounded(lines: seq<Pending>, i: Inputs) {
    && |lines| <= MAX_PACK_LINES + 1 && i.fixedFee <= MAX_PRICE_ATOMIC && i.bps <= BPS_DENOMINATOR
    && forall k :: 0 <= k < |lines| ==> lines[k].amount <= MAX_PRICE_ATOMIC
  }

  /** The quote.  It never throws; it is READY exactly when nothing blocks and no paid line's share rounds to
      zero; otherwise every amount is zero and the reason is the first blocker in base-then-pack order or, if
      there is none, the first rounding failure. */
  method QuoteComplete(c: Commerce, i: Inputs) returns (r: Result<Quote, RangeError>)
    requires PolicyOk(c.base) && InputsOk(i)
    ensures r.Ok? && QuoteOk(c, i, r.value)
  {
    var lines, missing, blocked := Pend(c, i);
    LinesShape(c, i);
    if blocked.Some? {
      var items := ZeroLines(lines, None);
      var q := EmptyQuote(blocked.value, PackIds(i), missing, items);
      RefusedByBlock(c, i, q);
      return Ok(q);
    }
    var rounding, s := SplitLines(lines, i.bps);
    if rounding.Some? {
      var items := ZeroLines(lines, rounding);
      var q := EmptyQuote(ProtocolShareRoundsToZero, PackIds(i), missing, items);
      RefusedByRounding(c, i, q, rounding.value);
      return Ok(q);
    }
    var q := Total(lines, i, missing, s);
    ReadyHolds(c, i, missing, s);
    return Ok(q);
  }

  lemma LinesShape(c: Commerce, i: Inputs)
    requires PolicyOk(c.base) && InputsOk(i)
    ensures LinesBounded(Lines(c, i), i) && BaseFirst(Lines(c, i))
  {
    BlockedMeaning(c, i);
  }

  lemma RefusedByBlock(c: Commerce, i: Inputs, q: Quote)
    requires PolicyOk(c.base) && InputsOk(i)
    requires BlockedBy(Lines(c, i), Some(q.reason)) && ZeroItems(q.lineItems, Lines(c, i), None)
    requires q == EmptyQuote(q.reason, q.usedPackIds, q.missing, q.lineItems)
    ensures RefusedQuote(c, i, q) && !ReadyToComplete(c, i)
  {
    BlockedMeaning(c, i);
  }

  lemma RefusedByRounding(c: Commerce, i: Inputs, q: Quote, n: nat)
    requires PolicyOk(c.base) && InputsOk(i)
    requires BlockedBy(Lines(c, i), None) && FirstRounding(Lines(c, i), i.bps, n)
    requires ZeroItems(q.lineItems, Lines(c, i), Some(n))
    requires q == EmptyQuote(ProtocolShareRoundsToZero, q.usedPackIds, q.missing, q.lineItems)
    ensures RefusedQuote(c, i, q) && !ReadyToComplete(c, i)
  {
    BlockedMeaning(c, i);
  }

  lemma AllocatedReady(protocol: nat, treasury: string, maker: nat, packs: seq<Allocation>)
    ensures Allocated([ToProtocol(protocol), ToMaker(treasury, maker)] + packs) == protocol + maker + Allocated(packs)
  {
    var fixed := [ToProtocol(protocol), ToMaker(treasury, maker)];
    AllocatedAppend(fixed, packs);
    assert fixed[..1] == [fixed[0]] && [fixed[0]][..0] == [];
    assert Allocated([fixed[0]]) == protocol;
  }

  lemma ReadyHolds(c: Commerce, i: Inputs, missing: seq<string>, s: Split)
    requires PolicyOk(c.base) && InputsOk(i) && missing == Missing(c, i, i.lines)
    requires BlockedBy(Lines(c, i), None) && SplitOf(s, Lines(c, i), i.bps)
    ensures QuoteOk(c, i, ReadyOf(i, missing, s))
  {
    BlockedMeaning(c, i);
    assert ReadyToComplete(c, i);
    LinesShape(c, i);
    ReadySums(Lines(c, i), i, missing, s);
  }

  lemma ReadySums(lines: seq<Pending>, i: Inputs, missing: seq<string>, s: Split)
    requires LinesBounded(lines, i) && SplitOf(s, lines, i.bps)
    ensures ReadyTotals(lines, i, ReadyOf(i, missing, s))
  {
    var q := ReadyOf(i, missing, s);
    AmountsBounded(lines, i);
    SplitConserves(lines, i.bps);
    ReadyAllocations(i, missing, s);
  }

  lemma ReadyAllocations(i: Inputs, missing: seq<string>, s: Split)
    ensures var q := ReadyOf(i, missing, s);
      && |q.allocations| >= 2 && q.allocations[2..] == s.packs
      && Allocated(q.allocations) == s.protocol + i.fixedFee + s.maker + Allocated(s.packs)
  {
    AllocatedReady(s.protocol + i.fixedFee, i.treasury, s.maker, s.packs);
    assert ReadyOf(i, missing, s).allocations[2..] == s.packs;
  }

  method ZeroLines(lines: seq<Pending>, rounding: Option<nat>) returns (items: seq<LineItem>)
    ensures ZeroItems(items, lines, rounding)
  {
    items := [];
    for k := 0 to |lines|
      invariant ZeroItems(items, lines[..k], rounding)
    {
      var reason := if rounding == Some(k) then ProtocolShareRoundsToZero else lines[k].reason;
      items := items + [LineItem(lines[k].packId, reason, 0, 0, 0, None)];
    }
    assert lines[..|lines|] == lines;
  }

  lemma AmountsBounded(lines: seq<Pending>, i: Inputs)
    requires LinesBounded(lines, i)
    ensures Shares(lines, i.bps) + i.fixedFee <= Gross(lines) + i.fixedFee <= 1_002 * MAX_PRICE_ATOMIC <= U128_MAX
  {
    GrossBounded(lines);
    SplitConserves(lines, i.bps);
  }

  lemma {:induction false} AllocatedAppend(a: seq<Allocation>, b: seq<Allocation>)
    ensures Allocated(a + b) == Allocated(a) + Allocated(b)
  {
    if b == [] {
      assert a + b == a;
    } else {
      AllocatedAppend(a, b[..|b| - 1]);
      assert (a + b)[..|a + b| - 1] == a + b[..|b| - 1];
    }
  }

  /** A READY quote: the sums of the lines, conserved, within the fee bounds, and below 1002 times 10^12. */
  ghost predicate ReadyQuote(c: Commerce, i: Inputs, q: Quote)
    requires PolicyOk(c.base) && InputsOk(i)
  {
    ReadyTotals(Lines(c, i), i, q)
  }

  ghost predicate ReadyTotals(lines: seq<Pending>, i: Inputs, q: Quote) {
    && q.reason == Ready
    && |q.lineItems| == |lines| && (forall k :: 0 <= k < |lines| ==> SplitItem(q.lineItems[k], lines[k], i.bps))
    && q.content == Gross(lines) && q.protocolContent == Shares(lines, i.bps) && q.fixedProtocol == i.fixedFee
    && q.protocol == q.protocolContent + i.fixedFee
    && q.makerTreasury == Treasury(lines, i.bps, false) && q.packTreasury == Treasury(lines, i.bps, true)
    && |q.allocations| >= 2
    && q.allocations[0] == ToProtocol(q.protocol) && q.allocations[1] == ToMaker(i.treasury, q.makerTreasury)
    && PackAllocations(q.allocations[2..], if lines == [] then [] else lines[1..], i.bps)
    && q.gross == Allocated(q.allocations)
    && q.gross == q.content + i.fixedFee
    && q.content == q.protocolContent + q.makerTreasury + q.packTreasury
    && q.gross <= 1_002 * MAX_PRICE_ATOMIC
  }

  ghost predicate RefusedQuote(c: Commerce, i: Inputs, q: Quote)
    requires PolicyOk(c.base) && InputsOk(i)
  {
    var lines := Lines(c, i);
    && q == EmptyQuote(q.reason, q.usedPackIds, q.missing, q.lineItems)
    && q.reason != PackNotActive
    && ((exists k :: FirstBlocked(lines, k) && q.reason == lines[k].reason && ZeroItems(q.lineItems, lines, None))
        || (Unblocked(c, i) && q.reason == ProtocolShareRoundsToZero
            && exists k: nat :: FirstRounding(lines, i.bps, k) && ZeroItems(q.lineItems, lines, Some(k))))
  }

  /** The fee of a READY quote, whatever the number of lines: per-line flooring costs the protocol less than
      one unit a line against flooring once. */
  lemma ReadyQuoteFee(c: Commerce, i: Inputs, q: Quote)
    requires PolicyOk(c.base) && InputsOk(i) && ReadyQuote(c, i, q)
    ensures q.protocolContent <= Share(q.content, i.bps) < q.protocolContent + 1 + |i.lines|
  {
    FloorsAddUp(Lines(c, i), i.bps);
  }
}
