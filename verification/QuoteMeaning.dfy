/** What a Complete quote says, line by line, in terms of its inputs alone. */
module QuoteMeaning {
  import opened Results
  import opened CompletionPolicy
  import opened CompleteQuote

  /** What one more Complete adds to what this wallet owes. */
  function Due(p: Policy, completes: nat): int { Owed(p, completes + 1) - Owed(p, completes) }

  // ---- line k of the inputs: 0 is the Maker, k the k-th used pack ------------------------------------

  function PackAt(i: Inputs, k: nat): Option<string>
    requires k <= |i.lines|
  { if k == 0 then None else Some(i.lines[k - 1].packId) }

  function PayeeAt(i: Inputs, k: nat): string
    requires k <= |i.lines|
  { if k == 0 then i.treasury else i.lines[k - 1].treasury }

  function PolicyAt(c: Commerce, i: Inputs, k: nat): Policy
    requires k <= |i.lines|
  { if k == 0 then c.base else i.lines[k - 1].completion }

  function WalletCountAt(i: Inputs, k: nat): nat
    requires k <= |i.lines|
  { if k == 0 then i.walletCount else i.lines[k - 1].walletCount }

  function TotalCountAt(i: Inputs, k: nat): nat
    requires k <= |i.lines|
  { if k == 0 then i.totalCount else i.lines[k - 1].totalCount }

  function DueAt(c: Commerce, i: Inputs, k: nat): int
    requires k <= |i.lines|
  { Due(PolicyAt(c, i, k), WalletCountAt(i, k)) }

  /** Without it the line is refused before its policy is asked: an active and accessible Maker, or a verified proof
      of the pack, or of a Maker that includes the pack and is free or owned. */
  predicate HasAccess(c: Commerce, i: Inputs, k: nat)
    requires k <= |i.lines|
  {
    var free := !c.paidAccess || i.owns;
    if k == 0 then i.lifecycle == Active && free
    else
      var line := i.lines[k - 1];
      line.verified && (line.kind == PackAccessProof || (line.kind == MakerAccessProof && line.access == IncludedWithMaker && free))
  }

  predicate Refused(c: Commerce, i: Inputs, k: nat)
    requires k <= |i.lines|
  {
    !HasAccess(c, i, k) || CapReached(PolicyAt(c, i, k), TotalCountAt(i, k))
    || QuotaExhausted(PolicyAt(c, i, k), WalletCountAt(i, k))
  }

  /** The reason names the line's state. */
  ghost predicate ReasonAt(c: Commerce, i: Inputs, k: nat, r: Reason)
    requires k <= |i.lines|
  {
    && (r == MakerNotActive <==> k == 0 && i.lifecycle != Active)
    && (r == MakerAccessRequired <==> k == 0 && i.lifecycle == Active && c.paidAccess && !i.owns)
    && (r == PackAccessRequired <==> k > 0 && !HasAccess(c, i, k))
    && (r.Charged? <==> HasAccess(c, i, k))
    && (r.Charged? ==> ReasonTells(PolicyAt(c, i, k), WalletCountAt(i, k), TotalCountAt(i, k), r.why))
  }

  /** A pending line is line k of the inputs. */
  ghost predicate Tells(c: Commerce, i: Inputs, k: nat, l: Pending)
    requires k <= |i.lines|
  {
    && l.packId == PackAt(i, k) && l.treasury == PayeeAt(i, k) && ReasonAt(c, i, k, l.reason)
    && (l.blocked <==> Refused(c, i, k)) && l.amount == if l.blocked then 0 else DueAt(c, i, k)
  }

  lemma LineTells(c: Commerce, i: Inputs, k: nat)
    requires PolicyOk(c.base) && InputsOk(i) && k <= |i.lines|
    ensures |Lines(c, i)| == |i.lines| + 1 && Tells(c, i, k, Lines(c, i)[k])
  {
    ChargeMeaning(PolicyAt(c, i, k), WalletCountAt(i, k), TotalCountAt(i, k));
    if k == 0 {
      assert Lines(c, i)[0] == BaseLine(c, i);
    } else {
      assert Lines(c, i)[k] == PackLine(c, i, i.lines[k - 1]);
    }
  }

  // ---- a READY quote ----------------------------------------------------------------------------------

  /** Nothing is refused, and no due amount has a share that rounds to nothing. */
  ghost predicate Payable(c: Commerce, i: Inputs) {
    && (forall k: nat {:trigger Refused(c, i, k)} :: k <= |i.lines| ==> !Refused(c, i, k))
    && (forall k: nat {:trigger DueAt(c, i, k)} :: k <= |i.lines| ==>
          DueAt(c, i, k) <= 0 || i.bps == 0 || DueAt(c, i, k) * i.bps >= BPS_DENOMINATOR)
  }

  /** Line k as charged: its pack, its payee, what is due, the floored share and the rest. */
  ghost predicate ItemPays(c: Commerce, i: Inputs, k: nat, item: LineItem)
    requires k <= |i.lines|
  {
    && item.packId == PackAt(i, k) && item.payee == Some(PayeeAt(i, k)) && ReasonAt(c, i, k, item.reason)
    && item.content == DueAt(c, i, k) && item.treasury == item.content - item.protocol
    && item.protocol * BPS_DENOMINATOR <= item.content * i.bps < (item.protocol + 1) * BPS_DENOMINATOR
  }

  /** A quote is READY exactly when it is payable; then every line is charged what is due, to its own treasury, and the
      allocations pay the protocol, the Maker and each pack, in order, exactly the items' shares and rests. */
  lemma ReadyPays(c: Commerce, i: Inputs, q: Quote)
    requires PolicyOk(c.base) && InputsOk(i) && QuoteOk(c, i, q)
    ensures q.valid <==> Payable(c, i)
    ensures q.valid ==> |q.lineItems| == |i.lines| + 1 && |q.allocations| == |i.lines| + 2
    ensures q.valid ==> forall k: nat :: k <= |i.lines| ==> ItemPays(c, i, k, q.lineItems[k])
    ensures q.valid ==> q.allocations[0] == ToProtocol(q.protocol) && q.protocol == q.protocolContent + i.fixedFee
    ensures q.valid ==> q.allocations[1] == ToMaker(i.treasury, q.lineItems[0].treasury)
    ensures q.valid ==> forall k: nat :: k < |i.lines| ==>
              q.allocations[k + 2] == ToPack(i.lines[k].packId, i.lines[k].treasury, q.lineItems[k + 1].treasury)
  {
    ReadyMeansPayable(c, i);
    if q.valid {
      LineTells(c, i, 0);
      forall k: nat | k <= |i.lines| ensures ItemPays(c, i, k, q.lineItems[k]) { ItemTells(c, i, q, k); }
      forall k: nat | k < |i.lines|
        ensures q.allocations[k + 2] == ToPack(i.lines[k].packId, i.lines[k].treasury, q.lineItems[k + 1].treasury)
      { PackPaid(c, i, q, k); }
      MakerShare(c, i, q);
    }
  }

  lemma ReadyMeansPayable(c: Commerce, i: Inputs)
    requires PolicyOk(c.base) && InputsOk(i)
    ensures ReadyToComplete(c, i) <==> Payable(c, i)
  {
    BlockedMeaning(c, i);
    LineTells(c, i, 0);
    forall k: nat | k <= |i.lines| ensures Tells(c, i, k, Lines(c, i)[k]) { LineTells(c, i, k); }
    if Payable(c, i) {
      forall k | 0 <= k < |Lines(c, i)| ensures !Lines(c, i)[k].blocked && !RoundsToZero(Lines(c, i)[k].amount, i.bps) {
        assert Tells(c, i, k, Lines(c, i)[k]) && !Refused(c, i, k);
      }
    }
    if ReadyToComplete(c, i) {
      forall k: nat | k <= |i.lines|
        ensures !Refused(c, i, k) && (DueAt(c, i, k) <= 0 || i.bps == 0 || DueAt(c, i, k) * i.bps >= BPS_DENOMINATOR)
      { assert Tells(c, i, k, Lines(c, i)[k]) && !Lines(c, i)[k].blocked && !RoundsToZero(Lines(c, i)[k].amount, i.bps); }
    }
  }

  lemma ItemTells(c: Commerce, i: Inputs, q: Quote, k: nat)
    requires PolicyOk(c.base) && InputsOk(i) && QuoteOk(c, i, q) && q.valid && k <= |i.lines|
    ensures |q.lineItems| == |i.lines| + 1 && ItemPays(c, i, k, q.lineItems[k])
  {
    LineTells(c, i, k);
    BlockedMeaning(c, i);
    var l := Lines(c, i)[k];
    assert SplitItem(q.lineItems[k], l, i.bps) && !l.blocked;
    ShareBounds(l.amount, i.bps);
  }

  lemma PackPaid(c: Commerce, i: Inputs, q: Quote, k: nat)
    requires PolicyOk(c.base) && InputsOk(i) && QuoteOk(c, i, q) && q.valid && k < |i.lines|
    ensures |q.allocations| == |i.lines| + 2 && |q.lineItems| == |i.lines| + 1
    ensures q.allocations[k + 2] == ToPack(i.lines[k].packId, i.lines[k].treasury, q.lineItems[k + 1].treasury)
  {
    LineTells(c, i, k + 1);
    var lines := Lines(c, i);
    assert q.allocations[2..][k] == q.allocations[k + 2] && lines[1..][k] == lines[k + 1];
    assert SplitItem(q.lineItems[k + 1], lines[k + 1], i.bps);
  }

  /** The Maker's treasury receives the rest of the base line and nothing else. */
  lemma MakerShare(c: Commerce, i: Inputs, q: Quote)
    requires PolicyOk(c.base) && InputsOk(i) && QuoteOk(c, i, q) && q.valid
    ensures |q.allocations| == |i.lines| + 2 && |q.lineItems| == |i.lines| + 1
    ensures q.makerTreasury == q.lineItems[0].treasury
  {
    var lines := Lines(c, i);
    LinesShape(c, i);
    LineTells(c, i, 0);
    assert |q.allocations[2..]| == |lines[1..]|;
    BaseAlone(lines, i.bps);
    assert SplitItem(q.lineItems[0], lines[0], i.bps);
  }

  lemma {:induction false} BaseAlone(lines: seq<Pending>, bps: nat)
    requires BaseFirst(lines) && lines != []
    ensures Treasury(lines, bps, false) == lines[0].amount - Share(lines[0].amount, bps)
  {
    var n := |lines| - 1;
    if n > 0 {
      BaseAlone(lines[..n], bps);
    } else {
      assert lines[..0] == [];
    }
  }

  // ---- a refused quote --------------------------------------------------------------------------------

  ghost predicate FirstRefused(c: Commerce, i: Inputs, k: nat) {
    k <= |i.lines| && Refused(c, i, k) && forall j: nat {:trigger Refused(c, i, j)} :: j < k ==> !Refused(c, i, j)
  }

  /** No line is refused, and the share of line k rounds to nothing. */
  ghost predicate Rounds(c: Commerce, i: Inputs, k: nat) {
    && k <= |i.lines| && 0 < DueAt(c, i, k) && DueAt(c, i, k) * i.bps < BPS_DENOMINATOR
    && forall j: nat {:trigger Refused(c, i, j)} :: j <= |i.lines| ==> !Refused(c, i, j)
  }

  /** Every line is named with nothing charged, and with its own reason unless it is the one that rounds. */
  ghost predicate ItemsRefused(c: Commerce, i: Inputs, items: seq<LineItem>, rounds: Option<nat>) {
    && |items| == |i.lines| + 1
    && forall j: nat :: j <= |i.lines| ==>
         && items[j] == LineItem(PackAt(i, j), items[j].reason, 0, 0, 0, None)
         && if rounds == Some(j) then items[j].reason == ProtocolShareRoundsToZero else ReasonAt(c, i, j, items[j].reason)
  }

  lemma AllTell(c: Commerce, i: Inputs)
    requires PolicyOk(c.base) && InputsOk(i)
    ensures |Lines(c, i)| == |i.lines| + 1
    ensures forall k: nat :: k <= |i.lines| ==> Tells(c, i, k, Lines(c, i)[k])
  {
    LineTells(c, i, 0);
    forall k: nat | k <= |i.lines| ensures Tells(c, i, k, Lines(c, i)[k]) { LineTells(c, i, k); }
  }

  lemma BlockTells(c: Commerce, i: Inputs, q: Quote, k: nat)
    requires PolicyOk(c.base) && InputsOk(i)
    requires FirstBlocked(Lines(c, i), k) && q.reason == Lines(c, i)[k].reason && ZeroItems(q.lineItems, Lines(c, i), None)
    ensures FirstRefused(c, i, k) && ItemsRefused(c, i, q.lineItems, None) && q.reason == q.lineItems[k].reason
  {
    AllTell(c, i);
    forall m: nat | m < k ensures !Refused(c, i, m) { assert Tells(c, i, m, Lines(c, i)[m]) && !Lines(c, i)[m].blocked; }
  }

  lemma RoundingTells(c: Commerce, i: Inputs, q: Quote, k: nat)
    requires PolicyOk(c.base) && InputsOk(i) && Unblocked(c, i)
    requires FirstRounding(Lines(c, i), i.bps, k) && ZeroItems(q.lineItems, Lines(c, i), Some(k))
    ensures Rounds(c, i, k) && ItemsRefused(c, i, q.lineItems, Some(k))
  {
    AllTell(c, i);
    BlockedMeaning(c, i);
    forall m: nat | m <= |i.lines| ensures !Refused(c, i, m) { assert Tells(c, i, m, Lines(c, i)[m]) && !Lines(c, i)[m].blocked; }
  }

  /** A refused quote charges nothing and gives the reason of the first refused line, naming every line with its own;
      when no line is refused, the share of line k rounds to nothing and that is the reason given. */
  lemma RefusedTells(c: Commerce, i: Inputs, q: Quote) returns (k: nat)
    requires PolicyOk(c.base) && InputsOk(i) && QuoteOk(c, i, q) && !q.valid
    ensures q.allocations == [] && q.gross == q.content == q.protocol == q.makerTreasury == q.packTreasury == 0
    ensures k < |q.lineItems| && q.reason == q.lineItems[k].reason
    ensures || (FirstRefused(c, i, k) && ItemsRefused(c, i, q.lineItems, None))
            || (Rounds(c, i, k) && ItemsRefused(c, i, q.lineItems, Some(k)))
  {
    var lines := Lines(c, i);
    if j :| FirstBlocked(lines, j) && q.reason == lines[j].reason && ZeroItems(q.lineItems, lines, None) {
      k := j;
      BlockTells(c, i, q, k);
    } else {
      k :| FirstRounding(lines, i.bps, k) && ZeroItems(q.lineItems, lines, Some(k));
      RoundingTells(c, i, q, k);
    }
  }

  /** The packs reported missing are exactly those of the lines without access, in order. */
  lemma MissingTells(c: Commerce, i: Inputs, q: Quote) returns (at: seq<nat>)
    requires PolicyOk(c.base) && InputsOk(i) && QuoteOk(c, i, q)
    ensures |at| == |q.missing| && forall n :: 0 <= n < |at| ==> 0 < at[n] <= |i.lines| && Some(q.missing[n]) == PackAt(i, at[n])
    ensures forall m, n :: 0 <= m < n < |at| ==> at[m] < at[n]
    ensures forall k: nat {:trigger HasAccess(c, i, k)} :: 0 < k <= |i.lines| ==> (k in at <==> !HasAccess(c, i, k))
  {
    at := MissingAt(c, i, |i.lines|);
    assert i.lines[..|i.lines|] == i.lines;
  }

  lemma {:induction false} MissingAt(c: Commerce, i: Inputs, n: nat) returns (at: seq<nat>)
    requires n <= |i.lines|
    ensures |at| == |Missing(c, i, i.lines[..n])|
    ensures forall m :: 0 <= m < |at| ==> 0 < at[m] <= n && Some(Missing(c, i, i.lines[..n])[m]) == PackAt(i, at[m])
    ensures forall l, m :: 0 <= l < m < |at| ==> at[l] < at[m]
    ensures forall k: nat {:trigger HasAccess(c, i, k)} :: 0 < k <= n ==> (k in at <==> !HasAccess(c, i, k))
  {
    at := [];
    if n > 0 {
      at := MissingAt(c, i, n - 1);
      assert i.lines[..n][..n - 1] == i.lines[..n - 1];
      if !Entitled(c, i, i.lines[n - 1]) { at := at + [n]; }
    }
  }
}
