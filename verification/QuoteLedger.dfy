/**
 * Quota and cap over whole runs: any number of wallets request Completes, and each READY one counts once for
 * the maker and once for every pack it uses, as the chain does between two quotes.
 */
module QuoteLedger {
  import opened Results
  import opened CompletionPolicy
  import opened CompleteQuote
  import QuoteMeaning

  type Wallet = nat

  datatype Scope = Base | Pack(packId: string)

  /** The terms every quote of a run is made under. */
  datatype Terms = Terms(commerce: Commerce, packs: map<string, (PackAccess, Policy)>)

  ghost predicate TermsOk(t: Terms) {
    PolicyOk(t.commerce.base) && forall id :: id in t.packs ==> PolicyOk(t.packs[id].1)
  }

  predicate Known(t: Terms, s: Scope) { s.Base? || s.packId in t.packs }

  function PolicyOf(t: Terms, s: Scope): Policy
    requires Known(t, s)
  {
    if s.Base? then t.commerce.base else t.packs[s.packId].1
  }

  /** One wallet's entry for a scope: completes counted and content charged. */
  datatype Entry = Entry(completes: nat, charged: nat)

  datatype Ledger = Ledger(entries: map<(Scope, Wallet), Entry>, totals: map<Scope, nat>)

  function EntryOf(l: Ledger, s: Scope, w: Wallet): Entry {
    if (s, w) in l.entries then l.entries[(s, w)] else Entry(0, 0)
  }

  function TotalOf(l: Ledger, s: Scope): nat {
    if s in l.totals then l.totals[s] else 0
  }

  /** A used pack as the wallet presents it; the counters come from the ledger. */
  datatype Use = Use(packId: string, kind: EntitlementKind, verified: bool, treasury: string)

  datatype Request = Request(wallet: Wallet, owns: bool, lifecycle: Lifecycle, treasury: string, bps: nat,
                             fixedFee: nat, uses: seq<Use>)

  function UsedLine(t: Terms, l: Ledger, w: Wallet, u: Use): Line
    requires u.packId in t.packs
  {
    var e := EntryOf(l, Pack(u.packId), w);
    Line(u.packId, t.packs[u.packId].0, t.packs[u.packId].1, u.kind, u.verified, Active, u.treasury,
         e.completes, TotalOf(l, Pack(u.packId)))
  }

  ghost predicate UsesKnown(t: Terms, r: Request) {
    forall k :: 0 <= k < |r.uses| ==> r.uses[k].packId in t.packs
  }

  /** The quote input this request makes against the current counters. */
  function InputsOf(t: Terms, l: Ledger, r: Request): Inputs
    requires UsesKnown(t, r)
  {
    Inputs(r.owns, r.lifecycle, r.treasury, EntryOf(l, Base, r.wallet).completes, TotalOf(l, Base), r.bps, r.fixedFee,
           seq(|r.uses|, k requires 0 <= k < |r.uses| => UsedLine(t, l, r.wallet, r.uses[k])))
  }

  /** The request is accepted by validation and its quote is READY. */
  ghost predicate Completes(t: Terms, l: Ledger, r: Request) {
    UsesKnown(t, r) && InputsOk(InputsOf(t, l, r)) && ReadyToComplete(t.commerce, InputsOf(t, l, r))
  }

  function ScopeOf(p: Pending): Scope {
    if p.packId.Some? then Pack(p.packId.value) else Base
  }

  /** Count and charge the lines of a READY quote. */
  function Post(l: Ledger, w: Wallet, lines: seq<Pending>): Ledger {
    if lines == [] then l
    else
      var p, m := lines[|lines| - 1], Post(l, w, lines[..|lines| - 1]);
      var s := ScopeOf(p);
      var e := EntryOf(m, s, w);
      Ledger(m.entries[(s, w) := Entry(e.completes + 1, e.charged + p.amount)], m.totals[s := TotalOf(m, s) + 1])
  }

  ghost function Step(t: Terms, l: Ledger, r: Request): Ledger {
    if Completes(t, l, r) then Post(l, r.wallet, Lines(t.commerce, InputsOf(t, l, r))) else l
  }

  ghost function Run(t: Terms, l: Ledger, requests: seq<Request>): Ledger
    decreases |requests|
  {
    if requests == [] then l else Run(t, Step(t, l, requests[0]), requests[1..])
  }

  /** Some line of the quote is of this scope: where it is, or None. */
  function LineFor(lines: seq<Pending>, s: Scope): (k: Option<nat>)
    ensures k.Some? ==> k.value < |lines| && ScopeOf(lines[k.value]) == s
    ensures k.None? ==> forall j :: 0 <= j < |lines| ==> ScopeOf(lines[j]) != s
  {
    if lines == [] then None
    else if ScopeOf(lines[|lines| - 1]) == s then Some(|lines| - 1)
    else LineFor(lines[..|lines| - 1], s)
  }

  ghost predicate ScopesDistinct(lines: seq<Pending>) {
    forall i, j :: 0 <= i < j < |lines| ==> ScopeOf(lines[i]) != ScopeOf(lines[j])
  }

  /** Posting touches a scope once if a line has it, and nobody else's entries. */
  lemma {:induction false} PostEffect(l: Ledger, w: Wallet, lines: seq<Pending>, s: Scope, v: Wallet)
    requires ScopesDistinct(lines)
    ensures var m, k := Post(l, w, lines), LineFor(lines, s);
      && TotalOf(m, s) == TotalOf(l, s) + (if k.Some? then 1 else 0)
      && EntryOf(m, s, v) == if k.None? || v != w then EntryOf(l, s, v)
           else Entry(EntryOf(l, s, v).completes + 1, EntryOf(l, s, v).charged + lines[k.value].amount)
  {
    if lines != [] {
      var init := lines[..|lines| - 1];
      PostEffect(l, w, init, s, v);
      if ScopeOf(lines[|lines| - 1]) == s && LineFor(init, s).Some? {
        assert false;
      }
    }
  }

  lemma LinesDistinct(t: Terms, l: Ledger, r: Request)
    requires UsesKnown(t, r) && InputsOk(InputsOf(t, l, r))
    ensures ScopesDistinct(Lines(t.commerce, InputsOf(t, l, r)))
  {
    var i := InputsOf(t, l, r);
    var all := Lines(t.commerce, i);
    forall j, k | 0 <= j < k < |all| ensures ScopeOf(all[j]) != ScopeOf(all[k]) {
      assert all[k] == PackLine(t.commerce, i, i.lines[k - 1]);
      if j > 0 { assert all[j] == PackLine(t.commerce, i, i.lines[j - 1]); }
    }
  }

  /** What the counters of one scope must satisfy under its policy. */
  ghost predicate ScopeKept(p: Policy, l: Ledger, s: Scope) {
    && (p.cap.Some? ==> TotalOf(l, s) <= p.cap.value)
    && forall w: Wallet :: EntryKept(p, EntryOf(l, s, w)) && EntryOf(l, s, w).completes <= TotalOf(l, s)
  }

  ghost predicate EntryKept(p: Policy, e: Entry) {
    && (p.mode == FreeQuotaThenBlock ==> e.completes <= p.quota)
    && e.charged == Owed(p, e.completes)
  }

  /** The line a READY quote has for a scope is unblocked and charged by that scope's own counters. */
  lemma LineOfScope(t: Terms, l: Ledger, r: Request, s: Scope)
    requires TermsOk(t) && Known(t, s) && Completes(t, l, r)
    ensures var lines := Lines(t.commerce, InputsOf(t, l, r));
      var k := LineFor(lines, s);
      k.Some? ==>
        var charge := CompletionCharge(PolicyOf(t, s), EntryOf(l, s, r.wallet).completes, TotalOf(l, s));
        !charge.blocked && lines[k.value].amount == charge.amount
  {
    var i := InputsOf(t, l, r);
    var lines := Lines(t.commerce, i);
    var k := LineFor(lines, s);
    BlockedMeaning(t.commerce, i);
    if k.Some? {
      assert !lines[k.value].blocked;
      if k.value > 0 {
        var u := r.uses[k.value - 1];
        assert i.lines[k.value - 1] == UsedLine(t, l, r.wallet, u);
        assert lines[k.value] == PackLine(t.commerce, i, i.lines[k.value - 1]);
      }
    }
  }

  lemma StepKeeps(t: Terms, l: Ledger, r: Request, s: Scope)
    requires TermsOk(t) && Known(t, s) && ScopeKept(PolicyOf(t, s), l, s)
    ensures ScopeKept(PolicyOf(t, s), Step(t, l, r), s)
  {
    if Completes(t, l, r) {
      var p, m := PolicyOf(t, s), Step(t, l, r);
      var lines := Lines(t.commerce, InputsOf(t, l, r));
      LinesDistinct(t, l, r);
      LineOfScope(t, l, r, s);
      var e := EntryOf(l, s, r.wallet);
      assert EntryKept(p, e);
      ChargeMeaning(p, e.completes, TotalOf(l, s));
      PostEffect(l, r.wallet, lines, s, r.wallet);
      forall w: Wallet ensures EntryKept(p, EntryOf(m, s, w)) && EntryOf(m, s, w).completes <= TotalOf(m, s) {
        PostEffect(l, r.wallet, lines, s, w);
        assert EntryKept(p, EntryOf(l, s, w));
      }
    }
  }

  /** In every run from an empty ledger, for the maker and for every pack: completes in all never pass the cap,
      no wallet passes a blocking quota, and each wallet has been charged exactly what its completes owe —
      after the quota, the price times the completes beyond it. */
  lemma {:induction false} RunKeeps(t: Terms, l: Ledger, requests: seq<Request>, s: Scope)
    requires TermsOk(t) && Known(t, s) && ScopeKept(PolicyOf(t, s), l, s)
    ensures ScopeKept(PolicyOf(t, s), Run(t, l, requests), s)
    decreases |requests|
  {
    if requests != [] {
      StepKeeps(t, l, requests[0], s);
      RunKeeps(t, Step(t, l, requests[0]), requests[1..], s);
    }
  }

  lemma QuotaAndCap(t: Terms, requests: seq<Request>, s: Scope, w: Wallet)
    requires TermsOk(t) && Known(t, s)
    ensures var p, l := PolicyOf(t, s), Run(t, Ledger(map[], map[]), requests);
      var e := EntryOf(l, s, w);
      && (p.cap.Some? ==> TotalOf(l, s) <= p.cap.value)
      && (p.mode == FreeQuotaThenBlock ==> e.completes <= p.quota)
      && (p.mode == FreeQuotaThenPaid ==>
            e.charged == (if e.completes > p.quota then e.completes - p.quota else 0) * p.price)
      && (p.mode == PaidEveryTime ==> e.charged == e.completes * p.price)
      && (!IsPaid(p.mode) ==> e.charged == 0)
  {
    RunKeeps(t, Ledger(map[], map[]), requests, s);
    var l := Run(t, Ledger(map[], map[]), requests);
    assert EntryKept(PolicyOf(t, s), EntryOf(l, s, w));
  }

  /** A Complete that is counted was asked of an active, accessible Maker with proof of every pack it uses, and the quote
      it was made under pays the treasuries the request names. */
  lemma CountedIsProven(t: Terms, l: Ledger, r: Request, q: Quote)
    requires TermsOk(t) && Completes(t, l, r) && QuoteOk(t.commerce, InputsOf(t, l, r), q)
    ensures q.valid && r.lifecycle == Active && (t.commerce.paidAccess ==> r.owns)
    ensures forall k: nat :: k < |r.uses| ==>
              var u := r.uses[k];
              u.verified && (u.kind == PackAccessProof || (u.kind == MakerAccessProof && t.packs[u.packId].0 == IncludedWithMaker))
    ensures |q.allocations| == |r.uses| + 2 && q.allocations[1].ToMaker? && q.allocations[1].identity == r.treasury
    ensures forall k: nat :: k < |r.uses| ==>
              var a := q.allocations[k + 2];
              a.ToPack? && a.packId == r.uses[k].packId && a.identity == r.uses[k].treasury
  {
    var i := InputsOf(t, l, r);
    QuoteMeaning.ReadyPays(t.commerce, i, q);
    forall k: nat | k < |r.uses|
      ensures r.uses[k].verified
      ensures r.uses[k].kind == PackAccessProof || (r.uses[k].kind == MakerAccessProof && t.packs[r.uses[k].packId].0 == IncludedWithMaker)
    {
      assert !QuoteMeaning.Refused(t.commerce, i, k + 1);
    }
    assert !QuoteMeaning.Refused(t.commerce, i, 0);
  }
}
