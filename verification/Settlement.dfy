/** The amounts of a transfer from admission to completion: fee breakdown checks (domain/transfer.go), the
    guards of CreateTransfer and the ledger lines of the on-ramp and completion steps (core/engine.go). */
module Settlement {
  import opened Decomposition
  import opened Journal
  import opened Saga
  import opened Wrappers

  datatype FeeBreakdown = FeeBreakdown(onRamp: real, network: real, offRamp: real, total: real)

  datatype Admission =
    | Admitted
    | AmountTooLow
    | NegativeOnRampFee
    | NegativeNetworkFee
    | NegativeOffRampFee
    | InconsistentTotal
    | FeesExceedAmount
    | ZeroFees

  /** The amount guards of CreateTransfer, in their order. */
  function Admit(source: real, fees: FeeBreakdown): (r: Admission)
    ensures r.Admitted? <==>
              && 0.0 < source && 0.0 <= fees.onRamp && 0.0 <= fees.network && 0.0 <= fees.offRamp
              && fees.total == fees.onRamp + fees.network + fees.offRamp && 0.0 < fees.total < source
    ensures r.AmountTooLow? <==> source <= 0.0
    ensures match r
            case NegativeOnRampFee => fees.onRamp < 0.0
            case NegativeNetworkFee => fees.network < 0.0
            case NegativeOffRampFee => fees.offRamp < 0.0
            case InconsistentTotal => fees.total != fees.onRamp + fees.network + fees.offRamp
            case FeesExceedAmount => fees.total >= source
            case ZeroFees => fees.total == 0.0
            case _ => true
  {
    if source <= 0.0 then AmountTooLow
    else if fees.onRamp < 0.0 then NegativeOnRampFee
    else if fees.network < 0.0 then NegativeNetworkFee
    else if fees.offRamp < 0.0 then NegativeOffRampFee
    else if fees.total != fees.onRamp + fees.network + fees.offRamp then InconsistentTotal
    else if fees.total >= source then FeesExceedAmount
    else if fees.total == 0.0 then ZeroFees
    else Admitted
  }

  function TenantAccountCode(slug: string, path: string): string {
    "tenant:" + slug + ":" + path
  }

  /** The three lines CompleteTransfer validates and queues; ids are the fresh line IDs. */
  function CompletionLines(slug: string, currency: string, source: real, fees: FeeBreakdown,
      ids: (nat, nat, nat)): seq<Line> {
    [Line(ids.0, TenantAccountCode(slug, "liabilities:customer:pending"), DEBIT, source, currency),
     Line(ids.1, TenantAccountCode(slug, "liabilities:payable:recipient"), CREDIT, source - fees.total, currency),
     Line(ids.2, TenantAccountCode(slug, "revenue:fees:settlement"), CREDIT, fees.total, currency)]
  }

  /** Admission makes the later net-amount guards redundant: what is left after the on-ramp fee and after
      all fees is positive, and no fee exceeds the total. */
  lemma NetGuardsNeverTrip(source: real, fees: FeeBreakdown)
    requires Admit(source, fees) == Admitted
    ensures source - fees.onRamp > 0.0
    ensures source - fees.total > 0.0
    ensures fees.onRamp <= fees.total && fees.network <= fees.total && fees.offRamp <= fees.total
  {
    assert fees.network + fees.offRamp >= 0.0;
  }

  /** Every admitted transfer can be completed: its completion lines are a valid journal entry. Conversely
      lines that validate come from a total fee strictly between zero and the amount. */
  lemma CompletionAcceptedIff(slug: string, currency: string, source: real, fees: FeeBreakdown, ids: (nat, nat, nat))
    requires ids.0 != 0 && ids.1 != 0 && ids.2 != 0
    requires ids.0 != ids.1 && ids.0 != ids.2 && ids.1 != ids.2
    ensures Accepted(CompletionLines(slug, currency, source, fees, ids)) <==> 0.0 < fees.total < source
    ensures Admit(source, fees) == Admitted ==> Accepted(CompletionLines(slug, currency, source, fees, ids))
  {
    hide SideTotal, AccountKey, TenantAccountCode;
    var lines := CompletionLines(slug, currency, source, fees, ids);
    KeysDiffer(slug, lines[0], lines[1], lines[2]);
    CompletionBalances(lines, currency, source, fees.total);
    assert 0.0 < fees.total < source ==> Clean(lines, 3);
    assert Clean(lines, 3) ==> lines[1].amount > 0.0 && lines[2].amount > 0.0;
  }

  /** The three accounts are pairwise different whatever the slug. */
  lemma KeysDiffer(slug: string, l0: Line, l1: Line, l2: Line)
    requires l0.account == TenantAccountCode(slug, "liabilities:customer:pending")
    requires l1.account == TenantAccountCode(slug, "liabilities:payable:recipient")
    requires l2.account == TenantAccountCode(slug, "revenue:fees:settlement")
    ensures AccountKey(l0) != AccountKey(l1) && AccountKey(l0) != AccountKey(l2) && AccountKey(l1) != AccountKey(l2)
  {
    var n := |"tenant:" + slug + ":"|;
    assert AccountKey(l0)[n] == 'l' && AccountKey(l1)[n] == 'l' && AccountKey(l2)[n] == 'r';
    assert AccountKey(l0)[n + 12] == 'c' && AccountKey(l1)[n + 12] == 'p';
  }

  lemma CompletionBalances(lines: seq<Line>, currency: string, source: real, total: real)
    requires |lines| == 3
    requires lines[0].entryType == DEBIT && lines[0].amount == source && lines[0].currency == currency
    requires lines[1].entryType == CREDIT && lines[1].amount == source - total && lines[1].currency == currency
    requires lines[2].entryType == CREDIT && lines[2].amount == total && lines[2].currency == currency
    ensures Balanced(lines)
  {
    forall c ensures SideTotal(lines, DEBIT, c) == SideTotal(lines, CREDIT, c) {
      TotalOfThree(lines, DEBIT, c);
      TotalOfThree(lines, CREDIT, c);
      assert DEBIT != CREDIT by { assert |DEBIT| == 5 && |CREDIT| == 6; }
    }
  }

  lemma TotalOfThree(lines: seq<Line>, side: string, c: string)
    requires |lines| == 3
    ensures SideTotal(lines, side, c) == Share(lines[0], side, c) + Share(lines[1], side, c) + Share(lines[2], side, c)
  {
    var two := lines[..2];
    var one := two[..1];
    assert SideTotal(one[..0], side, c) == 0.0;
    assert SideTotal(one, side, c) == Share(lines[0], side, c);
    assert SideTotal(two, side, c) == SideTotal(one, side, c) + Share(lines[1], side, c);
  }

  lemma LineTotalOfThree(lines: seq<Line>, side: string, x: string)
    requires |lines| == 3
    ensures LineTotal(lines, side, x) == LineShare(lines[0], side, x) + LineShare(lines[1], side, x)
              + LineShare(lines[2], side, x)
  {
    var two := lines[..2];
    var one := two[..1];
    assert LineTotal(one[..0], side, x) == 0.0;
    assert LineTotal(one, side, x) == LineShare(lines[0], side, x);
    assert LineTotal(two, side, x) == LineTotal(one, side, x) + LineShare(lines[1], side, x);
  }

  function LineShare(line: Line, side: string, x: string): real {
    if line.entryType == side && line.account == x then line.amount else 0.0
  }

  lemma CodesDiffer(slug: string)
    ensures var pending := TenantAccountCode(slug, "liabilities:customer:pending");
            var recipient := TenantAccountCode(slug, "liabilities:payable:recipient");
            var revenue := TenantAccountCode(slug, "revenue:fees:settlement");
            pending != recipient && pending != revenue && recipient != revenue
  {
    var n := |"tenant:" + slug + ":"|;
    var pending := TenantAccountCode(slug, "liabilities:customer:pending");
    var recipient := TenantAccountCode(slug, "liabilities:payable:recipient");
    var revenue := TenantAccountCode(slug, "revenue:fees:settlement");
    assert pending[n] == 'l' && recipient[n] == 'l' && revenue[n] == 'r';
    assert pending[n + 12] == 'c' && recipient[n + 12] == 'p';
  }

  /** What completing a transfer means: the customer's pending funds go down by the amount, and what is not a fee goes
      to the recipient, the fees to revenue. */
  lemma CompletionPays(slug: string, currency: string, source: real, fees: FeeBreakdown, ids: (nat, nat, nat))
    ensures var lines := CompletionLines(slug, currency, source, fees, ids);
            var pending := TenantAccountCode(slug, "liabilities:customer:pending");
            var recipient := TenantAccountCode(slug, "liabilities:payable:recipient");
            var revenue := TenantAccountCode(slug, "revenue:fees:settlement");
            && LineTotal(lines, DEBIT, pending) == source && LineTotal(lines, CREDIT, pending) == 0.0
            && LineTotal(lines, CREDIT, recipient) == source - fees.total && LineTotal(lines, DEBIT, recipient) == 0.0
            && LineTotal(lines, CREDIT, revenue) == fees.total && LineTotal(lines, DEBIT, revenue) == 0.0
  {
    hide LineTotal, TenantAccountCode;
    var lines := CompletionLines(slug, currency, source, fees, ids);
    CodesDiffer(slug);
    assert DEBIT != CREDIT by { assert |DEBIT| == 5 && |CREDIT| == 6; }
    forall side, x
      ensures LineTotal(lines, side, x) == LineShare(lines[0], side, x) + LineShare(lines[1], side, x)
                + LineShare(lines[2], side, x)
    {
      LineTotalOfThree(lines, side, x);
    }
  }

  /** An account code names its tenant and its path, as long as slugs have no colon. */
  lemma TenantCodesDistinct(slug: string, path: string, slug': string, path': string)
    requires ':' !in slug && ':' !in slug'
    ensures TenantAccountCode(slug, path) == TenantAccountCode(slug', path') <==> slug == slug' && path == path'
  {
    var a, b := TenantAccountCode(slug, path), TenantAccountCode(slug', path');
    if a == b {
      AfterPrefix(slug, path);
      AfterPrefix(slug', path');
      FirstColon(slug, path, slug', path');
    }
  }

  lemma AfterPrefix(slug: string, path: string)
    ensures TenantAccountCode(slug, path)[7..] == slug + ":" + path
  {
  }

  lemma FirstColon(s: string, p: string, t: string, q: string)
    requires ':' !in s && ':' !in t && s + ":" + p == t + ":" + q
    ensures s == t && p == q
  {
    var a := s + ":" + p;
    assert a[|s|] == ':' && a[|t|] == ':';
    assert forall i :: 0 <= i < |s| ==> a[i] == s[i] != ':';
    assert forall i :: 0 <= i < |t| ==> a[i] == t[i] != ':';
    assert a[..|s|] == s && a[..|t|] == t;
    assert a[|s| + 1..] == p && a[|t| + 1..] == q;
  }

  /** With a colon they can coincide. */
  lemma ColonsCollide()
    ensures TenantAccountCode("a:b", "c") == TenantAccountCode("a", "b:c")
  {
    assert "a:b" + ":" + "c" == "a" + ":" + "b:c";
    AfterPrefix("a:b", "c");
    AfterPrefix("a", "b:c");
    assert TenantAccountCode("a:b", "c")[..7] == TenantAccountCode("a", "b:c")[..7];
  }

  /** The transfer aggregate. Only transitions write it after creation. */
  class Transfer {
    var status: Status
    var version: nat
    var source: real
    var currency: string
    var fees: FeeBreakdown

    ghost predicate Valid()
      reads this
    {
      Admit(source, fees) == Admitted
    }

    /** A transfer that passed CreateTransfer's guards. */
    constructor (source: real, currency: string, fees: FeeBreakdown)
      requires Admit(source, fees) == Admitted
      ensures Valid()
      ensures this.source == source && this.currency == currency && this.fees == fees
      ensures status == Created && version == 1
    {
      this.source, this.currency, this.fees := source, currency, fees;
      status, version := Created, 1;
    }

    method CanTransitionTo(target: Status) returns (ok: bool)
      ensures ok <==> CanTransition(status, target)
    {
      if status !in VALID_TRANSITIONS {
        return false;
      }
      var allowed := VALID_TRANSITIONS[status];
      for i := 0 to |allowed|
        invariant target !in allowed[..i]
      {
        if allowed[i] == target {
          return true;
        }
      }
      assert allowed[..|allowed|] == allowed;
      return false;
    }

    /** A transition touches nothing but the status and the version; a refused one touches nothing. */
    method TransitionTo(target: Status) returns (ok: bool)
      modifies `status, `version
      ensures ok <==> CanTransition(old(status), target)
      ensures ok ==> status == target && version == old(version) + 1
      ensures !ok ==> status == old(status) && version == old(version)
      ensures old(Valid()) ==> Valid()
    {
      ok := CanTransitionTo(target);
      if ok {
        status, version := target, version + 1;
      }
    }

    /** HandleOnRampResult's guard; at whatever point of its life the transfer is, it lets it pass. */
    method NetAfterOnRamp() returns (net: Option<real>)
      requires Valid()
      ensures net.Some? && net.value == source - fees.onRamp > 0.0
    {
      NetGuardsNeverTrip(source, fees);
      var amount := source - fees.onRamp;
      net := if amount > 0.0 then Some(amount) else None;
    }

    /** CompleteTransfer's guard, lines and validation: neither refuses. */
    method CompletionEntry(slug: string, ids: (nat, nat, nat)) returns (lines: Option<seq<Line>>)
      requires Valid()
      requires ids.0 != 0 && ids.1 != 0 && ids.2 != 0
      requires ids.0 != ids.1 && ids.0 != ids.2 && ids.1 != ids.2
      ensures lines.Some? && lines.value == CompletionLines(slug, currency, source, fees, ids) && Accepted(lines.value)
    {
      hide Accepted, CompletionLines;
      NetGuardsNeverTrip(source, fees);
      var built := CompletionLines(slug, currency, source, fees, ids);
      CompletionAcceptedIff(slug, currency, source, fees, ids);
      var verdict := ValidateEntries(built);
      lines := if source - fees.total > 0.0 && verdict.Accept? then Some(built) else None;
    }
  }
}
