/** Splitting a journal entry into linked TigerBeetle transfers (ledger/tigerbeetle.go), and what
    posting and reversing does to the accounts. */
module Decomposition {
  import opened Money
  import opened Journal
  import opened Words

  datatype Leg = Leg(account: string, amount: real)
  datatype Piece = Piece(debit: string, credit: string, amount: real)

  /** Derived account and transfer IDs are injective, so accounts go by code and transfers by entry
      and position. */
  datatype TransferId = TransferId(entry: nat, index: nat)
  datatype Transfer = Transfer(id: TransferId, debit: string, credit: string, amount: nat, linked: bool)
  datatype Built = Built(transfers: seq<Transfer>) | NegativeAmount(pair: nat)

  // ---- The greedy matching, as a function of the two sides ----

  function Min(x: real, y: real): real {
    if y < x then y else x
  }

  /** What is left of a side after its first leg gave up a. */
  function Cut(legs: seq<Leg>, a: real): seq<Leg>
    requires legs != []
  {
    if legs[0].amount == a then legs[1..] else [legs[0].(amount := legs[0].amount - a)] + legs[1..]
  }

  function Greedy(ds: seq<Leg>, cs: seq<Leg>): seq<Piece>
    decreases |ds| + |cs|
  {
    if ds == [] || cs == [] then []
    else
      var a := Min(ds[0].amount, cs[0].amount);
      [Piece(ds[0].account, cs[0].account, a)] + Greedy(Cut(ds, a), Cut(cs, a))
  }

  function Sum(legs: seq<Leg>): real {
    if legs == [] then 0.0 else legs[0].amount + Sum(legs[1..])
  }

  /** Everything one account contributes to a side. */
  function LegSum(legs: seq<Leg>, account: string): real {
    if legs == [] then 0.0
    else (if legs[0].account == account then legs[0].amount else 0.0) + LegSum(legs[1..], account)
  }

  function DebitSum(ps: seq<Piece>, account: string): real {
    if ps == [] then 0.0
    else (if ps[0].debit == account then ps[0].amount else 0.0) + DebitSum(ps[1..], account)
  }

  function Swapped(ps: seq<Piece>): seq<Piece> {
    seq(|ps|, i requires 0 <= i < |ps| => Piece(ps[i].credit, ps[i].debit, ps[i].amount))
  }

  /** All amounts are positive and at most `bound`. */
  ghost predicate Within(legs: seq<Leg>, bound: real) {
    forall i :: 0 <= i < |legs| ==> 0.0 < legs[i].amount <= bound
  }

  lemma {:induction false} SumPositive(legs: seq<Leg>, bound: real)
    requires Within(legs, bound)
    ensures Sum(legs) >= 0.0 && (Sum(legs) == 0.0 <==> legs == [])
  {
    if legs != [] {
      SumPositive(legs[1..], bound);
    }
  }

  lemma CutSums(legs: seq<Leg>, a: real, bound: real)
    requires legs != [] && Within(legs, bound) && 0.0 < a <= legs[0].amount
    ensures Within(Cut(legs, a), bound)
    ensures Sum(Cut(legs, a)) == Sum(legs) - a
    ensures forall x :: LegSum(Cut(legs, a), x) == LegSum(legs, x) - if legs[0].account == x then a else 0.0
  {
  }

  /** At least one transfer and fewer transfers than lines. */
  lemma {:induction false} GreedyLength(ds: seq<Leg>, cs: seq<Leg>)
    ensures |Greedy(ds, cs)| == 0 <==> ds == [] || cs == []
    ensures ds != [] && cs != [] ==> |Greedy(ds, cs)| <= |ds| + |cs| - 1
    decreases |ds| + |cs|
  {
    if ds != [] && cs != [] {
      var a := Min(ds[0].amount, cs[0].amount);
      GreedyLength(Cut(ds, a), Cut(cs, a));
    }
  }

  /** Both sides are used up: each debit account is drawn for exactly its lines. */
  lemma {:induction false} GreedyExact(ds: seq<Leg>, cs: seq<Leg>, bound: real, x: string)
    requires Within(ds, bound) && Within(cs, bound) && Sum(ds) == Sum(cs)
    ensures DebitSum(Greedy(ds, cs), x) == LegSum(ds, x)
    decreases |ds| + |cs|
  {
    SumPositive(ds, bound);
    SumPositive(cs, bound);
    if ds != [] {
      var a := Min(ds[0].amount, cs[0].amount);
      CutSums(ds, a, bound);
      CutSums(cs, a, bound);
      GreedyExact(Cut(ds, a), Cut(cs, a), bound, x);
    }
  }

  /** Exchanging the sides exchanges the sides of every piece and changes nothing else. */
  lemma {:induction false} GreedyMirror(ds: seq<Leg>, cs: seq<Leg>)
    ensures Greedy(cs, ds) == Swapped(Greedy(ds, cs))
    decreases |ds| + |cs|
  {
    hide Greedy;
    if ds != [] && cs != [] {
      var a := Min(ds[0].amount, cs[0].amount);
      GreedyMirror(Cut(ds, a), Cut(cs, a));
      GreedyHead(ds, cs, a);
      GreedyHead(cs, ds, a);
      SwappedHead(Piece(ds[0].account, cs[0].account, a), Greedy(Cut(ds, a), Cut(cs, a)));
    } else {
      GreedyNone(ds, cs);
      GreedyNone(cs, ds);
    }
  }

  lemma GreedyHead(ds: seq<Leg>, cs: seq<Leg>, a: real)
    requires ds != [] && cs != [] && a == Min(ds[0].amount, cs[0].amount)
    ensures Greedy(ds, cs) == [Piece(ds[0].account, cs[0].account, a)] + Greedy(Cut(ds, a), Cut(cs, a))
  {
  }

  lemma GreedyNone(ds: seq<Leg>, cs: seq<Leg>)
    requires ds == [] || cs == []
    ensures Greedy(ds, cs) == []
  {
  }

  lemma SwappedHead(p: Piece, ps: seq<Piece>)
    ensures Swapped([p] + ps) == [Piece(p.credit, p.debit, p.amount)] + Swapped(ps)
  {
  }

  lemma MinOfUnits(x: real, y: real)
    requires IsUnits(x) && IsUnits(y)
    ensures IsUnits(Min(x, y)) && IsUnits(x - Min(x, y))
  {
    assert ((x * SCALE).Floor - (y * SCALE).Floor) as real == (x - y) * SCALE;
  }

  ghost predicate UnitLegs(legs: seq<Leg>) {
    forall i :: 0 <= i < |legs| ==> IsUnits(legs[i].amount)
  }

  /** Pieces stay positive and in range, and stay whole numbers of units if the lines are. */
  lemma {:induction false} GreedyPieces(ds: seq<Leg>, cs: seq<Leg>, bound: real)
    requires Within(ds, bound) && Within(cs, bound)
    ensures forall i :: 0 <= i < |Greedy(ds, cs)| ==> 0.0 < Greedy(ds, cs)[i].amount <= bound
    ensures UnitLegs(ds) && UnitLegs(cs) ==>
              forall i :: 0 <= i < |Greedy(ds, cs)| ==> IsUnits(Greedy(ds, cs)[i].amount)
    decreases |ds| + |cs|
  {
    if ds != [] && cs != [] {
      var a := Min(ds[0].amount, cs[0].amount);
      CutSums(ds, a, bound);
      CutSums(cs, a, bound);
      GreedyPieces(Cut(ds, a), Cut(cs, a), bound);
      if UnitLegs(ds) && UnitLegs(cs) {
        MinOfUnits(ds[0].amount, cs[0].amount);
        MinOfUnits(cs[0].amount, ds[0].amount);
        assert UnitLegs(Cut(ds, a)) && UnitLegs(Cut(cs, a));
      }
    }
  }

  // ---- buildTransfers ----

  /** DecimalToTBAmount: digits past the eighth are dropped, a negative result is an error, and the
      64-bit conversion wraps. */
  function Units(d: real): int {
    Truncated(d * SCALE)
  }

  function ToTransfer(entry: nat, p: Piece, index: nat, linked: bool): Transfer
    requires Units(p.amount) >= 0
  {
    Transfer(TransferId(entry, index), p.debit, p.credit, Units(p.amount) % TWO_64, linked)
  }

  function Legs(lines: seq<Line>): seq<Leg> {
    seq(|lines|, i requires 0 <= i < |lines| => Leg(lines[i].account, lines[i].amount))
  }

  /** Lines from i on, when `rem` of line i is still unmatched. */
  ghost function Rest(lines: seq<Line>, i: nat, rem: real): seq<Leg> {
    if i < |lines| then [Leg(lines[i].account, rem)] + Legs(lines[i + 1..]) else []
  }

  /** The pieces as transfers, all but the last linked. */
  ghost predicate TransfersOf(ts: seq<Transfer>, entry: nat, ps: seq<Piece>) {
    && |ts| == |ps|
    && (forall i :: 0 <= i < |ps| ==> Units(ps[i].amount) >= 0)
    && (forall i :: 0 <= i < |ps| ==> ts[i] == ToTransfer(entry, ps[i], i, i < |ps| - 1))
  }

  /** Where a side stands once `rem` of line i is left. */
  ghost function Advance(lines: seq<Line>, i: nat, rem: real): seq<Leg> {
    if rem != 0.0 then Rest(lines, i, rem)
    else if i + 1 < |lines| then Rest(lines, i + 1, lines[i + 1].amount)
    else []
  }

  lemma CutRest(lines: seq<Line>, i: nat, rem: real, a: real)
    requires i < |lines|
    ensures Cut(Rest(lines, i, rem), a) == Advance(lines, i, rem - a)
  {
    if rem == a && i + 1 < |lines| {
      assert Legs(lines[i + 1..]) == Rest(lines, i + 1, lines[i + 1].amount);
    }
  }

  lemma GreedyStep(debits: seq<Line>, di: nat, dRem: real, credits: seq<Line>, ci: nat, cRem: real)
    requires di < |debits| && ci < |credits|
    ensures var a := Min(dRem, cRem);
            Greedy(Rest(debits, di, dRem), Rest(credits, ci, cRem)) ==
            [Piece(debits[di].account, credits[ci].account, a)]
            + Greedy(Advance(debits, di, dRem - a), Advance(credits, ci, cRem - a))
  {
    var a := Min(dRem, cRem);
    CutRest(debits, di, dRem, a);
    CutRest(credits, ci, cRem, a);
  }

  /** The pieces as unlinked transfers. */
  ghost predicate Matched(ts: seq<Transfer>, entry: nat, ps: seq<Piece>) {
    && |ts| == |ps|
    && (forall i :: 0 <= i < |ps| ==> Units(ps[i].amount) >= 0)
    && (forall i :: 0 <= i < |ps| ==> ts[i] == ToTransfer(entry, ps[i], i, false))
  }

  lemma LegsAreRest(lines: seq<Line>, rem: real)
    requires lines != [] ==> rem == lines[0].amount
    ensures Legs(lines) == Rest(lines, 0, rem)
  {
  }

  lemma MatchedNone(entry: nat)
    ensures Matched([], entry, [])
  {
  }

  lemma MatchedAppend(ts: seq<Transfer>, entry: nat, ps: seq<Piece>, p: Piece)
    requires Matched(ts, entry, ps) && Units(p.amount) >= 0
    ensures Matched(ts + [ToTransfer(entry, p, |ts|, false)], entry, ps + [p])
  {
  }

  /** Moving to the next line once nothing of the current one is left. */
  method NextLine(lines: seq<Line>, i: nat, rem: real) returns (i': nat, rem': real)
    requires i < |lines|
    ensures i' == (if rem == 0.0 then i + 1 else i)
    ensures Rest(lines, i', rem') == Advance(lines, i, rem)
  {
    i', rem' := i, rem;
    if rem == 0.0 {
      i' := i + 1;
      if i' < |lines| {
        rem' := lines[i'].amount;
      }
    }
  }

  /** The matching loop. Terminates on every input, produces the greedy pieces, and reports the first
      piece that comes out negative. */
  method MatchSides(entry: nat, debits: seq<Line>, credits: seq<Line>) returns (b: Built)
    ensures b.Built? ==> Matched(b.transfers, entry, Greedy(Legs(debits), Legs(credits)))
    ensures b.NegativeAmount? ==> FirstNegative(Greedy(Legs(debits), Legs(credits)), b.pair)
  {
    hide Greedy, Rest, Advance, Legs, Units, Matched, FirstNegative;
    ghost var ps := Greedy(Legs(debits), Legs(credits));
    ghost var done: seq<Piece> := [];
    var transfers: seq<Transfer> := [];
    MatchedNone(entry);
    var di, ci := 0, 0;
    var dRem, cRem := 0.0, 0.0;
    if |debits| > 0 {
      dRem := debits[0].amount;
    }
    if |credits| > 0 {
      cRem := credits[0].amount;
    }
    LegsAreRest(debits, dRem);
    LegsAreRest(credits, cRem);
    while di < |debits| && ci < |credits|
      invariant di <= |debits| && ci <= |credits|
      invariant ps == done + Greedy(Rest(debits, di, dRem), Rest(credits, ci, cRem))
      invariant Matched(transfers, entry, done)
      decreases |debits| - di + |credits| - ci
    {
      var amount := dRem;
      if cRem < dRem {
        amount := cRem;
      }
      ghost var piece := Piece(debits[di].account, credits[ci].account, amount);
      GreedyStep(debits, di, dRem, credits, ci, cRem);
      ghost var rest := Greedy(Advance(debits, di, dRem - amount), Advance(credits, ci, cRem - amount));
      assert ps == (done + [piece]) + rest;
      var units := Units(amount);
      if units < 0 {
        NegativeAt(transfers, entry, done, piece, rest);
        return NegativeAmount(|transfers|);
      }
      MatchedAppend(transfers, entry, done, piece);
      transfers := transfers
        + [Transfer(TransferId(entry, |transfers|), debits[di].account, credits[ci].account, units % TWO_64, false)];
      done := done + [piece];
      di, dRem := NextLine(debits, di, dRem - amount);
      ci, cRem := NextLine(credits, ci, cRem - amount);
    }
    NothingLeft(debits, di, dRem, credits, ci, cRem);
    assert done == ps;
    return Built(transfers);
  }

  ghost predicate FirstNegative(ps: seq<Piece>, k: nat) {
    && k < |ps| && Units(ps[k].amount) < 0
    && (forall i :: 0 <= i < k ==> Units(ps[i].amount) >= 0)
  }

  lemma NegativeAt(ts: seq<Transfer>, entry: nat, done: seq<Piece>, p: Piece, rest: seq<Piece>)
    requires Matched(ts, entry, done) && Units(p.amount) < 0
    ensures FirstNegative((done + [p]) + rest, |ts|)
  {
    var ps := (done + [p]) + rest;
    assert ps[|ts|] == p;
  }

  lemma NothingLeft(debits: seq<Line>, di: nat, dRem: real, credits: seq<Line>, ci: nat, cRem: real)
    requires di >= |debits| || ci >= |credits|
    ensures Greedy(Rest(debits, di, dRem), Rest(credits, ci, cRem)) == []
  {
  }

  /** buildTransfers: match, then set the linked flag on all but the last transfer. */
  method BuildTransfers(entry: nat, debits: seq<Line>, credits: seq<Line>) returns (b: Built)
    ensures b.Built? ==> TransfersOf(b.transfers, entry, Greedy(Legs(debits), Legs(credits)))
    ensures b.NegativeAmount? ==> FirstNegative(Greedy(Legs(debits), Legs(credits)), b.pair)
  {
    b := MatchSides(entry, debits, credits);
    if b.Built? {
      var matched := b.transfers;
      var transfers := matched;
      var i := 0;
      while i < |transfers| - 1
        invariant |transfers| == |matched|
        invariant 0 <= i && (i <= |matched| - 1 || i == 0)
        invariant forall j :: 0 <= j < |matched| ==> transfers[j] == matched[j].(linked := j < i)
      {
        transfers := transfers[i := transfers[i].(linked := true)];
        i := i + 1;
      }
      b := Built(transfers);
    }
  }

  // ---- From an accepted entry ----

  function OfSide(lines: seq<Line>, side: string): seq<Line> {
    if lines == [] then []
    else
      var front := OfSide(lines[..|lines| - 1], side);
      if lines[|lines| - 1].entryType == side then front + [lines[|lines| - 1]] else front
  }

  /** The switch over entry types that opens PostEntries and flushBatch. */
  method SplitSides(lines: seq<Line>) returns (debits: seq<Line>, credits: seq<Line>)
    ensures debits == OfSide(lines, DEBIT) && credits == OfSide(lines, CREDIT)
  {
    debits, credits := [], [];
    for n := 0 to |lines|
      invariant debits == OfSide(lines[..n], DEBIT) && credits == OfSide(lines[..n], CREDIT)
    {
      assert lines[..n + 1][..n] == lines[..n];
      if lines[n].entryType == DEBIT {
        debits := debits + [lines[n]];
      } else if lines[n].entryType == CREDIT {
        credits := credits + [lines[n]];
      }
    }
    assert lines[..|lines|] == lines;
  }

  /** The transfers an entry decomposes into, before truncation. */
  ghost function Pieces(lines: seq<Line>): seq<Piece> {
    Greedy(Legs(OfSide(lines, DEBIT)), Legs(OfSide(lines, CREDIT)))
  }

  /** Total of one side over all currencies. */
  function Gross(lines: seq<Line>, side: string): real {
    if lines == [] then 0.0
    else Gross(lines[..|lines| - 1], side) + if lines[|lines| - 1].entryType == side then lines[|lines| - 1].amount
      else 0.0
  }

  function Without(lines: seq<Line>, c: string): seq<Line> {
    if lines == [] then []
    else
      var front := Without(lines[..|lines| - 1], c);
      if lines[|lines| - 1].currency == c then front else front + [lines[|lines| - 1]]
  }

  lemma AppendTotals(lines: seq<Line>, l: Line, side: string, x: string)
    ensures Gross(lines + [l], side) == Gross(lines, side) + if l.entryType == side then l.amount else 0.0
    ensures SideTotal(lines + [l], side, x) == SideTotal(lines, side, x) + Share(l, side, x)
  {
    assert (lines + [l])[..|lines|] == lines;
  }

  lemma WithoutLast(lines: seq<Line>, l: Line, c: string)
    ensures Without(lines + [l], c) == if l.currency == c then Without(lines, c) else Without(lines, c) + [l]
  {
    assert (lines + [l])[..|lines|] == lines;
  }

  lemma NoTotals(side: string, c: string)
    ensures Gross([], side) == 0.0 && SideTotal([], side, c) == 0.0 && Without([], c) == []
  {
  }

  lemma {:induction false} WithoutTotals(lines: seq<Line>, c: string, side: string)
    ensures |Without(lines, c)| <= |lines|
    ensures lines != [] && lines[|lines| - 1].currency == c ==> |Without(lines, c)| < |lines|
    ensures Gross(lines, side) == SideTotal(lines, side, c) + Gross(Without(lines, c), side)
    ensures SideTotal(Without(lines, c), side, c) == 0.0
    ensures forall x :: x != c ==> SideTotal(Without(lines, c), side, x) == SideTotal(lines, side, x)
  {
    hide Gross, SideTotal, Without;
    NoTotals(side, c);
    if lines == [] {
      forall x | x != c ensures SideTotal(Without(lines, c), side, x) == SideTotal(lines, side, x) {
        NoTotals(side, x);
      }
    } else {
      var n := |lines| - 1;
      var l := lines[n];
      WithoutTotals(lines[..n], c, side);
      assert lines == lines[..n] + [l];
      WithoutLast(lines[..n], l, c);
      AppendTotals(lines[..n], l, side, c);
      AppendTotals(Without(lines[..n], c), l, side, c);
      forall x | x != c ensures SideTotal(Without(lines, c), side, x) == SideTotal(lines, side, x) {
        AppendTotals(lines[..n], l, side, x);
        AppendTotals(Without(lines[..n], c), l, side, x);
      }
    }
  }

  /** Balanced in every currency means balanced overall. */
  lemma {:induction false} BalancedGross(lines: seq<Line>)
    requires Balanced(lines)
    ensures Gross(lines, DEBIT) == Gross(lines, CREDIT)
    decreases |lines|
  {
    if lines != [] {
      var c := lines[|lines| - 1].currency;
      WithoutTotals(lines, c, DEBIT);
      WithoutTotals(lines, c, CREDIT);
      assert SideTotal(lines, DEBIT, c) == SideTotal(lines, CREDIT, c);
      forall x
        ensures SideTotal(Without(lines, c), DEBIT, x) == SideTotal(Without(lines, c), CREDIT, x)
      {
        assert SideTotal(lines, DEBIT, x) == SideTotal(lines, CREDIT, x);
      }
      BalancedGross(Without(lines, c));
    }
  }

  lemma {:induction false} SumAppend(legs: seq<Leg>, leg: Leg)
    ensures Sum(legs + [leg]) == Sum(legs) + leg.amount
  {
    if legs != [] {
      assert (legs + [leg])[1..] == legs[1..] + [leg];
      SumAppend(legs[1..], leg);
    }
  }

  lemma {:induction false} SideSum(lines: seq<Line>, side: string)
    ensures Sum(Legs(OfSide(lines, side))) == Gross(lines, side)
  {
    if lines != [] {
      var n := |lines| - 1;
      SideSum(lines[..n], side);
      if lines[n].entryType == side {
        assert Legs(OfSide(lines, side)) == Legs(OfSide(lines[..n], side)) + [Leg(lines[n].account, lines[n].amount)];
        SumAppend(Legs(OfSide(lines[..n], side)), Leg(lines[n].account, lines[n].amount));
      }
    }
  }

  /** A side keeps only lines of the entry. */
  lemma {:induction false} SideLines(lines: seq<Line>, side: string)
    ensures |OfSide(lines, side)| <= |lines|
    ensures forall i :: 0 <= i < |OfSide(lines, side)| ==> OfSide(lines, side)[i] in lines
    ensures OfSide(lines, side) == [] <==> forall i :: 0 <= i < |lines| ==> lines[i].entryType != side
  {
    if lines != [] {
      SideLines(lines[..|lines| - 1], side);
    }
  }

  /** What an entry debits or credits to one account. */
  function LineTotal(lines: seq<Line>, side: string, account: string): real {
    if lines == [] then 0.0
    else
      var l := lines[|lines| - 1];
      LineTotal(lines[..|lines| - 1], side, account) + if l.entryType == side && l.account == account then l.amount
        else 0.0
  }

  /** What a list of transfers debits or credits to one account, in units. */
  function DebitUnits(ts: seq<Transfer>, account: string): nat {
    if ts == [] then 0
    else (if ts[0].debit == account then ts[0].amount else 0) + DebitUnits(ts[1..], account)
  }

  function CreditUnits(ts: seq<Transfer>, account: string): nat {
    if ts == [] then 0
    else (if ts[0].credit == account then ts[0].amount else 0) + CreditUnits(ts[1..], account)
  }

  lemma {:induction false} LegSumAppend(legs: seq<Leg>, leg: Leg, x: string)
    ensures LegSum(legs + [leg], x) == LegSum(legs, x) + if leg.account == x then leg.amount else 0.0
  {
    if legs != [] {
      assert (legs + [leg])[1..] == legs[1..] + [leg];
      LegSumAppend(legs[1..], leg, x);
    }
  }

  lemma {:induction false} SideLegSum(lines: seq<Line>, side: string, x: string)
    ensures LegSum(Legs(OfSide(lines, side)), x) == LineTotal(lines, side, x)
  {
    if lines != [] {
      var n := |lines| - 1;
      SideLegSum(lines[..n], side, x);
      if lines[n].entryType == side {
        assert Legs(OfSide(lines, side)) == Legs(OfSide(lines[..n], side)) + [Leg(lines[n].account, lines[n].amount)];
        LegSumAppend(Legs(OfSide(lines[..n], side)), Leg(lines[n].account, lines[n].amount), x);
      }
    }
  }

  /** Transfer by transfer the accounts agree and the amount is the truncated piece. */
  ghost predicate SameMoves(ts: seq<Transfer>, ps: seq<Piece>) {
    && |ts| == |ps|
    && forall i :: 0 <= i < |ps| ==>
         ts[i].debit == ps[i].debit && ts[i].credit == ps[i].credit && ts[i].amount == Units(ps[i].amount)
  }

  /** How many of the transfers debit, or credit, one account. */
  function DebitCount(ts: seq<Transfer>, account: string): nat {
    if ts == [] then 0 else (if ts[0].debit == account then 1 else 0) + DebitCount(ts[1..], account)
  }

  function CreditCount(ts: seq<Transfer>, account: string): nat {
    if ts == [] then 0 else (if ts[0].credit == account then 1 else 0) + CreditCount(ts[1..], account)
  }

  /** Short of the exact amount by less than one unit for each of n transfers. */
  ghost predicate Close(units: int, exact: real, n: nat) {
    && units as real <= exact * SCALE
    && if n == 0 then exact * SCALE == units as real else exact * SCALE < (units + n) as real
  }

  lemma UnitsClose(d: real)
    requires d > 0.0
    ensures 0.0 <= d * SCALE - Units(d) as real < 1.0 && Units(d) >= 0
    ensures IsUnits(d) ==> Units(d) as real == d * SCALE
  {
  }

  /** Truncation loses less than one unit per piece, and nothing when the pieces are whole units. */
  lemma {:induction false} TruncationLoss(ts: seq<Transfer>, ps: seq<Piece>, x: string)
    requires SameMoves(ts, ps) && forall i :: 0 <= i < |ps| ==> ps[i].amount > 0.0
    ensures Close(DebitUnits(ts, x), DebitSum(ps, x), DebitCount(ts, x))
    ensures (forall i :: 0 <= i < |ps| ==> IsUnits(ps[i].amount)) ==>
              DebitUnits(ts, x) as real == DebitSum(ps, x) * SCALE
  {
    if ps != [] {
      TruncationLoss(ts[1..], ps[1..], x);
      UnitsClose(ps[0].amount);
    }
  }

  /** us moves the same amounts as ts in the other direction. */
  ghost predicate Opposite(ts: seq<Transfer>, us: seq<Transfer>) {
    && |ts| == |us|
    && forall i :: 0 <= i < |ts| ==>
         us[i].debit == ts[i].credit && us[i].credit == ts[i].debit && us[i].amount == ts[i].amount
  }

  lemma {:induction false} SwapSums(ts: seq<Transfer>, us: seq<Transfer>, x: string)
    requires Opposite(ts, us)
    ensures DebitUnits(us, x) == CreditUnits(ts, x) && CreditUnits(us, x) == DebitUnits(ts, x)
    ensures DebitCount(us, x) == CreditCount(ts, x)
  {
    if ts != [] {
      SwapSums(ts[1..], us[1..], x);
    }
  }

  ghost predicate UnitLines(lines: seq<Line>) {
    forall i :: 0 <= i < |lines| ==> IsUnits(lines[i].amount)
  }

  /** A bound on the amounts of an entry. */
  function Largest(lines: seq<Line>): real {
    if lines == [] then 0.0
    else
      var front, last := Largest(lines[..|lines| - 1]), lines[|lines| - 1].amount;
      if front < last then last else front
  }

  lemma {:induction false} LargestBounds(lines: seq<Line>, i: nat)
    requires i < |lines|
    ensures lines[i].amount <= Largest(lines)
  {
    if i < |lines| - 1 {
      LargestBounds(lines[..|lines| - 1], i);
    }
  }

  lemma SideWithin(lines: seq<Line>, side: string)
    requires Clean(lines, |lines|)
    ensures Within(Legs(OfSide(lines, side)), Largest(lines))
    ensures UnitLines(lines) ==> UnitLegs(Legs(OfSide(lines, side)))
  {
    hide Largest;
    SideLines(lines, side);
    forall i | 0 <= i < |lines|
      ensures lines[i].amount <= Largest(lines)
    {
      LargestBounds(lines, i);
    }
  }

  lemma SidesEqual(lines: seq<Line>)
    requires Balanced(lines)
    ensures Sum(Legs(OfSide(lines, DEBIT))) == Sum(Legs(OfSide(lines, CREDIT)))
  {
    BalancedGross(lines);
    SideSum(lines, DEBIT);
    SideSum(lines, CREDIT);
  }

  /** Pieces of an accepted entry: positive, none larger than the largest line, and whole units if the
      lines are. */
  lemma AcceptedPieces(lines: seq<Line>)
    requires Accepted(lines)
    ensures forall i :: 0 <= i < |Pieces(lines)| ==>
              0.0 < Pieces(lines)[i].amount <= Largest(lines) && 0 <= Units(Pieces(lines)[i].amount)
    ensures UnitLines(lines) ==> forall i :: 0 <= i < |Pieces(lines)| ==> IsUnits(Pieces(lines)[i].amount)
  {
    hide Largest, Greedy, OfSide, Legs;
    SideWithin(lines, DEBIT);
    SideWithin(lines, CREDIT);
    GreedyPieces(Legs(OfSide(lines, DEBIT)), Legs(OfSide(lines, CREDIT)), Largest(lines));
    forall i | 0 <= i < |Pieces(lines)|
      ensures 0 <= Units(Pieces(lines)[i].amount)
    {
      UnitsClose(Pieces(lines)[i].amount);
    }
  }

  /** No piece is too large for an unsigned 64-bit number of units. */
  ghost predicate Fits(ps: seq<Piece>) {
    forall i :: 0 <= i < |ps| ==> Units(ps[i].amount) < TWO_64
  }

  /** An entry whose lines fit has pieces that fit. */
  lemma LinesFit(lines: seq<Line>)
    requires Accepted(lines) && Largest(lines) * SCALE < TWO_64 as real
    ensures Fits(Pieces(lines))
  {
    hide Largest, Pieces, Accepted;
    AcceptedPieces(lines);
    forall i | 0 <= i < |Pieces(lines)|
      ensures Units(Pieces(lines)[i].amount) < TWO_64
    {
      UnitsClose(Pieces(lines)[i].amount);
    }
  }

  lemma FittingMoves(ts: seq<Transfer>, entry: nat, ps: seq<Piece>)
    requires TransfersOf(ts, entry, ps) && Fits(ps)
    ensures SameMoves(ts, ps)
  {
  }

  /** buildTransfers succeeds on every accepted entry and needs fewer transfers than lines; it
      produces none exactly when the entry has no debit or credit at all. */
  lemma AcceptedBuilds(lines: seq<Line>)
    requires Accepted(lines)
    ensures forall k :: !FirstNegative(Pieces(lines), k)
    ensures Pieces(lines) == [] <==> forall i :: 0 <= i < |lines| ==> !Standard(lines[i].entryType)
    ensures Pieces(lines) != [] ==> |Pieces(lines)| <= |OfSide(lines, DEBIT)| + |OfSide(lines, CREDIT)| - 1
  {
    AcceptedPieces(lines);
    var ds, cs := Legs(OfSide(lines, DEBIT)), Legs(OfSide(lines, CREDIT));
    GreedyLength(ds, cs);
    SidesEqual(lines);
    SideWithin(lines, DEBIT);
    SideWithin(lines, CREDIT);
    SumPositive(ds, Largest(lines));
    SumPositive(cs, Largest(lines));
    SideLines(lines, DEBIT);
    SideLines(lines, CREDIT);
  }

  lemma AcceptedSums(lines: seq<Line>, x: string)
    requires Accepted(lines)
    ensures DebitSum(Pieces(lines), x) == LineTotal(lines, DEBIT, x)
    ensures DebitSum(Swapped(Pieces(lines)), x) == LineTotal(lines, CREDIT, x)
  {
    var ds, cs := Legs(OfSide(lines, DEBIT)), Legs(OfSide(lines, CREDIT));
    SidesEqual(lines);
    SideWithin(lines, DEBIT);
    SideWithin(lines, CREDIT);
    GreedyExact(ds, cs, Largest(lines), x);
    GreedyExact(cs, ds, Largest(lines), x);
    GreedyMirror(ds, cs);
    SideLegSum(lines, DEBIT, x);
    SideLegSum(lines, CREDIT, x);
  }

  /** Greedy decomposition is exact. The transfers built for an accepted entry whose pieces fit debit and
      credit each account for exactly its lines when amounts have eight decimals, and fall short by less
      than one unit per transfer otherwise. */
  lemma DecompositionExact(lines: seq<Line>, ts: seq<Transfer>, entry: nat, x: string)
    requires Accepted(lines) && TransfersOf(ts, entry, Pieces(lines)) && Fits(Pieces(lines))
    ensures Close(DebitUnits(ts, x), LineTotal(lines, DEBIT, x), DebitCount(ts, x))
    ensures Close(CreditUnits(ts, x), LineTotal(lines, CREDIT, x), CreditCount(ts, x))
    ensures UnitLines(lines) ==>
              && DebitUnits(ts, x) as real == LineTotal(lines, DEBIT, x) * SCALE
              && CreditUnits(ts, x) as real == LineTotal(lines, CREDIT, x) * SCALE
  {
    var ps := Pieces(lines);
    AcceptedPieces(lines);
    FittingMoves(ts, entry, ps);
    AcceptedSums(lines, x);
    TruncationLoss(ts, ps, x);
    var us := seq(|ts|, i requires 0 <= i < |ts| => ts[i].(debit := ts[i].credit, credit := ts[i].debit));
    SwapSums(ts, us, x);
    TruncationLoss(us, Swapped(ps), x);
  }

  /** Wrap-around only ever loses, and it loses on the account of a piece that is too large. */
  lemma {:induction false} WrapLoses(ts: seq<Transfer>, ps: seq<Piece>, x: string)
    requires |ts| == |ps| && forall i :: 0 <= i < |ps| ==> ps[i].amount > 0.0
    requires forall i :: 0 <= i < |ps| ==> ts[i].debit == ps[i].debit && ts[i].amount == Units(ps[i].amount) % TWO_64
    ensures DebitUnits(ts, x) as real <= DebitSum(ps, x) * SCALE
    ensures (exists i :: 0 <= i < |ps| && ps[i].debit == x && Units(ps[i].amount) >= TWO_64) ==>
              DebitUnits(ts, x) as real < DebitSum(ps, x) * SCALE
  {
    hide Units;
    if ps != [] {
      WrapLoses(ts[1..], ps[1..], x);
      UnitsClose(ps[0].amount);
      assert ts[0].amount <= Units(ps[0].amount);
      if i :| 0 <= i < |ps| && ps[i].debit == x && Units(ps[i].amount) >= TWO_64 {
        if i > 0 {
          assert ps[1..][i - 1] == ps[i];
        }
      }
    }
  }

  /** With eight-decimal amounts the decomposition of an accepted entry is exact on every debit account
      exactly when no piece is too large for 64 bits. */
  lemma DecompositionExactIff(lines: seq<Line>, ts: seq<Transfer>, entry: nat)
    requires Accepted(lines) && UnitLines(lines) && TransfersOf(ts, entry, Pieces(lines))
    ensures (forall x :: DebitUnits(ts, x) as real == LineTotal(lines, DEBIT, x) * SCALE) <==> Fits(Pieces(lines))
  {
    hide Accepted, Units, Pieces, DebitUnits, LineTotal;
    var ps := Pieces(lines);
    if Fits(ps) {
      forall x
        ensures DebitUnits(ts, x) as real == LineTotal(lines, DEBIT, x) * SCALE
      {
        DecompositionExact(lines, ts, entry, x);
      }
    } else {
      var i :| 0 <= i < |ps| && Units(ps[i].amount) >= TWO_64;
      AcceptedPieces(lines);
      AcceptedSums(lines, ps[i].debit);
      WrapLoses(ts, ps, ps[i].debit);
    }
  }

  // ---- Accounts, and reversing a posted entry ----

  /** TigerBeetle keeps two growing totals per account. */
  datatype Account = Account(debits: nat, credits: nat)
  type Accounts = map<string, Account>

  function Post(accounts: Accounts, ts: seq<Transfer>): Accounts {
    if ts == [] then accounts else PostTransfer(Post(accounts, ts[..|ts| - 1]), ts[|ts| - 1])
  }

  function PostTransfer(accounts: Accounts, t: Transfer): Accounts {
    if t.debit !in accounts || t.credit !in accounts then accounts
    else
      var debited := accounts[t.debit := accounts[t.debit].(debits := accounts[t.debit].debits + t.amount)];
      debited[t.credit := debited[t.credit].(credits := debited[t.credit].credits + t.amount)]
  }

  /** GetBalance reads both totals through a signed conversion. */
  function GetBalance(accounts: Accounts, x: string): real
    requires x in accounts
  {
    Wrap64(accounts[x].credits) as real / SCALE - Wrap64(accounts[x].debits) as real / SCALE
  }

  /** EnsureAccounts ran for every account the transfers touch. */
  ghost predicate Ensured(accounts: Accounts, ts: seq<Transfer>) {
    forall i :: 0 <= i < |ts| ==> ts[i].debit in accounts && ts[i].credit in accounts
  }

  lemma {:induction false} UnitsOfPrefix(ts: seq<Transfer>, t: Transfer, x: string)
    ensures DebitUnits(ts + [t], x) == DebitUnits(ts, x) + if t.debit == x then t.amount else 0
    ensures CreditUnits(ts + [t], x) == CreditUnits(ts, x) + if t.credit == x then t.amount else 0
  {
    if ts != [] {
      assert (ts + [t])[1..] == ts[1..] + [t];
      UnitsOfPrefix(ts[1..], t, x);
    }
  }

  lemma {:induction false} PostTotals(accounts: Accounts, ts: seq<Transfer>, x: string)
    requires Ensured(accounts, ts) && x in accounts
    ensures Post(accounts, ts).Keys == accounts.Keys
    ensures Post(accounts, ts)[x].debits == accounts[x].debits + DebitUnits(ts, x)
    ensures Post(accounts, ts)[x].credits == accounts[x].credits + CreditUnits(ts, x)
  {
    if ts != [] {
      var n := |ts| - 1;
      PostTotals(accounts, ts[..n], x);
      UnitsOfPrefix(ts[..n], ts[n], x);
      assert ts[..n] + [ts[n]] == ts;
    }
  }

  lemma {:induction false} MirroredSides(lines: seq<Line>, ids: seq<nat>)
    requires |ids| == |lines| && forall i :: 0 <= i < |lines| ==> Standard(lines[i].entryType)
    ensures Legs(OfSide(Mirrored(lines, ids), DEBIT)) == Legs(OfSide(lines, CREDIT))
    ensures Legs(OfSide(Mirrored(lines, ids), CREDIT)) == Legs(OfSide(lines, DEBIT))
  {
    if lines != [] {
      var n := |lines| - 1;
      MirroredSides(lines[..n], ids[..n]);
      var m := Mirrored(lines, ids);
      assert m[..n] == Mirrored(lines[..n], ids[..n]);
      var leg := Leg(lines[n].account, lines[n].amount);
      if lines[n].entryType == DEBIT {
        assert Legs(OfSide(lines, DEBIT)) == Legs(OfSide(lines[..n], DEBIT)) + [leg];
        assert Legs(OfSide(m, CREDIT)) == Legs(OfSide(m[..n], CREDIT)) + [leg];
      } else {
        assert Legs(OfSide(lines, CREDIT)) == Legs(OfSide(lines[..n], CREDIT)) + [leg];
        assert Legs(OfSide(m, DEBIT)) == Legs(OfSide(m[..n], DEBIT)) + [leg];
      }
    }
  }

  /** The mirror decomposes into the original pieces with the sides exchanged, one by one. */
  lemma ReversalPieces(lines: seq<Line>, ids: seq<nat>)
    requires |ids| == |lines| && forall i :: 0 <= i < |lines| ==> Standard(lines[i].entryType)
    ensures Pieces(Mirrored(lines, ids)) == Swapped(Pieces(lines))
  {
    MirroredSides(lines, ids);
    GreedyMirror(Legs(OfSide(lines, DEBIT)), Legs(OfSide(lines, CREDIT)));
  }

  lemma OppositeTransfers(ts: seq<Transfer>, us: seq<Transfer>, entry: nat, reversal: nat, ps: seq<Piece>)
    requires TransfersOf(ts, entry, ps) && TransfersOf(us, reversal, Swapped(ps))
    ensures Opposite(ts, us)
  {
  }

  /** Adding to the two totals moves their difference, as GetBalance reads it, by the difference of what was
      added: both pass the ends of the signed range equally often. */
  predicate EvenLaps(account: Account, credits: nat, debits: nat) {
    Laps(account.credits + credits) - Laps(account.credits) == Laps(account.debits + debits) - Laps(account.debits)
  }

  /** Adding k to both totals keeps their difference. */
  predicate SameLaps(account: Account, k: nat) {
    EvenLaps(account, k, k)
  }

  lemma SmallEvenLaps(account: Account, credits: nat, debits: nat)
    requires account.credits + credits < TWO_63 && account.debits + debits < TWO_63
    ensures EvenLaps(account, credits, debits)
  {
  }

  lemma SmallSameLaps(account: Account, k: nat)
    requires account.credits + k < TWO_63 && account.debits + k < TWO_63
    ensures SameLaps(account, k)
  {
    SmallEvenLaps(account, k, k);
  }

  /** Transfers followed by their opposites add the same to both totals of an account; they leave its balance
      alone exactly when the two totals pass the ends of the signed range equally often. */
  lemma OppositesCancel(accounts: Accounts, ts: seq<Transfer>, us: seq<Transfer>, x: string)
    requires Opposite(ts, us) && Ensured(accounts, ts) && x in accounts
    ensures x in Post(Post(accounts, ts), us)
    ensures GetBalance(Post(Post(accounts, ts), us), x) == GetBalance(accounts, x)
            <==> SameLaps(accounts[x], DebitUnits(ts, x) + CreditUnits(ts, x))
  {
    hide Post, GetBalance, SameLaps, DebitUnits, CreditUnits, Ensured;
    SwapSums(ts, us, x);
    PostTotals(accounts, ts, x);
    StillEnsured(accounts, ts, us);
    PostTotals(Post(accounts, ts), us, x);
    LapsDecide(accounts, Post(Post(accounts, ts), us), x, DebitUnits(ts, x) + CreditUnits(ts, x));
  }

  lemma StillEnsured(accounts: Accounts, ts: seq<Transfer>, us: seq<Transfer>)
    requires Opposite(ts, us) && Ensured(accounts, ts)
    ensures Ensured(Post(accounts, ts), us)
  {
    hide Post;
    forall i | 0 <= i < |us|
      ensures us[i].debit in Post(accounts, ts) && us[i].credit in Post(accounts, ts)
    {
      PostTotals(accounts, ts, ts[i].debit);
    }
  }

  /** What GetBalance reads grows with the credits and shrinks with the debits, unit by unit, exactly when the laps
      are even. */
  lemma BalanceMovesIff(before: Accounts, after: Accounts, x: string, credits: nat, debits: nat)
    requires x in before && x in after
    requires after[x].credits == before[x].credits + credits && after[x].debits == before[x].debits + debits
    ensures GetBalance(after, x) - GetBalance(before, x) == (credits - debits) as real / SCALE
            <==> EvenLaps(before[x], credits, debits)
  {
    hide Wrap64, Laps;
    WrapAndLaps(before[x].credits);
    WrapAndLaps(before[x].debits);
    WrapAndLaps(before[x].credits + credits);
    WrapAndLaps(before[x].debits + debits);
    var w := Wrap64(after[x].credits) - Wrap64(after[x].debits);
    var v := Wrap64(before[x].credits) - Wrap64(before[x].debits);
    assert GetBalance(after, x) * SCALE == w as real && GetBalance(before, x) * SCALE == v as real;
  }

  lemma LapsDecide(before: Accounts, after: Accounts, x: string, k: nat)
    requires x in before && x in after
    requires after[x].credits == before[x].credits + k && after[x].debits == before[x].debits + k
    ensures GetBalance(after, x) == GetBalance(before, x) <==> SameLaps(before[x], k)
  {
    hide EvenLaps, GetBalance;
    BalanceMovesIff(before, after, x, k, k);
  }

  /** A new account reads zero. */
  lemma NothingPostedReadsZero(accounts: Accounts, x: string)
    requires x in accounts && accounts[x] == Account(0, 0)
    ensures GetBalance(accounts, x) == 0.0
  {
  }

  /** The balance after transfers, in units: credits minus debits exactly when the laps are even. */
  lemma PostMovesIff(accounts: Accounts, ts: seq<Transfer>, x: string)
    requires Ensured(accounts, ts) && x in accounts
    ensures x in Post(accounts, ts)
    ensures GetBalance(Post(accounts, ts), x) - GetBalance(accounts, x)
              == (CreditUnits(ts, x) - DebitUnits(ts, x)) as real / SCALE
            <==> EvenLaps(accounts[x], CreditUnits(ts, x), DebitUnits(ts, x))
  {
    hide Post, GetBalance, EvenLaps, DebitUnits, CreditUnits, Ensured;
    PostTotals(accounts, ts, x);
    BalanceMovesIff(accounts, Post(accounts, ts), x, CreditUnits(ts, x), DebitUnits(ts, x));
  }

  /** Off by less than one unit per transfer, downwards by the truncated credits and upwards by the debits. */
  ghost predicate NearBy(moved: real, exact: real, credits: nat, debits: nat) {
    && (if credits == 0 then 0.0 <= (moved - exact) * SCALE else -(credits as real) < (moved - exact) * SCALE)
    && (if debits == 0 then (moved - exact) * SCALE <= 0.0 else (moved - exact) * SCALE < debits as real)
  }

  lemma CloseIsNearBy(cu: int, du: int, c: real, d: real, credits: nat, debits: nat)
    requires Close(cu, c, credits) && Close(du, d, debits)
    ensures NearBy((cu - du) as real / SCALE, c - d, credits, debits)
  {
    var moved := (cu - du) as real / SCALE;
    assert moved * SCALE == (cu - du) as real;
    assert (moved - (c - d)) * SCALE == (cu as real - c * SCALE) + (d * SCALE - du as real);
  }

  /** Posting moves every balance by its credits minus its debits. For an accepted entry whose pieces fit: with
      eight-decimal amounts the balance of an account moves by what its lines say exactly when its totals pass the
      ends of the signed range equally often, so always below 2^63; with more decimals it is then off by less
      than one unit per transfer. */
  lemma PostingMovesBalances(lines: seq<Line>, ts: seq<Transfer>, entry: nat, accounts: Accounts, x: string)
    requires Accepted(lines) && TransfersOf(ts, entry, Pieces(lines)) && Fits(Pieces(lines))
    requires Ensured(accounts, ts) && x in accounts
    ensures x in Post(accounts, ts)
    ensures UnitLines(lines) ==>
              (GetBalance(Post(accounts, ts), x) - GetBalance(accounts, x)
                 == LineTotal(lines, CREDIT, x) - LineTotal(lines, DEBIT, x)
               <==> EvenLaps(accounts[x], CreditUnits(ts, x), DebitUnits(ts, x)))
    ensures EvenLaps(accounts[x], CreditUnits(ts, x), DebitUnits(ts, x)) ==>
              NearBy(GetBalance(Post(accounts, ts), x) - GetBalance(accounts, x),
                LineTotal(lines, CREDIT, x) - LineTotal(lines, DEBIT, x), CreditCount(ts, x), DebitCount(ts, x))
    ensures accounts[x].credits + CreditUnits(ts, x) < TWO_63 && accounts[x].debits + DebitUnits(ts, x) < TWO_63 ==>
              EvenLaps(accounts[x], CreditUnits(ts, x), DebitUnits(ts, x))
  {
    hide Accepted, TransfersOf, Pieces, Fits, Ensured, Post, GetBalance, LineTotal, EvenLaps, Close, NearBy,
      DebitUnits, CreditUnits, DebitCount, CreditCount, UnitLines;
    var cu: int, du: int := CreditUnits(ts, x), DebitUnits(ts, x);
    var c, d := LineTotal(lines, CREDIT, x), LineTotal(lines, DEBIT, x);
    PostMovesIff(accounts, ts, x);
    DecompositionExact(lines, ts, entry, x);
    CloseIsNearBy(cu, du, c, d, CreditCount(ts, x), DebitCount(ts, x));
    if UnitLines(lines) {
      assert (cu - du) as real / SCALE == c - d;
    }
    if accounts[x].credits + cu < TWO_63 && accounts[x].debits + du < TWO_63 {
      SmallEvenLaps(accounts[x], cu, du);
    }
  }

  /** Reversal undoes posting. For every accepted entry of debits and credits the mirrored entry is
      accepted, and after posting both, even when amounts were truncated on the way, a balance is back where
      it started exactly when its two totals passed the ends of the signed range equally often; so always
      while they stay below 2^63. */
  lemma ReversalRestoresBalances(lines: seq<Line>, ids: seq<nat>, entry: nat, reversal: nat,
                                 ts: seq<Transfer>, us: seq<Transfer>, accounts: Accounts, x: string)
    requires Accepted(lines) && forall i :: 0 <= i < |lines| ==> Standard(lines[i].entryType)
    requires |ids| == |lines| && Fresh(ids)
    requires TransfersOf(ts, entry, Pieces(lines))
    requires TransfersOf(us, reversal, Pieces(Mirrored(lines, ids)))
    requires Ensured(accounts, ts) && x in accounts
    ensures Accepted(Mirrored(lines, ids))
    ensures x in Post(Post(accounts, ts), us)
    ensures GetBalance(Post(Post(accounts, ts), us), x) == GetBalance(accounts, x)
            <==> SameLaps(accounts[x], DebitUnits(ts, x) + CreditUnits(ts, x))
    ensures var k := DebitUnits(ts, x) + CreditUnits(ts, x);
            accounts[x].credits + k < TWO_63 && accounts[x].debits + k < TWO_63 ==>
              GetBalance(Post(Post(accounts, ts), us), x) == GetBalance(accounts, x)
  {
    hide *;
    ReversalAcceptedIff(lines, ids);
    ReversalPieces(lines, ids);
    OppositeTransfers(ts, us, entry, reversal, Pieces(lines));
    OppositesCancel(accounts, ts, us, x);
    var k := DebitUnits(ts, x) + CreditUnits(ts, x);
    if accounts[x].credits + k < TWO_63 && accounts[x].debits + k < TWO_63 {
      SmallSameLaps(accounts[x], k);
    }
  }
}
