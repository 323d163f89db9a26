/** Journal entries: validation (domain/ledger.go) and the mirrored lines of a reversal
    (ledger/ledger.go). */
module Journal {

  const DEBIT := "DEBIT"
  const CREDIT := "CREDIT"

  /** id 0 is uuid.Nil. The entry type is an open string, as in the source. */
  datatype Line = Line(id: nat, account: string, entryType: string, amount: real, currency: string)

  datatype Verdict =
    | Accept
    | TooFewLines
    | NonPositive(at: nat)
    | DuplicateId(at: nat)
    | DuplicateAccount(at: nat)
    | Imbalance(currency: string)

  function AccountKey(l: Line): string {
    l.account + ":" + l.entryType
  }

  function Share(l: Line, side: string, currency: string): real {
    if l.entryType == side && l.currency == currency then l.amount else 0.0
  }

  /** Sum of the amounts on one side in one currency. */
  function SideTotal(lines: seq<Line>, side: string, currency: string): real {
    if lines == [] then 0.0
    else SideTotal(lines[..|lines| - 1], side, currency) + Share(lines[|lines| - 1], side, currency)
  }

  /** The first n lines are positive, with no repeated line ID and no repeated account and side. */
  ghost predicate Clean(lines: seq<Line>, n: nat)
    requires n <= |lines|
  {
    && (forall i :: 0 <= i < n ==> lines[i].amount > 0.0)
    && (forall i, j :: 0 <= i < j < n ==> lines[i].id == 0 || lines[i].id != lines[j].id)
    && (forall i, j :: 0 <= i < j < n ==> AccountKey(lines[i]) != AccountKey(lines[j]))
  }

  ghost predicate Balanced(lines: seq<Line>) {
    forall c :: SideTotal(lines, DEBIT, c) == SideTotal(lines, CREDIT, c)
  }

  /** The documented meaning of a valid entry. */
  ghost predicate Accepted(lines: seq<Line>) {
    |lines| >= 2 && Clean(lines, |lines|) && Balanced(lines)
  }

  // ---- Validation ----

  /** The first loop: amounts and the two duplicate checks, reporting the first offending line. */
  method CheckLines(lines: seq<Line>) returns (v: Verdict)
    ensures v.Accept? || v.NonPositive? || v.DuplicateId? || v.DuplicateAccount?
    ensures v.Accept? <==> Clean(lines, |lines|)
    ensures !v.Accept? ==> v.at < |lines| && Clean(lines, v.at) && !Clean(lines, v.at + 1)
    ensures v.NonPositive? ==> lines[v.at].amount <= 0.0
    ensures v.DuplicateId? ==>
              lines[v.at].amount > 0.0 && exists i :: 0 <= i < v.at && lines[i].id == lines[v.at].id != 0
    ensures v.DuplicateAccount? ==>
              lines[v.at].amount > 0.0 && exists i :: 0 <= i < v.at && AccountKey(lines[i]) == AccountKey(lines[v.at])
  {
    hide AccountKey;
    var seenIds: set<nat> := {};
    var seenKeys: set<string> := {};
    for n := 0 to |lines|
      invariant Clean(lines, n)
      invariant seenIds == set i | 0 <= i < n && lines[i].id != 0 :: lines[i].id
      invariant seenKeys == set i | 0 <= i < n :: AccountKey(lines[i])
    {
      var line := lines[n];
      if line.amount <= 0.0 {
        return NonPositive(n);
      }
      if line.id != 0 {
        if line.id in seenIds {
          return DuplicateId(n);
        }
        seenIds := seenIds + {line.id};
      }
      if AccountKey(line) in seenKeys {
        return DuplicateAccount(n);
      }
      seenKeys := seenKeys + {AccountKey(line)};
    }
    return Accept;
  }

  /** Totals for a currency that the map has not met yet are zero. */
  function Lookup(m: map<string, real>, c: string): real {
    if c in m then m[c] else 0.0
  }

  /** The second and third loops: debits against credits in every currency met. */
  method CheckBalances(lines: seq<Line>) returns (v: Verdict)
    ensures v.Accept? || v.Imbalance?
    ensures v.Accept? <==> Balanced(lines)
    ensures v.Imbalance? ==> SideTotal(lines, DEBIT, v.currency) != SideTotal(lines, CREDIT, v.currency)
  {
    var debits: map<string, real> := map[];
    var credits: map<string, real> := map[];
    for n := 0 to |lines|
      invariant debits.Keys == credits.Keys
      invariant forall c :: Lookup(debits, c) == SideTotal(lines[..n], DEBIT, c)
      invariant forall c :: Lookup(credits, c) == SideTotal(lines[..n], CREDIT, c)
    {
      var line := lines[n];
      assert lines[..n + 1][..n] == lines[..n];
      if line.currency !in debits {
        debits, credits := debits[line.currency := 0.0], credits[line.currency := 0.0];
      }
      if line.entryType == DEBIT {
        debits := debits[line.currency := debits[line.currency] + line.amount];
      } else if line.entryType == CREDIT {
        credits := credits[line.currency := credits[line.currency] + line.amount];
      }
    }
    assert lines[..|lines|] == lines;
    var todo := debits.Keys;
    while todo != {}
      invariant todo <= debits.Keys
      invariant forall c :: c in debits.Keys - todo ==> debits[c] == credits[c]
      decreases todo
    {
      var c :| c in todo;
      if debits[c] != credits[c] {
        assert Lookup(debits, c) != Lookup(credits, c);
        return Imbalance(c);
      }
      todo := todo - {c};
    }
    forall c
      ensures SideTotal(lines, DEBIT, c) == SideTotal(lines, CREDIT, c)
    {
      assert Lookup(debits, c) == Lookup(credits, c);
    }
    return Accept;
  }

  /** ValidateEntries accepts exactly the valid entries and reports a true reason otherwise. */
  method ValidateEntries(lines: seq<Line>) returns (v: Verdict)
    ensures v.Accept? <==> Accepted(lines)
    ensures v.TooFewLines? <==> |lines| < 2
    ensures v.Imbalance? ==>
              && Clean(lines, |lines|)
              && SideTotal(lines, DEBIT, v.currency) != SideTotal(lines, CREDIT, v.currency)
    ensures v.NonPositive? ==> v.at < |lines| && Clean(lines, v.at) && lines[v.at].amount <= 0.0
    ensures v.DuplicateId? || v.DuplicateAccount? ==> v.at < |lines| && Clean(lines, v.at) && !Clean(lines, v.at + 1)
  {
    if |lines| < 2 {
      return TooFewLines;
    }
    v := CheckLines(lines);
    if v.Accept? {
      v := CheckBalances(lines);
    }
  }

  /** The lines with other IDs. */
  function Renumbered(lines: seq<Line>, ids: seq<nat>): seq<Line>
    requires |ids| == |lines|
  {
    seq(|lines|, i requires 0 <= i < |lines| => lines[i].(id := ids[i]))
  }

  lemma {:induction false} RenumberedTotals(lines: seq<Line>, ids: seq<nat>, side: string, c: string)
    requires |ids| == |lines|
    ensures SideTotal(Renumbered(lines, ids), side, c) == SideTotal(lines, side, c)
  {
    if lines != [] {
      var n := |lines| - 1;
      RenumberedTotals(lines[..n], ids[..n], side, c);
      assert Renumbered(lines, ids)[..n] == Renumbered(lines[..n], ids[..n]);
    }
  }

  /** Line IDs may be left out, any number of them, but one that is given is given once: this and nothing else about
      them decides. */
  lemma IdsAcceptedIff(lines: seq<Line>, ids: seq<nat>)
    requires Accepted(lines) && |ids| == |lines|
    ensures Accepted(Renumbered(lines, ids)) <==>
            forall i, j :: 0 <= i < j < |ids| && ids[i] == ids[j] ==> ids[i] == 0
  {
    var m := Renumbered(lines, ids);
    forall side, c
      ensures SideTotal(m, side, c) == SideTotal(lines, side, c)
    {
      RenumberedTotals(lines, ids, side, c);
    }
    assert forall i :: 0 <= i < |m| ==> m[i].id == ids[i] && AccountKey(m[i]) == AccountKey(lines[i]);
    if Clean(m, |m|) {
      forall i, j | 0 <= i < j < |ids| && ids[i] == ids[j]
        ensures ids[i] == 0
      {
        assert m[i].id == m[j].id;
      }
    }
  }

  // ---- Reversal ----

  predicate Standard(entryType: string) {
    entryType == DEBIT || entryType == CREDIT
  }

  /** ReverseEntry turns a debit into a credit and everything else into a debit. */
  function ReversedType(entryType: string): string {
    if entryType == DEBIT then CREDIT else DEBIT
  }

  function MirrorLine(l: Line, id: nat): Line {
    l.(id := id, entryType := ReversedType(l.entryType))
  }

  function Mirrored(lines: seq<Line>, ids: seq<nat>): seq<Line>
    requires |ids| == |lines|
  {
    seq(|lines|, i requires 0 <= i < |lines| => MirrorLine(lines[i], ids[i]))
  }

  /** Line IDs drawn for a reversal: never nil, never repeated. */
  ghost predicate Fresh(ids: seq<nat>) {
    && (forall i :: 0 <= i < |ids| ==> ids[i] != 0)
    && (forall i, j :: 0 <= i < j < |ids| ==> ids[i] != ids[j])
  }

  /** Reversing twice, with the original IDs, gives back the entry: only the side of a line is exchanged. */
  lemma MirrorTwice(lines: seq<Line>, ids: seq<nat>)
    requires |ids| == |lines| && forall i :: 0 <= i < |lines| ==> Standard(lines[i].entryType)
    ensures var back := seq(|lines|, i requires 0 <= i < |lines| => lines[i].id);
            Mirrored(Mirrored(lines, ids), back) == lines
    ensures Renumbered(Mirrored(lines, ids), ids) == Mirrored(lines, ids)
    ensures forall i :: 0 <= i < |lines| ==> Mirrored(lines, ids)[i].entryType != lines[i].entryType
  {
  }

  /** The loop of ReverseEntry. */
  method BuildReversal(lines: seq<Line>, ids: seq<nat>) returns (reversal: seq<Line>)
    requires |ids| == |lines|
    ensures reversal == Mirrored(lines, ids)
  {
    reversal := [];
    for n := 0 to |lines|
      invariant |reversal| == n
      invariant forall i :: 0 <= i < n ==> reversal[i] == MirrorLine(lines[i], ids[i])
    {
      var line := lines[n];
      var reversedType := DEBIT;
      if line.entryType == DEBIT {
        reversedType := CREDIT;
      }
      reversal := reversal + [Line(ids[n], line.account, reversedType, line.amount, line.currency)];
    }
  }

  /** Amounts of the lines that are neither debit nor credit. */
  function OtherTotal(lines: seq<Line>, currency: string): real {
    if lines == [] then 0.0
    else
      var l := lines[|lines| - 1];
      OtherTotal(lines[..|lines| - 1], currency)
      + if !Standard(l.entryType) && l.currency == currency then l.amount else 0.0
  }

  lemma {:induction false} MirroredTotals(lines: seq<Line>, ids: seq<nat>, c: string)
    requires |ids| == |lines|
    ensures SideTotal(Mirrored(lines, ids), CREDIT, c) == SideTotal(lines, DEBIT, c)
    ensures SideTotal(Mirrored(lines, ids), DEBIT, c) == SideTotal(lines, CREDIT, c) + OtherTotal(lines, c)
  {
    if lines != [] {
      var n := |lines| - 1;
      MirroredTotals(lines[..n], ids[..n], c);
      assert Mirrored(lines, ids)[..n] == Mirrored(lines[..n], ids[..n]);
    }
  }

  lemma {:induction false} OtherTotalPositive(lines: seq<Line>, c: string)
    requires forall i :: 0 <= i < |lines| ==> lines[i].amount > 0.0
    ensures OtherTotal(lines, c) >= 0.0
    ensures OtherTotal(lines, c) == 0.0 <==>
            forall i :: 0 <= i < |lines| && lines[i].currency == c ==> Standard(lines[i].entryType)
  {
    if lines != [] {
      OtherTotalPositive(lines[..|lines| - 1], c);
    }
  }

  /** For the two standard sides the duplicate key identifies the account and the side. */
  lemma StandardKeysDiffer(a: Line, b: Line)
    requires Standard(a.entryType) && Standard(b.entryType)
    requires AccountKey(a) == AccountKey(b)
    ensures a.account == b.account && a.entryType == b.entryType
  {
    var k := AccountKey(a);
    assert k[|k| - 3] == a.entryType[|a.entryType| - 3];
    assert k[|k| - 3] == b.entryType[|b.entryType| - 3];
    assert a.entryType == b.entryType;
    assert a.account == k[..|k| - |a.entryType| - 1];
    assert b.account == k[..|k| - |a.entryType| - 1];
  }

  lemma MirroredClean(lines: seq<Line>, ids: seq<nat>)
    requires |ids| == |lines| && Fresh(ids) && Clean(lines, |lines|)
    requires forall i :: 0 <= i < |lines| ==> Standard(lines[i].entryType)
    ensures Clean(Mirrored(lines, ids), |lines|)
  {
    var m := Mirrored(lines, ids);
    forall i, j | 0 <= i < j < |lines|
      ensures AccountKey(m[i]) != AccountKey(m[j])
    {
      if AccountKey(m[i]) == AccountKey(m[j]) {
        StandardKeysDiffer(m[i], m[j]);
      }
    }
  }

  /** The reversal of an accepted entry is accepted exactly when every line is a plain debit or
      credit: any other entry type is counted on neither side by ValidateEntries but becomes a debit
      in the mirror, which then cannot balance. */
  lemma ReversalAcceptedIff(lines: seq<Line>, ids: seq<nat>)
    requires Accepted(lines) && |ids| == |lines| && Fresh(ids)
    ensures Accepted(Mirrored(lines, ids)) <==> forall i :: 0 <= i < |lines| ==> Standard(lines[i].entryType)
  {
    var m := Mirrored(lines, ids);
    forall c
      ensures SideTotal(m, DEBIT, c) == SideTotal(m, CREDIT, c) <==>
              forall i :: 0 <= i < |lines| && lines[i].currency == c ==> Standard(lines[i].entryType)
    {
      MirroredTotals(lines, ids, c);
      OtherTotalPositive(lines, c);
    }
    if i :| 0 <= i < |lines| && !Standard(lines[i].entryType) {
      assert SideTotal(m, DEBIT, lines[i].currency) != SideTotal(m, CREDIT, lines[i].currency);
    } else {
      MirroredClean(lines, ids);
    }
  }

  lemma {:induction false} AbsentSideIsZero(lines: seq<Line>, side: string, c: string)
    requires forall i :: 0 <= i < |lines| ==> lines[i].entryType != side
    ensures SideTotal(lines, side, c) == 0.0
  {
    if lines != [] {
      AbsentSideIsZero(lines[..|lines| - 1], side, c);
    }
  }

  /** An accepted entry without a debit or a credit. */
  lemma MemoEntry() returns (lines: seq<Line>)
    ensures Accepted(lines) && |lines| == 2 && forall i :: 0 <= i < |lines| ==> !Standard(lines[i].entryType)
  {
    lines := [Line(1, "a", "MEMO", 1.0, "USD"), Line(2, "b", "MEMO", 1.0, "USD")];
    assert |"MEMO"| == 4 && |DEBIT| == 5 && |CREDIT| == 6;
    forall c
      ensures SideTotal(lines, DEBIT, c) == SideTotal(lines, CREDIT, c)
    {
      AbsentSideIsZero(lines, DEBIT, c);
      AbsentSideIsZero(lines, CREDIT, c);
    }
    assert AccountKey(lines[0])[0] == 'a' && AccountKey(lines[1])[0] == 'b';
  }

  /** An accepted entry whose reversal the ledger refuses. */
  lemma NonStandardReversalRefused()
    ensures exists lines: seq<Line>, ids: seq<nat> ::
              Accepted(lines) && |ids| == |lines| && Fresh(ids) && !Accepted(Mirrored(lines, ids))
  {
    hide Accepted, Mirrored;
    var lines := MemoEntry();
    var ids: seq<nat> := [3, 4];
    assert !Standard(lines[0].entryType);
    ReversalAcceptedIff(lines, ids);
    assert Accepted(lines) && Fresh(ids) && !Accepted(Mirrored(lines, ids));
  }
}
