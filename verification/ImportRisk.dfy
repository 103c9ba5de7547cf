/** What the derivations after a commit leave on the risk desk. */
module ImportRisk {
  import opened Common
  import opened Imports
  import opened ImportUndo
  import opened ImportLease
  import PaymentDesk
  import Risk

  /** The flags of tenancy t agree with its row and items. */
  ghost predicate FlagsTrue(s: State, t: nat)
    requires t < |s.tenancies|
  {
    var sc := Risk.Scope(Risk.TENANCY, t);
    && (Risk.HasActive(s.risk, sc, Risk.MISSING_EJARI) <==> !Truthy(s.tenancies[t].ejariNo))
    && (PaymentDesk.AmountsOf(s.items, t) != [] ==>
          (Risk.HasActive(s.risk, sc, Risk.CHEQUE_TOTAL_MISMATCH) <==>
             Risk.SumAmounts(PaymentDesk.AmountsOf(s.items, t)) != s.tenancies[t].annualRent))
  }

  /** What a later derivation leaves alone of tenancy t. */
  ghost predicate SameTenancy(s: State, s': State, t: nat) {
    && t < |s.tenancies| == |s'.tenancies| && s'.items == s.items
    && s'.tenancies[t].(noticeGateDay := s.tenancies[t].noticeGateDay) == s.tenancies[t]
  }

  lemma RearmedKeepsRows(s: State, u: nat, today: int, t: nat)
    requires u < |s.tenancies| && t < |s.tenancies| && Rearmed(s, u, today).Ok?
    ensures SameTenancy(s, Rearmed(s, u, today).value, t)
  {}

  lemma RearmingFlags(s: State, u: nat, today: int)
    requires u < |s.tenancies| && !s.tenancies[u].archived && Risk.OneActive(s.risk.flags) && Rearmed(s, u, today).Ok?
    ensures FlagsTrue(Rearmed(s, u, today).value, u)
    ensures Risk.OneActive(Rearmed(s, u, today).value.risk.flags)
  {
    var mid := Regenerated(s, u).value;
    Risk.TenancyFlagsTellTheTruth(mid.risk, FactsOf(mid, u), today);
    Risk.TenancyDecisionsDistinct(FactsOf(mid, u), today);
    Risk.SettleAllEffect(mid.risk, Risk.Scope(Risk.TENANCY, u), Risk.TenancyDecisions(FactsOf(mid, u), today));
  }

  lemma RearmingElsewhere(s: State, u: nat, today: int, t: nat, code: Risk.RiskCode)
    requires u < |s.tenancies| && t != u && Risk.OneActive(s.risk.flags) && Rearmed(s, u, today).Ok?
    ensures Risk.HasActive(Rearmed(s, u, today).value.risk, Risk.Scope(Risk.TENANCY, t), code) <==>
            Risk.HasActive(s.risk, Risk.Scope(Risk.TENANCY, t), code)
  {
    var mid := Regenerated(s, u).value;
    Risk.TenancyDecisionsDistinct(FactsOf(mid, u), today);
    Risk.SettleAllEffect(mid.risk, Risk.Scope(Risk.TENANCY, u), Risk.TenancyDecisions(FactsOf(mid, u), today));
  }

  lemma RearmingKeepsTrue(s: State, u: nat, today: int, t: nat)
    requires u < |s.tenancies| && t < |s.tenancies| && t != u && !s.tenancies[u].archived
    requires Risk.OneActive(s.risk.flags) && Rearmed(s, u, today).Ok? && FlagsTrue(s, t)
    ensures FlagsTrue(Rearmed(s, u, today).value, t)
  {
    RearmedKeepsRows(s, u, today, t);
    RearmingElsewhere(s, u, today, t, Risk.MISSING_EJARI);
    RearmingElsewhere(s, u, today, t, Risk.CHEQUE_TOTAL_MISMATCH);
  }

  ghost predicate AllLive(s: State, from: nat) {
    forall t | from <= t < |s.tenancies| :: !s.tenancies[t].archived
  }

  lemma RearmedStaysLive(s: State, u: nat, today: int, from: nat)
    requires u < |s.tenancies| && AllLive(s, from) && Rearmed(s, u, today).Ok?
    ensures AllLive(Rearmed(s, u, today).value, from) && |Rearmed(s, u, today).value.tenancies| == |s.tenancies|
  {}

  lemma RearmedFlags(s: State, from: nat, u: nat, today: int)
    requires from <= u < |s.tenancies| && AllLive(s, from) && Risk.OneActive(s.risk.flags)
    requires forall t | from <= t < u :: FlagsTrue(s, t)
    requires Rearmed(s, u, today).Ok?
    ensures var s1 := Rearmed(s, u, today).value;
            && |s1.tenancies| == |s.tenancies| && AllLive(s1, from) && Risk.OneActive(s1.risk.flags)
            && forall t | from <= t < u + 1 :: FlagsTrue(s1, t)
  {
    RearmedStaysLive(s, u, today, from);
    RearmingFlags(s, u, today);
    forall t | from <= t < u + 1 ensures FlagsTrue(Rearmed(s, u, today).value, t) {
      if t < u { RearmingKeepsTrue(s, u, today, t); }
    }
  }

  /**
   After the derivations from u on, the flags of every tenancy from `from` on are true, those before u
   having been so.
   */
  lemma {:induction false} DerivedFlags(s: State, from: nat, u: nat, today: int)
    requires from <= u <= |s.tenancies| && AllLive(s, from) && Risk.OneActive(s.risk.flags)
    requires forall t | from <= t < u :: FlagsTrue(s, t)
    requires Derive(s, u, today).reply.Ok?
    ensures var s' := Derive(s, u, today).state;
            && |s'.tenancies| == |s.tenancies| && Risk.OneActive(s'.risk.flags)
            && forall t | from <= t < |s'.tenancies| :: FlagsTrue(s', t)
    decreases |s.tenancies| - u
  {
    if u == |s.tenancies| {
    } else {
      RearmedFlags(s, from, u, today);
      DerivedFlags(Rearmed(s, u, today).value, from, u + 1, today);
    }
  }

  lemma RearmingKeepsOverlaps(s: State, u: nat, today: int, t: nat)
    requires u < |s.tenancies| && Risk.OneActive(s.risk.flags) && Rearmed(s, u, today).Ok?
    ensures var s1 := Rearmed(s, u, today).value;
            && Risk.OneActive(s1.risk.flags)
            && (Risk.HasActive(s1.risk, Risk.Scope(Risk.TENANCY, t), Risk.TENANCY_OVERLAP) <==>
                Risk.HasActive(s.risk, Risk.Scope(Risk.TENANCY, t), Risk.TENANCY_OVERLAP))
  {
    var mid := Regenerated(s, u).value;
    var xs := Risk.TenancyDecisions(FactsOf(mid, u), today);
    Risk.TenancyDecisionsDistinct(FactsOf(mid, u), today);
    Risk.SettleAllEffect(mid.risk, Risk.Scope(Risk.TENANCY, u), xs);
    assert forall i | 0 <= i < |xs| :: xs[i].code != Risk.TENANCY_OVERLAP;
  }

  lemma {:induction false} DerivingKeepsOverlaps(s: State, u: nat, today: int, t: nat)
    requires u <= |s.tenancies| && Risk.OneActive(s.risk.flags)
    ensures var out := Derive(s, u, today);
            && (out.reply.Err? ==> out.reply.error == Uncaught)
            && (Risk.HasActive(out.state.risk, Risk.Scope(Risk.TENANCY, t), Risk.TENANCY_OVERLAP) <==>
                Risk.HasActive(s.risk, Risk.Scope(Risk.TENANCY, t), Risk.TENANCY_OVERLAP))
    decreases |s.tenancies| - u
  {
    if u == |s.tenancies| {
    } else if Rearmed(s, u, today).Ok? {
      RearmingKeepsOverlaps(s, u, today, t);
      DerivingKeepsOverlaps(Rearmed(s, u, today).value, u + 1, today, t);
    }
  }

  /** Derivations that stop are not translated, and the pass over held-back rows is then never reached. */
  lemma StoppedCommitFlagsNoOverlap(s: State, actor: Actor, b: nat, today: int, t: nat)
    requires Risk.OneActive(s.risk.flags) && CommitTx(s, actor, b).Ok?
    requires CommitImportBatch(s, actor, b, today).reply.Err?
    ensures var out := CommitImportBatch(s, actor, b, today);
            && out.reply == Err(Uncaught)
            && (Risk.HasActive(out.state.risk, Risk.Scope(Risk.TENANCY, t), Risk.TENANCY_OVERLAP) <==>
                Risk.HasActive(s.risk, Risk.Scope(Risk.TENANCY, t), Risk.TENANCY_OVERLAP))
  {
    DerivingKeepsOverlaps(CommitTx(s, actor, b).value, |s.tenancies|, today, t);
  }

  lemma RaisedOverlapKeepsTrue(s: State, s': State, lease: nat, t: nat)
    requires t < |s.tenancies| && FlagsTrue(s, t)
    requires s' == s.(risk := Risk.Raise(s.risk, Risk.Scope(Risk.TENANCY, lease), Risk.TENANCY_OVERLAP))
    ensures FlagsTrue(s', t)
  {
    var sc := Risk.Scope(Risk.TENANCY, t);
    Risk.RaiseEffect(s.risk, Risk.Scope(Risk.TENANCY, lease), Risk.TENANCY_OVERLAP, sc, Risk.MISSING_EJARI);
    Risk.RaiseEffect(s.risk, Risk.Scope(Risk.TENANCY, lease), Risk.TENANCY_OVERLAP, sc, Risk.CHEQUE_TOTAL_MISMATCH);
  }

  lemma {:induction false} OverlapsKeepTrue(s: State, rows: seq<Row>, t: nat)
    requires t < |s.tenancies| && FlagsTrue(s, t)
    ensures FlagOverlaps(s, rows).tenancies == s.tenancies && FlagsTrue(FlagOverlaps(s, rows), t)
    decreases |rows|
  {
    if rows == [] {
    } else {
      var lease := OverlappedLease(s, rows[0]);
      if lease.None? {
        OverlapsKeepTrue(s, rows[1..], t);
      } else {
        var s1 := s.(risk := Risk.Raise(s.risk, Risk.Scope(Risk.TENANCY, lease.value), Risk.TENANCY_OVERLAP));
        RaisedOverlapKeepsTrue(s, s1, lease.value, t);
        OverlapsKeepTrue(s1, rows[1..], t);
      }
    }
  }

  /** A held-back row with overlapping dates leaves the flag up on a live lease of the property it names. */
  lemma {:induction false} OverlapsAreFlagged(s: State, rows: seq<Row>, i: nat)
    requires i < |rows| && OverlappedLease(s, rows[i]).Some?
    ensures Risk.HasActive(FlagOverlaps(s, rows).risk,
                           Risk.Scope(Risk.TENANCY, OverlappedLease(s, rows[i]).value), Risk.TENANCY_OVERLAP)
    decreases |rows|
  {
    var lease := OverlappedLease(s, rows[0]);
    var s1 := if lease.None? then s
              else s.(risk := Risk.Raise(s.risk, Risk.Scope(Risk.TENANCY, lease.value), Risk.TENANCY_OVERLAP));
    if i == 0 {
      Risk.RaiseEffect(s.risk, Risk.Scope(Risk.TENANCY, lease.value), Risk.TENANCY_OVERLAP,
                       Risk.Scope(Risk.TENANCY, lease.value), Risk.TENANCY_OVERLAP);
      FlagsOnlyRise(s1, rows[1..], lease.value);
    } else {
      assert OverlappedLease(s1, rows[i]) == OverlappedLease(s, rows[i]);
      OverlapsAreFlagged(s1, rows[1..], i - 1);
    }
  }

  lemma {:induction false} FlagsOnlyRise(s: State, rows: seq<Row>, t: nat)
    requires Risk.HasActive(s.risk, Risk.Scope(Risk.TENANCY, t), Risk.TENANCY_OVERLAP)
    ensures Risk.HasActive(FlagOverlaps(s, rows).risk, Risk.Scope(Risk.TENANCY, t), Risk.TENANCY_OVERLAP)
    decreases |rows|
  {
    if rows == [] {
    } else {
      var lease := OverlappedLease(s, rows[0]);
      if lease.None? {
        FlagsOnlyRise(s, rows[1..], t);
      } else {
        Risk.RaiseEffect(s.risk, Risk.Scope(Risk.TENANCY, lease.value), Risk.TENANCY_OVERLAP,
                         Risk.Scope(Risk.TENANCY, t), Risk.TENANCY_OVERLAP);
        FlagsOnlyRise(s.(risk := Risk.Raise(s.risk, Risk.Scope(Risk.TENANCY, lease.value), Risk.TENANCY_OVERLAP)),
          rows[1..], t);
      }
    }
  }

  lemma RowAddsLiveTenancy(s: State, actor: Actor, b: nat, i: nat, from: nat)
    requires b < |s.batches| && i < |s.batches[b].rows| && AfterRow(s, actor, b, i).Ok?
    requires AllLive(s, from) && from <= |s.tenancies|
    ensures var s1 := AfterRow(s, actor, b, i).value.0; AllLive(s1, from) && from <= |s1.tenancies|
  {
    RowBecomesLease(s, actor, s.batches[b].rows[i].data, ContractDocOf(s.batches[b]));
  }

  /** Committing rows only adds live tenancies. */
  lemma {:induction false} RowsAddLiveTenancies(s: State, actor: Actor, b: nat, i: nat, from: nat)
    requires b < |s.batches| && i <= |s.batches[b].rows| && CommitRows(s, actor, b, i).Ok?
    requires AllLive(s, from) && from <= |s.tenancies|
    ensures AllLive(CommitRows(s, actor, b, i).value, from)
    decreases |s.batches[b].rows| - i
  {
    if i == |s.batches[b].rows| {
    } else if !Committable(s.batches[b].rows[i]) {
      RowsAddLiveTenancies(s, actor, b, i + 1, from);
    } else {
      CommitRowsUnfolds(s, actor, b, i);
      RowAddsLiveTenancy(s, actor, b, i, from);
      RowsAddLiveTenancies(AfterRow(s, actor, b, i).value.0, actor, b, i + 1, from);
    }
  }

  /**
   After a commit that went through, the flags of every tenancy it created are true: a missing Ejari number
   is flagged exactly when there is none, and a total exactly when the items do not add up to the rent.
   */
  lemma NewTenanciesAreFlaggedRight(s: State, actor: Actor, b: nat, today: int, t: nat)
    requires Risk.OneActive(s.risk.flags) && CommitImportBatch(s, actor, b, today).reply.Ok?
    requires |s.tenancies| <= t < |CommitImportBatch(s, actor, b, today).state.tenancies|
    ensures FlagsTrue(CommitImportBatch(s, actor, b, today).state, t)
  {
    var from, rows := |s.tenancies|, s.batches[b].rows;
    var tx := CommitTx(s, actor, b).value;
    RowsAddLiveTenancies(s, actor, b, 0, from);
    DerivedFlags(tx, from, from, today);
    var derived := Derive(tx, from, today).state;
    OverlapsTouchRiskOnly(derived, rows);
    OverlapsKeepTrue(derived, rows, t);
  }
}
