// Reconciliation as a transaction system: decisions run on snapshots, are validated at commit and
// retried a bounded number of times (packages/mcp-tools/src/write-tx.ts), while suggestion runs,
// imports, voidings and new chain events commit in between (match-repo.ts, recon/repo.ts).

module Reconciliation {
  import opened Text
  import opened Sums
  import opened Decisions

  datatype Request = Request(tenant: nat, matchId: nat, verdict: Verdict)

  // A decision in flight: the tables as they were when its current attempt began.
  datatype Txn = Txn(req: Request, attempt: nat, snapshot: Tables)

  // `legIds` are the leg ids ever given out; ids are random and never come back.
  datatype State = State(db: Tables, txns: map<nat, Txn>, legIds: set<nat>)

  datatype Step =
    | Begin(id: nat, req: Request)
    | Finish(id: nat)
    | Disrupt(id: nat, retryable: bool)
    | Suggest(tenant: nat, recs: set<nat>, removed: set<nat>, added: map<nat, Leg>)
    | Import(imported: map<nat, Record>)
    | VoidRecord(rec: nat)
    | Ingest(amounts: map<nat, nat>)

  predicate Decided(l: Leg) { l.status != Suggested }

  // ------------------------------------------------------------------ commit

  // What SERIALIZABLE asks of a decision at commit. The two rows it writes must be the versions it
  // read (first updater wins). And two confirms of one event each read the set of confirmed legs that
  // the other writes, the cycle that serializable isolation breaks: so for a confirm, no leg of the
  // event has been confirmed since the snapshot.
  predicate RowsUnchanged(db: Tables, snapshot: Tables, w: Write) {
    && w.leg in db.legs && w.leg in snapshot.legs && db.legs[w.leg] == snapshot.legs[w.leg]
    && w.rec in db.records && w.rec in snapshot.records && db.records[w.rec].version == snapshot.records[w.rec].version
  }

  predicate Validated(db: Tables, snapshot: Tables, tenant: nat, w: Write) {
    && RowsUnchanged(db, snapshot, w)
    && (w.verdict.Confirm? ==>
        var event := snapshot.legs[w.leg].event;
        ConfirmedOf(db.legs, tenant, event) == ConfirmedOf(snapshot.legs, tenant, event))
  }

  // A suggestion run takes out suggestions of the records it read as in scope (all those it sees: a
  // run committing beside it may leave some), and puts in whatever the engine proposes for them. Each
  // pending leg may even be in a foreign currency.
  predicate SuggestionRun(s: State, step: Step)
    requires step.Suggest?
  {
    && (forall r :: r in step.recs ==> r in s.db.records && s.db.records[r].tenant == step.tenant)
    && step.removed <= Replaceable(s.db.legs, step.tenant, step.recs)
    && (forall id :: id in step.added ==> id !in s.legIds && IsPending(s, step, step.added[id]))
  }

  predicate IsPending(s: State, step: Step, l: Leg)
    requires step.Suggest?
  {
    l.tenant == step.tenant && l.status == Suggested && l.rec in step.recs && l.event in s.db.events && l.applied > 0
  }

  predicate Enabled(s: State, step: Step) {
    match step
    case Begin(id, req) => id !in s.txns
    case Finish(id) => id in s.txns
    case Disrupt(id, _) => id in s.txns
    case Suggest(_, _, _, _) => SuggestionRun(s, step)
    case Import(imported) => forall r :: r in imported ==> r !in s.db.records && imported[r].status == Open
    case VoidRecord(rec) => rec in s.db.records
    case Ingest(amounts) => forall e :: e in amounts ==> e !in s.db.events
  }

  // write-tx.ts:36-45: a retryable failure starts over on a fresh snapshot while attempts last.
  function Retried(s: State, id: nat): State
    requires id in s.txns
  {
    var t := s.txns[id];
    if t.attempt < MAX_TX_ATTEMPTS then s.(txns := s.txns[id := Txn(t.req, t.attempt + 1, s.db)])
    else s.(txns := s.txns - {id})
  }

  ghost function Finished(s: State, id: nat): State
    requires id in s.txns
  {
    var t := s.txns[id];
    var decided := Decide(t.snapshot, t.req.tenant, t.req.matchId, t.req.verdict);
    if decided.Err? then s.(txns := s.txns - {id})
    else if Validated(s.db, t.snapshot, t.req.tenant, decided.value)
    then s.(db := Install(s.db, decided.value), txns := s.txns - {id})
    else Retried(s, id)
  }

  ghost function Apply(s: State, step: Step): State
    requires Enabled(s, step)
  {
    match step
    case Begin(id, req) => s.(txns := s.txns[id := Txn(req, 1, s.db)])
    case Finish(id) => Finished(s, id)
    case Disrupt(id, retryable) => if retryable then Retried(s, id) else s.(txns := s.txns - {id})
    case Suggest(_, _, removed, added) =>
      s.(db := s.db.(legs := (s.db.legs - removed) + added), legIds := s.legIds + added.Keys)
    case Import(imported) => s.(db := s.db.(records := s.db.records + imported))
    case VoidRecord(rec) =>
      var voided := s.db.records[rec].(status := Void, version := s.db.records[rec].version + 1);
      s.(db := s.db.(records := s.db.records[rec := voided]))
    case Ingest(amounts) => s.(db := s.db.(events := s.db.events + amounts))
  }

  ghost predicate IsRun(s: State, steps: seq<Step>)
    decreases |steps|
  {
    steps == [] || (Enabled(s, steps[0]) && IsRun(Apply(s, steps[0]), steps[1..]))
  }

  ghost function After(s: State, steps: seq<Step>): State
    requires IsRun(s, steps)
    decreases |steps|
  {
    if steps == [] then s else After(Apply(s, steps[0]), steps[1..])
  }

  predicate Initial(s: State) {
    s.db == Tables(map[], map[], map[], []) && s.txns == map[] && s.legIds == {}
  }

  // ------------------------------------------------------------------ what the tables keep

  predicate References(db: Tables) {
    forall id :: id in db.legs ==>
      && db.legs[id].rec in db.records && db.records[db.legs[id].rec].tenant == db.legs[id].tenant
      && db.legs[id].event in db.events && db.legs[id].applied > 0
  }

  // No event is applied beyond its amount, per tenant.
  ghost predicate Bounded(db: Tables) {
    forall tenant, event :: event in db.events ==> AppliedTo(db.legs, tenant, event) <= db.events[event]
  }

  predicate HasDecision(legs: map<nat, Leg>, rec: nat) {
    exists id :: id in legs && legs[id].rec == rec && Decided(legs[id])
  }

  // A record that is not void has the status its confirmed legs derive, once it has a decision.
  ghost predicate StatusOf(db: Tables, r: nat)
    requires r in db.records
  {
    var rec := db.records[r];
    rec.status != Void ==>
      rec.status == if HasDecision(db.legs, r) then Derive(rec.amount, FiatOf(db.legs, rec.tenant, r, rec.currency))
        else Open
  }

  ghost predicate Statuses(db: Tables) {
    forall r :: r in db.records ==> StatusOf(db, r)
  }

  // Every decided leg has exactly one audit row, which says what was decided.
  predicate Audited(db: Tables) {
    && (forall i :: 0 <= i < |db.audits| ==>
          db.audits[i].leg in db.legs && Decided(db.legs[db.audits[i].leg])
          && Stamp(db.legs[db.audits[i].leg], db.audits[i].verdict) == db.legs[db.audits[i].leg])
    && (forall i, j :: 0 <= i < j < |db.audits| ==> db.audits[i].leg != db.audits[j].leg)
    && (forall id ::
        id in db.legs && Decided(db.legs[id]) ==> exists i :: 0 <= i < |db.audits| && db.audits[i].leg == id)
  }

  ghost predicate Consistent(db: Tables) {
    References(db) && Bounded(db) && Statuses(db) && Audited(db)
  }

  // How the tables may move on. Decided legs and void records never change; a record whose version
  // is the same is the same, with the same decided legs; events keep their amounts.
  predicate Later(past: Tables, db: Tables) {
    && (forall id :: id in past.legs && Decided(past.legs[id]) ==> id in db.legs && db.legs[id] == past.legs[id])
    && (forall r :: r in past.records ==> r in db.records && LaterRecord(past, db, r))
    && (forall e :: e in past.events ==> e in db.events && db.events[e] == past.events[e])
  }

  predicate LaterRecord(past: Tables, db: Tables, r: nat)
    requires r in past.records && r in db.records
  {
    var a, b := past.records[r], db.records[r];
    && a.version <= b.version && a.tenant == b.tenant && a.amount == b.amount && a.currency == b.currency
    && (a.status == Void ==> b.status == Void)
    && (a.version == b.version
        ==> a == b && forall id :: id in db.legs && db.legs[id].rec == r && Decided(db.legs[id]) ==>
          id in past.legs && past.legs[id] == db.legs[id])
  }

  ghost predicate TxnsValid(s: State) {
    forall id :: id in s.txns ==> 1 <= s.txns[id].attempt <= MAX_TX_ATTEMPTS && Later(s.txns[id].snapshot, s.db)
  }

  ghost predicate Inv(s: State) {
    Consistent(s.db) && TxnsValid(s) && s.db.legs.Keys <= s.legIds
  }

  // ------------------------------------------------------------------ sums that stay, sums that grow

  // The same decided legs.
  predicate SameDecided(a: map<nat, Leg>, b: map<nat, Leg>) {
    && (forall id :: id in a && Decided(a[id]) ==> id in b && b[id] == a[id])
    && (forall id :: id in b && Decided(b[id]) ==> id in a && a[id] == b[id])
  }

  lemma SameSums(a: map<nat, Leg>, b: map<nat, Leg>, tenant: nat, event: nat)
    requires SameDecided(a, b)
    ensures ConfirmedOf(a, tenant, event) == ConfirmedOf(b, tenant, event)
    ensures AppliedTo(a, tenant, event) == AppliedTo(b, tenant, event)
  {
    assert ConfirmedOf(a, tenant, event) == ConfirmedOf(b, tenant, event);
    SumOverSame(ConfirmedOf(a, tenant, event), Amounts(a), Amounts(b));
  }

  // The same legs paying a record.
  lemma SameFiat(a: map<nat, Leg>, b: map<nat, Leg>, tenant: nat, rec: nat, currency: string)
    requires Paying(a, tenant, rec, currency) == Paying(b, tenant, rec, currency)
    requires forall id :: id in Paying(a, tenant, rec, currency) ==> a[id] == b[id]
    ensures FiatOf(a, tenant, rec, currency) == FiatOf(b, tenant, rec, currency)
  {
    SumOverSame(Paying(a, tenant, rec, currency), Fiats(a), Fiats(b));
  }

  lemma ConfirmAdds(legs: map<nat, Leg>, id: nat, tenant: nat, event: nat)
    requires id in legs && legs[id].status == Suggested
    ensures AppliedTo(WithStamp(legs, id, Confirm), tenant, event) ==
            AppliedTo(legs, tenant, event)
            + if legs[id].tenant == tenant && legs[id].event == event then legs[id].applied else 0
  {
    var after := WithStamp(legs, id, Confirm);
    var before := ConfirmedOf(legs, tenant, event);
    if legs[id].tenant == tenant && legs[id].event == event {
      assert ConfirmedOf(after, tenant, event) - {id} == before;
      SumOverRemove(ConfirmedOf(after, tenant, event), Amounts(after), id);
    } else {
      assert ConfirmedOf(after, tenant, event) == before;
    }
    SumOverSame(before, Amounts(legs), Amounts(after));
  }

  lemma RejectAddsNothing(legs: map<nat, Leg>, id: nat, tenant: nat, event: nat)
    requires id in legs && legs[id].status == Suggested
    ensures AppliedTo(WithStamp(legs, id, Reject), tenant, event) == AppliedTo(legs, tenant, event)
  {
    var after := WithStamp(legs, id, Reject);
    assert ConfirmedOf(after, tenant, event) == ConfirmedOf(legs, tenant, event);
    SumOverSame(ConfirmedOf(legs, tenant, event), Amounts(legs), Amounts(after));
  }

  // Confirming a leg pays its record by the leg's worth exactly when the leg is the record's own, in
  // tenant, record and currency; a leg in another currency pays nothing.
  lemma ConfirmPays(legs: map<nat, Leg>, id: nat, tenant: nat, rec: nat, currency: string)
    requires id in legs && legs[id].status == Suggested
    ensures FiatOf(WithStamp(legs, id, Confirm), tenant, rec, currency) ==
            FiatOf(legs, tenant, rec, currency)
            + if legs[id].tenant == tenant && legs[id].rec == rec && legs[id].currency == currency then legs[id].fiat
              else 0
  {
    var after := WithStamp(legs, id, Confirm);
    var before := Paying(legs, tenant, rec, currency);
    if legs[id].tenant == tenant && legs[id].rec == rec && legs[id].currency == currency {
      assert Paying(after, tenant, rec, currency) - {id} == before;
      SumOverRemove(Paying(after, tenant, rec, currency), Fiats(after), id);
    } else {
      assert Paying(after, tenant, rec, currency) == before;
    }
    SumOverSame(before, Fiats(legs), Fiats(after));
  }

  lemma RejectPaysNothing(legs: map<nat, Leg>, id: nat, tenant: nat, rec: nat, currency: string)
    requires id in legs && legs[id].status == Suggested
    ensures FiatOf(WithStamp(legs, id, Reject), tenant, rec, currency) == FiatOf(legs, tenant, rec, currency)
  {
    var after := WithStamp(legs, id, Reject);
    assert Paying(after, tenant, rec, currency) == Paying(legs, tenant, rec, currency);
    SumOverSame(Paying(legs, tenant, rec, currency), Fiats(legs), Fiats(after));
  }

  // ------------------------------------------------------------------ a valid commit is serial

  // What a decision that is not refused says of its write.
  ghost predicate Applicable(db: Tables, tenant: nat, w: Write) {
    && w.leg in db.legs && db.legs[w.leg].status == Suggested && db.legs[w.leg].tenant == tenant
    && w.rec == db.legs[w.leg].rec && w.rec in db.records
    && db.records[w.rec].tenant == tenant && db.records[w.rec].status != Void
    && (w.verdict.Confirm? ==> Fits(db, tenant, db.legs[w.leg]))
    && w.status == Rederived(db, tenant, w.leg, w.verdict)
  }

  ghost predicate Fits(db: Tables, tenant: nat, leg: Leg) {
    leg.event in db.events && AppliedTo(db.legs, tenant, leg.event) + leg.applied <= db.events[leg.event]
  }

  lemma DecideApplicable(db: Tables, req: Request, w: Write)
    ensures Decide(db, req.tenant, req.matchId, req.verdict) == Ok(w)
       <==> w.leg == req.matchId && w.verdict == req.verdict && Applicable(db, req.tenant, w)
  {
  }

  // A decision taken on a snapshot that validation lets through is the decision the current tables
  // give: committed decisions behave as if each had run alone at its commit.
  lemma CommitIsSerial(db: Tables, snapshot: Tables, req: Request, w: Write)
    requires Later(snapshot, db) && Decide(snapshot, req.tenant, req.matchId, req.verdict) == Ok(w)
    requires Validated(db, snapshot, req.tenant, w)
    ensures Decide(db, req.tenant, req.matchId, req.verdict) == Ok(w)
  {
    DecideApplicable(snapshot, req, w);
    StillApplicable(db, snapshot, req.tenant, w);
    DecideApplicable(db, req, w);
  }

  lemma StillApplicable(db: Tables, snapshot: Tables, tenant: nat, w: Write)
    requires Later(snapshot, db) && Applicable(snapshot, tenant, w) && Validated(db, snapshot, tenant, w)
    ensures Applicable(db, tenant, w)
  {
    assert LaterRecord(snapshot, db, w.rec);
    if w.verdict.Confirm? { SameApplied(db, snapshot, tenant, snapshot.legs[w.leg].event); }
    SameStatus(db, snapshot, tenant, w);
  }

  lemma SameApplied(db: Tables, snapshot: Tables, tenant: nat, event: nat)
    requires Later(snapshot, db) && ConfirmedOf(db.legs, tenant, event) == ConfirmedOf(snapshot.legs, tenant, event)
    ensures AppliedTo(db.legs, tenant, event) == AppliedTo(snapshot.legs, tenant, event)
  {
    var ids := ConfirmedOf(snapshot.legs, tenant, event);
    assert forall id :: id in ids ==> Decided(snapshot.legs[id]);
    SumOverSame(ids, Amounts(db.legs), Amounts(snapshot.legs));
  }

  lemma SameStatus(db: Tables, snapshot: Tables, tenant: nat, w: Write)
    requires Later(snapshot, db) && Applicable(snapshot, tenant, w) && RowsUnchanged(db, snapshot, w)
    ensures Rederived(db, tenant, w.leg, w.verdict) == Rederived(snapshot, tenant, w.leg, w.verdict)
  {
    var currency := snapshot.records[w.rec].currency;
    var a, b := WithStamp(db.legs, w.leg, w.verdict), WithStamp(snapshot.legs, w.leg, w.verdict);
    assert LaterRecord(snapshot, db, w.rec);
    forall id ensures id in Paying(a, tenant, w.rec, currency) <==> id in Paying(b, tenant, w.rec, currency) {
      if id != w.leg {
        if id in Paying(a, tenant, w.rec, currency) { assert Decided(db.legs[id]) && db.legs[id].rec == w.rec; }
        if id in Paying(b, tenant, w.rec, currency) { assert Decided(snapshot.legs[id]); }
      }
    }
    forall id | id in Paying(a, tenant, w.rec, currency) ensures a[id] == b[id] {
      if id != w.leg { assert Decided(db.legs[id]) && db.legs[id].rec == w.rec; }
    }
    SameFiat(a, b, tenant, w.rec, currency);
  }

  // ------------------------------------------------------------------ a decision keeps the tables consistent

  lemma InstallBounded(db: Tables, tenant: nat, w: Write)
    requires Bounded(db) && Applicable(db, tenant, w)
    ensures Bounded(Install(db, w))
  {
    forall t, event | event in db.events
      ensures AppliedTo(Install(db, w).legs, t, event) <= db.events[event]
    {
      assert AppliedTo(db.legs, t, event) <= db.events[event];
      if w.verdict.Confirm? {
        ConfirmAdds(db.legs, w.leg, t, event);
      } else {
        RejectAddsNothing(db.legs, w.leg, t, event);
      }
    }
  }

  // Legs of other records do not count.
  lemma StampedOtherFiat(legs: map<nat, Leg>, id: nat, verdict: Verdict, tenant: nat, r: nat, currency: string)
    requires id in legs && legs[id].rec != r
    ensures FiatOf(WithStamp(legs, id, verdict), tenant, r, currency) == FiatOf(legs, tenant, r, currency)
  {
    var after := WithStamp(legs, id, verdict);
    assert Paying(after, tenant, r, currency) == Paying(legs, tenant, r, currency);
    SameFiat(after, legs, tenant, r, currency);
  }

  lemma StampedOtherDecision(legs: map<nat, Leg>, id: nat, verdict: Verdict, r: nat)
    requires id in legs && legs[id].rec != r
    ensures HasDecision(WithStamp(legs, id, verdict), r) <==> HasDecision(legs, r)
  {
    var after := WithStamp(legs, id, verdict);
    forall k | k in legs
      ensures k in after && (after[k].rec == r && Decided(after[k]) <==> legs[k].rec == r && Decided(legs[k]))
    {
    }
  }

  // The status part of a commit does not need the event to fit.
  lemma InstallStatuses(db: Tables, tenant: nat, w: Write)
    requires Statuses(db) && w.leg in db.legs && db.legs[w.leg].tenant == tenant && w.rec == db.legs[w.leg].rec
             && w.rec in db.records
    requires db.records[w.rec].tenant == tenant && w.status == Rederived(db, tenant, w.leg, w.verdict)
    ensures Statuses(Install(db, w))
  {
    var after := Install(db, w);
    forall r | r in after.records ensures StatusOf(after, r) {
      if r != w.rec {
        assert StatusOf(db, r);
        StampedOtherFiat(db.legs, w.leg, w.verdict, db.records[r].tenant, r, db.records[r].currency);
        StampedOtherDecision(db.legs, w.leg, w.verdict, r);
      } else {
        assert Decided(after.legs[w.leg]) && after.legs[w.leg].rec == r;
      }
    }
  }

  lemma AuditKept(audits: seq<Audit>, a: Audit, id: nat)
    requires exists i :: 0 <= i < |audits| && audits[i].leg == id
    ensures exists i :: 0 <= i < |audits + [a]| && (audits + [a])[i].leg == id
  {
    var i :| 0 <= i < |audits| && audits[i].leg == id;
    assert (audits + [a])[i].leg == id;
  }

  lemma InstallAudited(db: Tables, tenant: nat, w: Write)
    requires Audited(db) && Applicable(db, tenant, w)
    ensures Audited(Install(db, w))
  {
    var legs, a := WithStamp(db.legs, w.leg, w.verdict), Audit(w.leg, w.verdict);
    var audits := db.audits + [a];
    assert audits[|db.audits|].leg == w.leg;
    forall id | id in legs && Decided(legs[id]) ensures exists i :: 0 <= i < |audits| && audits[i].leg == id {
      if id != w.leg {
        assert Decided(db.legs[id]);
        AuditKept(db.audits, a, id);
      }
    }
  }

  lemma InstallLater(db: Tables, tenant: nat, w: Write)
    requires Applicable(db, tenant, w)
    ensures Later(db, Install(db, w))
  {
    var after := Install(db, w);
    forall r | r in db.records ensures LaterRecord(db, after, r) {}
  }

  lemma InstallConsistent(db: Tables, req: Request, w: Write)
    requires Consistent(db) && Decide(db, req.tenant, req.matchId, req.verdict) == Ok(w)
    ensures Consistent(Install(db, w)) && Later(db, Install(db, w))
  {
    DecideApplicable(db, req, w);
    InstallBounded(db, req.tenant, w);
    InstallStatuses(db, req.tenant, w);
    InstallAudited(db, req.tenant, w);
    InstallReferences(db, req.tenant, w);
    InstallLater(db, req.tenant, w);
  }

  lemma InstallReferences(db: Tables, tenant: nat, w: Write)
    requires References(db) && Applicable(db, tenant, w)
    ensures References(Install(db, w))
  {
  }

  // ------------------------------------------------------------------ the other writers

  lemma SuggestConsistent(s: State, step: Step)
    requires Inv(s) && step.Suggest? && SuggestionRun(s, step)
    ensures Consistent(Apply(s, step).db) && Later(s.db, Apply(s, step).db)
    ensures SameDecided(s.db.legs, Apply(s, step).db.legs)
  {
    var db, after := s.db, Apply(s, step).db;
    SuggestSameDecided(s, step);
    forall tenant, event | event in db.events ensures AppliedTo(after.legs, tenant, event) <= after.events[event] {
      SameSums(db.legs, after.legs, tenant, event);
    }
    forall r | r in after.records ensures StatusOf(after, r) {
      KeepsStatus(db, after, r);
    }
    SuggestAudited(s, step);
  }

  lemma SuggestSameDecided(s: State, step: Step)
    requires Inv(s) && step.Suggest? && SuggestionRun(s, step)
    ensures SameDecided(s.db.legs, Apply(s, step).db.legs)
  {
  }

  lemma SuggestAudited(s: State, step: Step)
    requires Inv(s) && step.Suggest? && SuggestionRun(s, step)
    ensures Audited(Apply(s, step).db) && References(Apply(s, step).db)
  {
  }

  // A record whose row and decided legs are the same keeps its status.
  lemma KeepsStatus(db: Tables, after: Tables, r: nat)
    requires SameDecided(db.legs, after.legs) && r in db.records && r in after.records
             && after.records[r] == db.records[r]
    requires StatusOf(db, r)
    ensures StatusOf(after, r)
  {
    var rec := db.records[r];
    assert Paying(after.legs, rec.tenant, r, rec.currency) == Paying(db.legs, rec.tenant, r, rec.currency);
    SameFiat(after.legs, db.legs, rec.tenant, r, rec.currency);
    assert HasDecision(after.legs, r) <==> HasDecision(db.legs, r) by {
      if HasDecision(db.legs, r) {
        var id :| id in db.legs && db.legs[id].rec == r && Decided(db.legs[id]);
        assert id in after.legs && after.legs[id] == db.legs[id];
      }
      if HasDecision(after.legs, r) {
        var id :| id in after.legs && after.legs[id].rec == r && Decided(after.legs[id]);
        assert id in db.legs && after.legs[id] == db.legs[id];
      }
    }
  }

  lemma ImportConsistent(s: State, step: Step)
    requires Inv(s) && step.Import? && Enabled(s, step)
    ensures Consistent(Apply(s, step).db) && Later(s.db, Apply(s, step).db)
  {
    var db, after := s.db, Apply(s, step).db;
    forall r | r in after.records ensures StatusOf(after, r) {
      if r in db.records { KeepsStatus(db, after, r); }
    }
  }

  lemma VoidConsistent(s: State, step: Step)
    requires Inv(s) && step.VoidRecord? && Enabled(s, step)
    ensures Consistent(Apply(s, step).db) && Later(s.db, Apply(s, step).db)
  {
    var db, after := s.db, Apply(s, step).db;
    forall r | r in after.records ensures StatusOf(after, r) {
      if r != step.rec { KeepsStatus(db, after, r); }
    }
  }

  lemma IngestConsistent(s: State, step: Step)
    requires Inv(s) && step.Ingest? && Enabled(s, step)
    ensures Consistent(Apply(s, step).db) && Later(s.db, Apply(s, step).db)
  {
    var db, after := s.db, Apply(s, step).db;
    forall tenant, event | event in after.events ensures AppliedTo(after.legs, tenant, event) <= after.events[event] {
      if event !in db.events {
        assert ConfirmedOf(db.legs, tenant, event) == {};
      }
    }
    forall r | r in after.records ensures StatusOf(after, r) { KeepsStatus(db, after, r); }
  }

  // ------------------------------------------------------------------ every step, every run

  lemma LaterTransitive(a: Tables, b: Tables, c: Tables)
    requires Later(a, b) && Later(b, c)
    ensures Later(a, c)
  {
    forall r | r in a.records ensures r in c.records && LaterRecord(a, c, r) {
      assert LaterRecord(a, b, r) && LaterRecord(b, c, r);
    }
  }

  lemma LaterReflexive(a: Tables)
    ensures Later(a, a)
  {
  }

  lemma CommitKeeps(db: Tables, t: Txn, w: Write)
    requires Consistent(db) && Later(t.snapshot, db)
             && Decide(t.snapshot, t.req.tenant, t.req.matchId, t.req.verdict) == Ok(w)
    requires Validated(db, t.snapshot, t.req.tenant, w)
    ensures Consistent(Install(db, w)) && Later(db, Install(db, w)) && Install(db, w).legs.Keys == db.legs.Keys
  {
    CommitIsSerial(db, t.snapshot, t.req, w);
    InstallConsistent(db, t.req, w);
  }

  // A finished transaction has installed a decision that passed validation, or left the tables alone.
  lemma FinishedTables(s: State, id: nat)
    requires id in s.txns
    ensures var t := s.txns[id];
      var decided := Decide(t.snapshot, t.req.tenant, t.req.matchId, t.req.verdict);
      Finished(s, id).db ==
        if decided.Ok? && Validated(s.db, t.snapshot, t.req.tenant, decided.value) then Install(s.db, decided.value)
        else s.db
  {
  }

  lemma FinishKeeps(s: State, id: nat)
    requires Inv(s) && id in s.txns
    ensures Consistent(Finished(s, id).db) && Later(s.db, Finished(s, id).db)
    ensures Finished(s, id).db.legs.Keys <= s.legIds
  {
    var t := s.txns[id];
    var decided := Decide(t.snapshot, t.req.tenant, t.req.matchId, t.req.verdict);
    FinishedTables(s, id);
    if decided.Ok? && Validated(s.db, t.snapshot, t.req.tenant, decided.value) {
      CommitKeeps(s.db, t, decided.value);
    } else {
      LaterReflexive(s.db);
    }
  }

  // Every step keeps the tables consistent and only moves them on.
  lemma StepKeeps(s: State, step: Step)
    requires Inv(s) && Enabled(s, step)
    ensures Consistent(Apply(s, step).db) && Later(s.db, Apply(s, step).db)
    ensures Apply(s, step).db.legs.Keys <= Apply(s, step).legIds
  {
    match step
    case Begin(id, req) => LaterReflexive(s.db);
    case Finish(id) => FinishKeeps(s, id);
    case Disrupt(id, retryable) => LaterReflexive(s.db);
    case Suggest(_, _, _, _) => SuggestConsistent(s, step);
    case Import(_) => ImportConsistent(s, step);
    case VoidRecord(rec) => VoidConsistent(s, step);
    case Ingest(_) => IngestConsistent(s, step);
  }

  // After a step a transaction is as it was, or at an attempt that starts from the tables before it.
  lemma TxnAfter(s: State, step: Step, id: nat)
    requires Enabled(s, step) && id in Apply(s, step).txns
    requires forall k :: k in s.txns ==> 1 <= s.txns[k].attempt <= MAX_TX_ATTEMPTS
    ensures var t := Apply(s, step).txns[id];
      (id in s.txns && t == s.txns[id]) || (t.snapshot == s.db && 1 <= t.attempt <= MAX_TX_ATTEMPTS)
  {
  }

  lemma TxnsKeep(s: State, step: Step)
    requires Inv(s) && Enabled(s, step) && Later(s.db, Apply(s, step).db)
    ensures TxnsValid(Apply(s, step))
  {
    var s' := Apply(s, step);
    forall id | id in s'.txns
      ensures 1 <= s'.txns[id].attempt <= MAX_TX_ATTEMPTS && Later(s'.txns[id].snapshot, s'.db) {
      TxnAfter(s, step, id);
      if id in s.txns && s'.txns[id] == s.txns[id] {
        LaterTransitive(s.txns[id].snapshot, s.db, s'.db);
      } else {
        LaterReflexive(s.db);
      }
    }
  }

  lemma {:induction false} RunKeeps(s: State, steps: seq<Step>)
    requires Inv(s) && IsRun(s, steps)
    ensures Inv(After(s, steps)) && Later(s.db, After(s, steps).db)
    decreases |steps|
  {
    if steps == [] {
      LaterReflexive(s.db);
    } else {
      var s1 := Apply(s, steps[0]);
      StepKeeps(s, steps[0]);
      TxnsKeep(s, steps[0]);
      RunKeeps(s1, steps[1..]);
      LaterTransitive(s.db, s1.db, After(s1, steps[1..]).db);
    }
  }

  lemma InitialInv(s: State)
    requires Initial(s)
    ensures Inv(s)
  {
  }

  // ------------------------------------------------------------------ what follows for every run

  // Whatever interleaves, the confirmed legs of an event never add up to more than the event.
  lemma NeverOverApplied(s: State, steps: seq<Step>, tenant: nat, event: nat)
    requires Initial(s) && IsRun(s, steps) && event in After(s, steps).db.events
    ensures AppliedTo(After(s, steps).db.legs, tenant, event) <= After(s, steps).db.events[event]
  {
    InitialInv(s);
    RunKeeps(s, steps);
  }

  // A record with a decision has the status its confirmed legs in its own currency derive, unless it
  // is void; one without is open.
  lemma StatusIsDerived(s: State, steps: seq<Step>, r: nat)
    requires Initial(s) && IsRun(s, steps) && r in After(s, steps).db.records
    ensures var db := After(s, steps).db;
      var rec := db.records[r];
      rec.status == Void
      || rec.status ==
        if HasDecision(db.legs, r) then Derive(rec.amount, FiatOf(db.legs, rec.tenant, r, rec.currency)) else Open
  {
    InitialInv(s);
    RunKeeps(s, steps);
    assert StatusOf(After(s, steps).db, r);
  }

  // Confirmed and rejected are terminal, and so is void: no later decision, re-suggestion, import or
  // voiding touches them.
  lemma DecisionsAreFinal(s: State, steps: seq<Step>, more: seq<Step>, id: nat, r: nat)
    requires Initial(s) && IsRun(s, steps) && IsRun(After(s, steps), more)
    ensures var now, later := After(s, steps).db, After(After(s, steps), more).db;
      && (id in now.legs && Decided(now.legs[id]) ==> id in later.legs && later.legs[id] == now.legs[id])
      && (r in now.records ==> r in later.records && LaterRecord(now, later, r))
      && (r in now.records && now.records[r].status == Void ==> later.records[r].status == Void)
  {
    InitialInv(s);
    RunKeeps(s, steps);
    RunKeeps(After(s, steps), more);
    var now, later := After(s, steps).db, After(After(s, steps), more).db;
    if r in now.records { assert LaterRecord(now, later, r); }
  }

  // A leg is actioned at most once: one audit row for each decided leg, none for any other.
  lemma ActionedOnce(s: State, steps: seq<Step>, id: nat)
    requires Initial(s) && IsRun(s, steps)
    ensures var db := After(s, steps).db;
      && (id in db.legs && Decided(db.legs[id]) <==> exists i :: 0 <= i < |db.audits| && db.audits[i].leg == id)
      && (forall i, j ::
          0 <= i < |db.audits| && 0 <= j < |db.audits| && db.audits[i].leg == id && db.audits[j].leg == id ==> i == j)
  {
    InitialInv(s);
    RunKeeps(s, steps);
  }

  // A transaction ends or uses up an attempt at each try, and has three.
  lemma AttemptsRunOut(s: State, steps: seq<Step>, step: Step)
    requires Initial(s) && IsRun(s, steps) && Enabled(After(s, steps), step) && (step.Finish? || step.Disrupt?)
    ensures var now, next := After(s, steps), Apply(After(s, steps), step);
      && now.txns[step.id].attempt <= 3
      && (step.id in next.txns
          ==> next.txns[step.id].attempt == now.txns[step.id].attempt + 1 && next.txns[step.id].snapshot == now.db)
      && (now.txns[step.id].attempt == 3 ==> step.id !in next.txns)
  {
    InitialInv(s);
    RunKeeps(s, steps);
  }

  // ------------------------------------------------------------------ what validation is for

  // Checking the written rows alone, as snapshot isolation does, keeps every record's status right;
  // it keeps the event within its amount exactly when the amount confirmed by now leaves room.
  lemma RowChecksAlone(db: Tables, snapshot: Tables, req: Request, w: Write)
    requires Consistent(db) && Later(snapshot, db) && RowsUnchanged(db, snapshot, w)
    requires Decide(snapshot, req.tenant, req.matchId, req.verdict) == Ok(w) && w.verdict == Confirm
    ensures Statuses(Install(db, w))
    ensures Bounded(Install(db, w)) <==> Fits(db, req.tenant, db.legs[w.leg])
  {
    DecideApplicable(snapshot, req, w);
    assert LaterRecord(snapshot, db, w.rec);
    SameStatus(db, snapshot, req.tenant, w);
    var leg := db.legs[w.leg];
    ConfirmAdds(db.legs, w.leg, req.tenant, leg.event);
    InstallStatuses(db, req.tenant, w);
    if Fits(db, req.tenant, leg) {
      InstallBounded(db, req.tenant, w);
    } else {
      assert AppliedTo(Install(db, w).legs, req.tenant, leg.event) > db.events[leg.event];
    }
  }

  function SkewLeg(rec: nat): Leg { Leg(0, rec, 0, 10, 5, "EUR", Suggested) }

  function SkewRecord(): Record { Record(0, 5, "EUR", Open, 0) }

  // Two suggestions of different records for all of one event.
  function SkewTables(): Tables {
    Tables(map[0 := SkewLeg(0), 1 := SkewLeg(1)], map[0 := SkewRecord(), 1 := SkewRecord()], map[0 := 10], [])
  }

  // Write skew: both confirms pass on the same snapshot and touch different rows, so checking rows
  // alone commits both and applies 20 to an event of 10; validation refuses the second.
  lemma WriteSkew()
    ensures var first, second := Decide(SkewTables(), 0, 0, Confirm), Decide(SkewTables(), 0, 1, Confirm);
      && first.Ok? && second.Ok?
      && first.value.leg in SkewTables().legs && first.value.rec in SkewTables().records
      && var db := Install(SkewTables(), first.value);
         && RowsUnchanged(db, SkewTables(), second.value) && !Validated(db, SkewTables(), 0, second.value)
         && AppliedTo(Install(db, second.value).legs, 0, 0) == 20 && !Bounded(Install(db, second.value))
  {
    SkewDecisionsPass();
    var w, w' := Decide(SkewTables(), 0, 0, Confirm).value, Decide(SkewTables(), 0, 1, Confirm).value;
    var db := Install(SkewTables(), w);
    assert ConfirmedOf(SkewTables().legs, 0, 0) == {};
    assert 0 in ConfirmedOf(db.legs, 0, 0);
    SkewAmounts();
    assert Install(db, w').legs == WithStamp(WithStamp(SkewTables().legs, 0, Confirm), 1, Confirm);
    assert 0 in Install(db, w').events;
  }

  lemma SkewAmounts()
    ensures AppliedTo(WithStamp(WithStamp(SkewTables().legs, 0, Confirm), 1, Confirm), 0, 0) == 20
  {
    var legs := SkewTables().legs;
    assert ConfirmedOf(legs, 0, 0) == {};
    ConfirmAdds(legs, 0, 0, 0);
    ConfirmAdds(WithStamp(legs, 0, Confirm), 1, 0, 0);
  }

  lemma SkewDecisionsPass()
    ensures Decide(SkewTables(), 0, 0, Confirm).Ok? && Decide(SkewTables(), 0, 1, Confirm).Ok?
  {
    assert ConfirmedOf(SkewTables().legs, 0, 0) == {};
    assert AppliedTo(SkewTables().legs, 0, 0) == 0;
  }
}
