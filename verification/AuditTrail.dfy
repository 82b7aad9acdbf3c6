// What the audit rows of decisions say of the tables: statuses and applied amounts can be recomputed
// from them (packages/mcp-tools/src/recon/decision-repo.ts:97-179).

module AuditTrail {
  import opened Sums
  import opened Decisions
  import opened Reconciliation

  // A decision goes through exactly on a suggested leg of the tenant, of a record of the tenant that is
  // not void, and when confirming within what the event has left.
  lemma AcceptedIff(t: Tables, tenant: nat, matchId: nat, verdict: Verdict)
    ensures Decide(t, tenant, matchId, verdict).Ok? <==>
      && matchId in t.legs && t.legs[matchId].tenant == tenant && t.legs[matchId].status == Suggested
      && t.legs[matchId].rec in t.records && t.records[t.legs[matchId].rec].tenant == tenant
      && t.records[t.legs[matchId].rec].status != Void
      && (verdict == Reject
          || (t.legs[matchId].event in t.events
              && AppliedTo(t.legs, tenant, t.legs[matchId].event) + t.legs[matchId].applied
                 <= t.events[t.legs[matchId].event]))
  {
  }

  // The record's new status is the one its old sum derives, with the leg's worth added if it was
  // confirmed in the record's currency.
  lemma DecidedStatus(t: Tables, tenant: nat, matchId: nat, verdict: Verdict)
    requires Decide(t, tenant, matchId, verdict).Ok?
    ensures var w, leg := Decide(t, tenant, matchId, verdict).value, t.legs[matchId];
      && w.leg == matchId && w.verdict == verdict && w.rec == leg.rec && leg.rec in t.records
      && var rec := t.records[leg.rec];
         w.status == Derive(rec.amount, FiatOf(t.legs, tenant, leg.rec, rec.currency)
                                        + Worth(leg, rec.currency, verdict))
  {
    var leg := t.legs[matchId];
    var currency := t.records[leg.rec].currency;
    if verdict == Confirm {
      ConfirmPays(t.legs, matchId, tenant, leg.rec, currency);
    } else {
      RejectPaysNothing(t.legs, matchId, tenant, leg.rec, currency);
    }
  }

  // What the decision of a leg adds to a sum in this currency.
  function Worth(leg: Leg, currency: string, verdict: Verdict): nat {
    if verdict == Confirm && leg.currency == currency then leg.fiat else 0
  }

  // A decision writes the leg as decided, its record's status in a new version, and one audit row; every
  // other leg and record stays.
  lemma DecisionWrites(t: Tables, w: Write)
    requires w.leg in t.legs && w.rec in t.records
    ensures var after := Install(t, w);
      && after.legs.Keys == t.legs.Keys && after.records.Keys == t.records.Keys && after.events == t.events
      && after.legs[w.leg] == t.legs[w.leg].(status := if w.verdict == Confirm then Confirmed else Rejected)
      && (forall id :: id in t.legs && id != w.leg ==> after.legs[id] == t.legs[id])
      && after.records[w.rec] == t.records[w.rec].(status := w.status, version := t.records[w.rec].version + 1)
      && (forall r :: r in t.records && r != w.rec ==> after.records[r] == t.records[r])
      && after.audits == t.audits + [Audit(w.leg, w.verdict)]
  {
  }

  // Σ of what each audit row adds.
  function TrailSum(audits: seq<Audit>, adds: Audit -> int): int {
    if audits == [] then 0 else TrailSum(audits[..|audits| - 1], adds) + adds(audits[|audits| - 1])
  }

  ghost predicate DistinctLegs(audits: seq<Audit>) {
    forall i, j :: 0 <= i < j < |audits| ==> audits[i].leg != audits[j].leg
  }

  ghost predicate Recorded(audits: seq<Audit>, legs: set<nat>) {
    forall id :: id in legs ==> exists i :: 0 <= i < |audits| && audits[i].leg == id
  }

  // A sum over legs that all have an audit row is the sum over those rows.
  lemma {:induction false} TrailIsSum(audits: seq<Audit>, legs: set<nat>, f: nat -> int, adds: Audit -> int)
    requires DistinctLegs(audits) && Recorded(audits, legs)
    requires forall i :: 0 <= i < |audits| ==> adds(audits[i]) == if audits[i].leg in legs then f(audits[i].leg) else 0
    ensures TrailSum(audits, adds) == SumOver(legs, f)
  {
    if audits == [] {
      assert legs == {};
    } else {
      var n := |audits| - 1;
      var last := audits[n].leg;
      forall id | id in legs - {last} ensures exists i :: 0 <= i < n && audits[..n][i].leg == id {
        var i :| 0 <= i < |audits| && audits[i].leg == id;
        assert audits[..n][i].leg == id;
      }
      forall i | 0 <= i < n
        ensures adds(audits[..n][i]) == if audits[..n][i].leg in legs - {last} then f(audits[..n][i].leg) else 0
      {
        assert audits[i].leg != last;
      }
      TrailIsSum(audits[..n], legs - {last}, f, adds);
      if last in legs { SumOverRemove(legs, f, last); } else { assert legs - {last} == legs; }
    }
  }

  // What an audit row pays a record: the worth of the confirmed leg, if it is a leg of the record in the
  // record's currency.
  function Pays(legs: map<nat, Leg>, tenant: nat, rec: nat, currency: string): Audit -> int {
    (a: Audit) =>
      if a.verdict == Confirm && a.leg in legs && legs[a.leg].tenant == tenant && legs[a.leg].rec == rec
         && legs[a.leg].currency == currency
      then legs[a.leg].fiat else 0
  }

  // What an audit row applies to an event.
  function Applies(legs: map<nat, Leg>, tenant: nat, event: nat): Audit -> int {
    (a: Audit) =>
      if a.verdict == Confirm && a.leg in legs && legs[a.leg].tenant == tenant && legs[a.leg].event == event
      then legs[a.leg].applied else 0
  }

  // An audit row's verdict is its leg's status.
  lemma VerdictIsStatus(db: Tables, i: nat)
    requires Audited(db) && i < |db.audits|
    ensures var a := db.audits[i];
      a.leg in db.legs && db.legs[a.leg].status == if a.verdict == Confirm then Confirmed else Rejected
  {
  }

  lemma PaidByTrail(db: Tables, tenant: nat, rec: nat, currency: string)
    requires Audited(db)
    ensures FiatOf(db.legs, tenant, rec, currency) == TrailSum(db.audits, Pays(db.legs, tenant, rec, currency))
  {
    var legs := Paying(db.legs, tenant, rec, currency);
    forall i | 0 <= i < |db.audits|
      ensures Pays(db.legs, tenant, rec, currency)(db.audits[i]) ==
              if db.audits[i].leg in legs then Fiats(db.legs)(db.audits[i].leg) else 0
    {
      VerdictIsStatus(db, i);
    }
    assert Recorded(db.audits, legs) by {
      forall id | id in legs ensures exists i :: 0 <= i < |db.audits| && db.audits[i].leg == id {
        assert Decided(db.legs[id]);
      }
    }
    TrailIsSum(db.audits, legs, Fiats(db.legs), Pays(db.legs, tenant, rec, currency));
  }

  lemma AppliedByTrail(db: Tables, tenant: nat, event: nat)
    requires Audited(db)
    ensures AppliedTo(db.legs, tenant, event) == TrailSum(db.audits, Applies(db.legs, tenant, event))
  {
    var legs := ConfirmedOf(db.legs, tenant, event);
    forall i | 0 <= i < |db.audits|
      ensures Applies(db.legs, tenant, event)(db.audits[i]) ==
              if db.audits[i].leg in legs then Amounts(db.legs)(db.audits[i].leg) else 0
    {
      VerdictIsStatus(db, i);
    }
    assert Recorded(db.audits, legs) by {
      forall id | id in legs ensures exists i :: 0 <= i < |db.audits| && db.audits[i].leg == id {
        assert Decided(db.legs[id]);
      }
    }
    TrailIsSum(db.audits, legs, Amounts(db.legs), Applies(db.legs, tenant, event));
  }

  // Some decision was taken on a leg of the record.
  predicate DecidedOn(db: Tables, r: nat) {
    exists i :: 0 <= i < |db.audits| && db.audits[i].leg in db.legs && db.legs[db.audits[i].leg].rec == r
  }

  // In any reachable state the audit rows alone tell the status of a record that is not void: matched
  // within one percent of what they paid it in its own currency, and so on; open before any decision.
  lemma StatusFromTrail(s: State, steps: seq<Step>, r: nat)
    requires Initial(s) && IsRun(s, steps) && r in After(s, steps).db.records
    ensures var db := After(s, steps).db;
      var rec := db.records[r];
      var paid := TrailSum(db.audits, Pays(db.legs, rec.tenant, r, rec.currency));
      rec.status != Void ==>
        if !DecidedOn(db, r) then rec.status == Open
        else
          && (rec.status == Matched <==> 99 * rec.amount <= 100 * paid <= 101 * rec.amount)
          && (rec.status == Open <==> paid == 0 < rec.amount)
          && (rec.status == PartiallyMatched <==> 0 < 100 * paid < 99 * rec.amount)
          && (rec.status == Overpaid <==> 100 * paid > 101 * rec.amount)
  {
    InitialInv(s);
    RunKeeps(s, steps);
    StatusIsDerived(s, steps, r);
    var db := After(s, steps).db;
    var rec := db.records[r];
    PaidByTrail(db, rec.tenant, r, rec.currency);
    DecisionIsRecorded(db, r);
    DeriveMeans(rec.amount, FiatOf(db.legs, rec.tenant, r, rec.currency));
  }

  lemma DecisionIsRecorded(db: Tables, r: nat)
    requires Audited(db)
    ensures HasDecision(db.legs, r) <==> DecidedOn(db, r)
  {
    if HasDecision(db.legs, r) {
      var id :| id in db.legs && db.legs[id].rec == r && Decided(db.legs[id]);
      var i :| 0 <= i < |db.audits| && db.audits[i].leg == id;
    }
    if DecidedOn(db, r) {
      var i :| 0 <= i < |db.audits| && db.audits[i].leg in db.legs && db.legs[db.audits[i].leg].rec == r;
      assert Decided(db.legs[db.audits[i].leg]);
    }
  }

  // A record whose confirmed legs are all in foreign currencies has been paid nothing: it is open.
  lemma ForeignLegsLeaveOpen(s: State, steps: seq<Step>, r: nat)
    requires Initial(s) && IsRun(s, steps) && r in After(s, steps).db.records
    requires var db := After(s, steps).db;
      && db.records[r].status != Void && db.records[r].amount > 0
      && forall id :: id in db.legs && db.legs[id].rec == r && db.legs[id].status == Confirmed ==>
           db.legs[id].currency != db.records[r].currency
    ensures After(s, steps).db.records[r].status == Open
  {
    StatusIsDerived(s, steps, r);
    var db := After(s, steps).db;
    var rec := db.records[r];
    assert Paying(db.legs, rec.tenant, r, rec.currency) == {};
    DeriveMeans(rec.amount, 0);
  }
}
