// One decision on one match leg (packages/mcp-tools/src/recon/decision-repo.ts), and the status it
// derives for the parent record (packages/recon/src/match/status.ts, score.ts).

module Decisions {
  import opened Text
  import opened Sums

  datatype LegStatus = Suggested | Confirmed | Rejected

  datatype RecordStatus = Open | PartiallyMatched | Matched | Overpaid | Void

  // A row of `matches`: part of an event applied to a record, with what that part is worth.
  datatype Leg = Leg(tenant: nat, rec: nat, event: nat, applied: nat, fiat: nat, currency: string, status: LegStatus)

  // A row of `external_records`. Fiat amounts are integers in the engine's 36-digit minor units;
  // `version` counts the updates of the row.
  datatype Record = Record(tenant: nat, amount: nat, currency: string, status: RecordStatus, version: nat)

  datatype Verdict = Confirm | Reject

  datatype Audit = Audit(leg: nat, verdict: Verdict)

  // The tables as one transaction sees them. `events` holds the raw amounts of chain events.
  datatype Tables = Tables(legs: map<nat, Leg>, records: map<nat, Record>, events: map<nat, nat>, audits: seq<Audit>)

  // ------------------------------------------------------------------ the derived status

  // score.ts:50-60 at the default tolerance of one percent.
  function Band(amount: nat): nat { (amount * 10_000) / 1_000_000 }

  // status.ts:35-47.
  function Derive(amount: nat, applied: nat): RecordStatus {
    var diff := applied - amount;
    var mag := if diff < 0 then -diff else diff;
    if mag <= Band(amount) then Matched
    else if applied == 0 then Open
    else if applied < amount then PartiallyMatched
    else Overpaid
  }

  // The status says where the applied total lies against 99% and 101% of the amount.
  lemma DeriveMeans(amount: nat, applied: nat)
    ensures Derive(amount, applied) != Void
    ensures Derive(amount, applied) == Matched <==> 99 * amount <= 100 * applied <= 101 * amount
    ensures Derive(amount, applied) == Open <==> applied == 0 < amount
    ensures Derive(amount, applied) == PartiallyMatched <==> 0 < 100 * applied < 99 * amount
    ensures Derive(amount, applied) == Overpaid <==> 100 * applied > 101 * amount
  {
    assert Band(amount) == amount / 100;
  }

  // ------------------------------------------------------------------ sums over confirmed legs

  predicate IsConfirmedOf(l: Leg, tenant: nat, event: nat) {
    l.tenant == tenant && l.event == event && l.status == Confirmed
  }

  function ConfirmedOf(legs: map<nat, Leg>, tenant: nat, event: nat): set<nat> {
    set id | id in legs && IsConfirmedOf(legs[id], tenant, event)
  }

  function Amounts(legs: map<nat, Leg>): nat -> int { (id: nat) => if id in legs then legs[id].applied else 0 }

  // Σ amount_applied_raw over the confirmed legs of an event (decision-repo.ts:109-119).
  ghost function AppliedTo(legs: map<nat, Leg>, tenant: nat, event: nat): int {
    SumOver(ConfirmedOf(legs, tenant, event), Amounts(legs))
  }

  predicate PaysRecord(l: Leg, tenant: nat, rec: nat, currency: string) {
    l.tenant == tenant && l.rec == rec && l.status == Confirmed && l.currency == currency
  }

  function Paying(legs: map<nat, Leg>, tenant: nat, rec: nat, currency: string): set<nat> {
    set id | id in legs && PaysRecord(legs[id], tenant, rec, currency)
  }

  function Fiats(legs: map<nat, Leg>): nat -> int { (id: nat) => if id in legs then legs[id].fiat else 0 }

  // Σ fiat_value over a record's confirmed legs in its own currency (decision-repo.ts:159-169).
  ghost function FiatOf(legs: map<nat, Leg>, tenant: nat, rec: nat, currency: string): (f: nat) {
    SumOverNonNegative(Paying(legs, tenant, rec, currency), Fiats(legs));
    SumOver(Paying(legs, tenant, rec, currency), Fiats(legs))
  }

  // ------------------------------------------------------------------ one decision

  datatype DecideError = UnknownMatch | NotSuggested | NoParentRecord | VoidedRecord | MissingEvent | MatchConflict

  // What a decision writes: the leg's new status and the parent record's.
  datatype Write = Write(leg: nat, verdict: Verdict, rec: nat, status: RecordStatus)

  function Stamp(l: Leg, verdict: Verdict): Leg {
    l.(status := if verdict.Confirm? then Confirmed else Rejected)
  }

  function WithStamp(legs: map<nat, Leg>, matchId: nat, verdict: Verdict): map<nat, Leg>
    requires matchId in legs
  {
    legs[matchId := Stamp(legs[matchId], verdict)]
  }

  // decision-repo.ts:56-125: what stands in the way of a decision.
  ghost function Refusal(t: Tables, tenant: nat, matchId: nat, verdict: Verdict): Option<DecideError> {
    if matchId !in t.legs || t.legs[matchId].tenant != tenant then Some(UnknownMatch)
    else
      var leg := t.legs[matchId];
      if leg.status != Suggested then Some(NotSuggested)
      else if leg.rec !in t.records || t.records[leg.rec].tenant != tenant then Some(NoParentRecord)
      else if t.records[leg.rec].status == Void then Some(VoidedRecord)
      else if verdict.Confirm? && leg.event !in t.events then Some(MissingEvent)
      else if verdict.Confirm?
        && AppliedTo(t.legs, tenant, leg.event) + leg.applied > t.events[leg.event] then Some(MatchConflict)
      else None
  }

  // The status a record has once this leg is stamped.
  ghost function Rederived(t: Tables, tenant: nat, matchId: nat, verdict: Verdict): RecordStatus
    requires matchId in t.legs && t.legs[matchId].rec in t.records
  {
    var rec := t.records[t.legs[matchId].rec];
    Derive(rec.amount, FiatOf(WithStamp(t.legs, matchId, verdict), tenant, t.legs[matchId].rec, rec.currency))
  }

  // decision-repo.ts:49-179.
  ghost function Decide(t: Tables, tenant: nat, matchId: nat, verdict: Verdict): Result<Write, DecideError> {
    var refusal := Refusal(t, tenant, matchId, verdict);
    if refusal.Some? then Err(refusal.value)
    else Ok(Write(matchId, verdict, t.legs[matchId].rec, Rederived(t, tenant, matchId, verdict)))
  }

  // The write and its audit row, which commit together (write-tx.ts:70-92).
  function Install(t: Tables, w: Write): Tables
    requires w.leg in t.legs && w.rec in t.records
  {
    t.(legs := WithStamp(t.legs, w.leg, w.verdict),
       records := t.records[w.rec := t.records[w.rec].(status := w.status, version := t.records[w.rec].version + 1)],
       audits := t.audits + [Audit(w.leg, w.verdict)])
  }

  // What a suggestion run for these records deletes.
  function Replaceable(legs: map<nat, Leg>, tenant: nat, recs: set<nat>): set<nat> {
    set id | id in legs && legs[id].tenant == tenant && legs[id].status == Suggested && legs[id].rec in recs
  }

  // The tables through one transaction's handle.
  class TxHandle {
    var legs: map<nat, Leg>
    var records: map<nat, Record>
    const events: map<nat, nat>
    var audits: seq<Audit>

    constructor (t: Tables)
      ensures View() == t
    {
      legs, records, events, audits := t.legs, t.records, t.events, t.audits;
    }

    function View(): Tables
      reads this
    {
      Tables(legs, records, events, audits)
    }

    method SumApplied(ids: set<nat>) returns (total: int)
      requires ids <= legs.Keys
      ensures total == SumOver(ids, Amounts(legs))
    {
      var todo := ids;
      total := 0;
      while todo != {}
        invariant todo <= ids
        invariant SumOver(ids, Amounts(legs)) == total + SumOver(todo, Amounts(legs))
        decreases |todo|
      {
        var id :| id in todo;
        SumOverRemove(todo, Amounts(legs), id);
        total := total + legs[id].applied;
        todo := todo - {id};
      }
    }

    method SumFiat(ids: set<nat>) returns (total: int)
      requires ids <= legs.Keys
      ensures total == SumOver(ids, Fiats(legs))
    {
      var todo := ids;
      total := 0;
      while todo != {}
        invariant todo <= ids
        invariant SumOver(ids, Fiats(legs)) == total + SumOver(todo, Fiats(legs))
        decreases |todo|
      {
        var id :| id in todo;
        SumOverRemove(todo, Fiats(legs), id);
        total := total + legs[id].fiat;
        todo := todo - {id};
      }
    }

    method Check(tenant: nat, matchId: nat, verdict: Verdict) returns (refusal: Option<DecideError>)
      ensures refusal == Refusal(View(), tenant, matchId, verdict)
    {
      if matchId !in legs || legs[matchId].tenant != tenant { return Some(UnknownMatch); }
      var leg := legs[matchId];
      if leg.status != Suggested { return Some(NotSuggested); }
      if leg.rec !in records || records[leg.rec].tenant != tenant { return Some(NoParentRecord); }
      if records[leg.rec].status == Void { return Some(VoidedRecord); }
      if verdict.Confirm? {
        if leg.event !in events { return Some(MissingEvent); }
        var applied := SumApplied(ConfirmedOf(legs, tenant, leg.event));
        if applied + leg.applied > events[leg.event] { return Some(MatchConflict); }
      }
      return None;
    }

    method Rederive(tenant: nat, rec: nat) returns (status: RecordStatus)
      requires rec in records
      modifies this`records
      ensures status == Derive(old(records)[rec].amount, FiatOf(legs, tenant, rec, old(records)[rec].currency))
      ensures records ==
              old(records)[rec := old(records)[rec].(status := status, version := old(records)[rec].version + 1)]
    {
      var row := records[rec];
      var fiat := SumFiat(Paying(legs, tenant, rec, row.currency));
      SumOverNonNegative(Paying(legs, tenant, rec, row.currency), Fiats(legs));
      status := Derive(row.amount, fiat);
      records := records[rec := row.(status := status, version := row.version + 1)];
    }

    // decision-repo.ts:49-179. The compare-and-swap finds the leg suggested: nothing else writes
    // through this handle between the check and the update.
    method DecideMatchInTx(tenant: nat, matchId: nat, verdict: Verdict) returns (r: Result<Write, DecideError>)
      modifies this
      ensures r == Decide(old(View()), tenant, matchId, verdict)
      ensures audits == old(audits)
      ensures r.Err? ==> View() == old(View())
      ensures r.Ok? ==> r.value.leg in old(legs) && r.value.rec in old(records)
                        && legs == Install(old(View()), r.value).legs
                        && records == Install(old(View()), r.value).records
    {
      var refusal := Check(tenant, matchId, verdict);
      if refusal.Some? { return Err(refusal.value); }
      var rec := legs[matchId].rec;
      legs := legs[matchId := Stamp(legs[matchId], verdict)];
      var status := Rederive(tenant, rec);
      return Ok(Write(matchId, verdict, rec, status));
    }

    // write-tx.ts:70-92 around one decision: the audit row is written on the same handle, and an
    // error leaves no trace.
    method RunDecision(tenant: nat, matchId: nat, verdict: Verdict) returns (r: Result<RecordStatus, DecideError>)
      modifies this
      ensures match Decide(old(View()), tenant, matchId, verdict)
        case Err(error) => r == Err(error) && View() == old(View())
        case Ok(w) =>
          && r == Ok(w.status) && w.leg in old(legs) && w.rec in old(records)
          && View() == Install(old(View()), w)
    {
      var decided := DecideMatchInTx(tenant, matchId, verdict);
      if decided.Err? { return Err(decided.error); }
      audits := audits + [Audit(matchId, verdict)];
      return Ok(decided.value.status);
    }

    // match-repo.ts:425-454: un-actioned suggestions of the records in scope make way for pending
    // legs, under ids of their own. A leg goes exactly when it was such a suggestion; every other
    // leg - decided, another tenant's, or of another record - stays as it is, and nothing comes but
    // what is pending.
    method ReplaceSuggestions(tenant: nat, recs: set<nat>, pending: map<nat, Leg>)
      modifies this`legs
      ensures forall id :: id in old(legs) && id !in pending ==>
        (id !in legs
         <==> old(legs)[id].status == Suggested && old(legs)[id].tenant == tenant && old(legs)[id].rec in recs)
      ensures forall id :: id in old(legs) && id !in pending && id in legs ==> legs[id] == old(legs)[id]
      ensures forall id :: id in pending ==> id in legs && legs[id] == pending[id]
      ensures forall id :: id in legs ==> id in old(legs) || id in pending
    {
      legs := legs - Replaceable(legs, tenant, recs);
      legs := legs + pending;
    }
  }

  // ------------------------------------------------------------------ retries

  datatype AttemptError = Retryable | Fatal

  // write-tx.ts:22.
  const MAX_TX_ATTEMPTS: nat := 3

  // write-tx.ts:36-45: `outcome(n)` is what attempt n comes to.
  method WithRetry<T>(outcome: nat -> Result<T, AttemptError>, max: nat)
      returns (r: Result<T, AttemptError>, attempts: nat)
    ensures attempts >= 1 && r == outcome(attempts)
    ensures forall n :: 1 <= n < attempts ==> outcome(n) == Err(Retryable)
    ensures attempts <= (if max > 1 then max else 1)
    ensures r == Err(Retryable) ==> attempts == if max > 1 then max else 1
  {
    attempts := 1;
    while true
      invariant 1 <= attempts <= (if max > 1 then max else 1)
      invariant forall n :: 1 <= n < attempts ==> outcome(n) == Err(Retryable)
      decreases max - attempts
    {
      r := outcome(attempts);
      if r.Ok? || !(attempts < max && r.error == Retryable) { return; }
      attempts := attempts + 1;
    }
  }
}
