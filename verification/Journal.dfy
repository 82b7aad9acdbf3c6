// The journal draft over ledger flows (packages/exporters/src/journal.ts).

module Journal {
  import opened Text
  import opened Rounding

  datatype Account = CryptoAssets | Suspense | NetworkFees | RoundingAccount

  // Debit and credit in cents; lines handed to the balancer from outside need not be whole cents.
  datatype JournalLine = JournalLine(account: Account, description: string, debit: real, credit: real)

  function DebitLine(account: Account, description: string, amount: real): JournalLine {
    JournalLine(account, description, amount, 0.0)
  }

  function CreditLine(account: Account, description: string, amount: real): JournalLine {
    JournalLine(account, description, 0.0, amount)
  }

  // Σ debits − Σ credits, exact.
  function Balance(lines: seq<JournalLine>): real {
    if lines == [] then 0.0
    else Balance(lines[..|lines| - 1]) + lines[|lines| - 1].debit - lines[|lines| - 1].credit
  }

  lemma {:induction false} BalancePush(lines: seq<JournalLine>, l: JournalLine)
    ensures Balance(lines + [l]) == Balance(lines) + l.debit - l.credit
  {
    assert (lines + [l])[..|lines|] == lines;
  }

  // The correction line for a residue, none for zero.
  function Correction(residue: int): seq<JournalLine> {
    if residue == 0 then []
    else if residue < 0 then [DebitLine(RoundingAccount, "Rounding residue (DRAFT)", (-residue) as real)]
    else [CreditLine(RoundingAccount, "Rounding residue (DRAFT)", residue as real)]
  }

  // journal.ts:47-67. The final residue is promised to be zero always. It is zero exactly when the
  // lines do not diverge by an odd number of half cents: such a divergence rounds away from zero
  // twice. Lines in whole cents never do.
  method BalanceJournal(lines: seq<JournalLine>) returns (out: seq<JournalLine>, residue: int)
    ensures out == lines + Correction(RoundHalfUp(Balance(lines)))
    ensures residue == RoundHalfUp(Balance(out))
    ensures residue == 0 <==> Distance(RoundHalfUp(Balance(lines)) as real, Balance(lines)) < 0.5
    ensures residue == 0 || residue == 1 || residue == -1
  {
    var first := RoundHalfUp(Balance(lines));
    out := lines;
    if first != 0 {
      var magnitude := (if first < 0 then -first else first) as real;
      var fix := if first < 0 then DebitLine(RoundingAccount, "Rounding residue (DRAFT)", magnitude)
                 else CreditLine(RoundingAccount, "Rounding residue (DRAFT)", magnitude);
      BalancePush(lines, fix);
      out := out + [fix];
    }
    residue := RoundHalfUp(Balance(out));
    assert Balance(out) == Balance(lines) - first as real;
    RoundHalfUpNearest(Balance(lines));
  }

  // Half a cent of debit: corrected by a whole cent, and off by one afterwards.
  lemma HalfCentDiverges()
    ensures var lines := [DebitLine(CryptoAssets, "", 0.5)];
      RoundHalfUp(Balance(lines + Correction(RoundHalfUp(Balance(lines))))) == -1
  {
    var half := DebitLine(CryptoAssets, "", 0.5);
    BalancePush([], half);
    assert [] + [half] == [half];
    assert Balance([half]) == 0.5;
    var fix := CreditLine(RoundingAccount, "Rounding residue (DRAFT)", 1.0);
    assert Correction(1) == [fix];
    BalancePush([half], fix);
  }

  // ------------------------------------------------------------------ the draft

  datatype Movement = Movement(tokenSymbol: string, netFiat: real)

  function Describe(m: Movement): string { "Net " + m.tokenSymbol + " movement (DRAFT)" }

  // The two lines of a movement, none when it rounds to nothing.
  function MovementLines(m: Movement): seq<JournalLine> {
    var net := RoundHalfUp(m.netFiat);
    if net == 0 then []
    else if net < 0 then
      [CreditLine(CryptoAssets, Describe(m), (-net) as real), DebitLine(Suspense, Describe(m), (-net) as real)]
    else
      [DebitLine(CryptoAssets, Describe(m), net as real), CreditLine(Suspense, Describe(m), net as real)]
  }

  function AllMovementLines(ms: seq<Movement>): seq<JournalLine> {
    if ms == [] then [] else AllMovementLines(ms[..|ms| - 1]) + MovementLines(ms[|ms| - 1])
  }

  function GasLines(gas: int): seq<JournalLine> {
    if gas == 0 then []
    else [DebitLine(NetworkFees, "Gas fees (DRAFT)", gas as real),
          CreditLine(CryptoAssets, "Gas fees (DRAFT)", gas as real)]
  }

  lemma BalanceOfPair(lines: seq<JournalLine>, a: JournalLine, b: JournalLine)
    ensures Balance(lines + [a, b]) == Balance(lines) + a.debit - a.credit + b.debit - b.credit
  {
    assert lines + [a, b] == (lines + [a]) + [b];
    BalancePush(lines, a);
    BalancePush(lines + [a], b);
  }

  lemma {:induction false} MovementsBalance(ms: seq<Movement>)
    ensures Balance(AllMovementLines(ms)) == 0.0
  {
    if ms != [] {
      var n := |ms| - 1;
      MovementsBalance(ms[..n]);
      var lines := MovementLines(ms[n]);
      if lines == [] {
        assert AllMovementLines(ms) == AllMovementLines(ms[..n]);
      } else {
        BalanceOfPair(AllMovementLines(ms[..n]), lines[0], lines[1]);
      }
    }
  }

  // journal.ts:76-112. The error is a gas figure that rounds to something negative. Otherwise every
  // movement is booked twice, once a side, so the draft balances and gets no rounding line.
  method BuildJournalDraft(movements: seq<Movement>, gasFiat: Option<real>) returns (r: Option<(seq<JournalLine>, int)>)
    ensures r.None? <==> gasFiat.Some? && RoundHalfUp(gasFiat.value) < 0
    ensures r.Some? ==> r.value.1 == 0 && Balance(r.value.0) == 0.0
    ensures r.Some? ==>
      r.value.0 == AllMovementLines(movements) + if gasFiat.Some? then GasLines(RoundHalfUp(gasFiat.value)) else []
  {
    var lines: seq<JournalLine> := [];
    for i := 0 to |movements|
      invariant lines == AllMovementLines(movements[..i])
    {
      var m := movements[i];
      assert movements[..i + 1][..i] == movements[..i];
      var net := RoundHalfUp(m.netFiat);
      if net != 0 {
        var magnitude := (if net < 0 then -net else net) as real;
        if net < 0 {
          lines := lines
            + [CreditLine(CryptoAssets, Describe(m), magnitude), DebitLine(Suspense, Describe(m), magnitude)];
        } else {
          lines := lines
            + [DebitLine(CryptoAssets, Describe(m), magnitude), CreditLine(Suspense, Describe(m), magnitude)];
        }
      }
    }
    assert movements[..|movements|] == movements;
    MovementsBalance(movements);
    if gasFiat.Some? {
      var gas := RoundHalfUp(gasFiat.value);
      if gas != 0 {
        if gas < 0 { return None; }
        BalanceOfPair(lines, GasLines(gas)[0], GasLines(gas)[1]);
        lines := lines + [DebitLine(NetworkFees, "Gas fees (DRAFT)", gas as real),
                          CreditLine(CryptoAssets, "Gas fees (DRAFT)", gas as real)];
      }
    }
    assert RoundHalfUp(Balance(lines)) == 0;
    var out, residue := BalanceJournal(lines);
    assert out == lines;
    return Some((out, residue));
  }

  // What lines post to an account.
  function Posted(lines: seq<JournalLine>, a: Account): real {
    if lines == [] then 0.0
    else
      Posted(lines[..|lines| - 1], a)
      + (if lines[|lines| - 1].account == a then lines[|lines| - 1].debit - lines[|lines| - 1].credit else 0.0)
  }

  lemma PostedPair(lines: seq<JournalLine>, x: JournalLine, y: JournalLine, a: Account)
    ensures Posted(lines + [x, y], a) == Posted(lines, a)
      + (if x.account == a then x.debit - x.credit else 0.0) + (if y.account == a then y.debit - y.credit else 0.0)
  {
    var one, both := lines + [x], lines + [x, y];
    assert both[..|both| - 1] == one && one[..|one| - 1] == lines;
  }

  function RoundedTotal(ms: seq<Movement>): int {
    if ms == [] then 0 else RoundedTotal(ms[..|ms| - 1]) + RoundHalfUp(ms[|ms| - 1].netFiat)
  }

  // The asset account moves by the rounded net flows, up for inflows, and the suspense account by as
  // much the other way.
  lemma {:induction false} MovementPostings(ms: seq<Movement>)
    ensures Posted(AllMovementLines(ms), CryptoAssets) == RoundedTotal(ms) as real
    ensures Posted(AllMovementLines(ms), Suspense) == -(RoundedTotal(ms) as real)
  {
    if ms != [] {
      var n := |ms| - 1;
      MovementPostings(ms[..n]);
      var before, lines := AllMovementLines(ms[..n]), MovementLines(ms[n]);
      if lines == [] {
        assert before + lines == before;
      } else {
        PostedPair(before, lines[0], lines[1], CryptoAssets);
        PostedPair(before, lines[0], lines[1], Suspense);
        assert lines == [lines[0], lines[1]];
      }
    }
  }

  // Gas moves from the asset account to the fee account.
  lemma GasPostings(lines: seq<JournalLine>, gas: int)
    ensures Posted(lines + GasLines(gas), CryptoAssets) == Posted(lines, CryptoAssets) - gas as real
    ensures Posted(lines + GasLines(gas), NetworkFees) == Posted(lines, NetworkFees) + gas as real
  {
    if gas == 0 {
      assert lines + GasLines(gas) == lines;
    } else {
      PostedPair(lines, GasLines(gas)[0], GasLines(gas)[1], CryptoAssets);
      PostedPair(lines, GasLines(gas)[0], GasLines(gas)[1], NetworkFees);
    }
  }
}
