/** Every step of the two chains keeps the invariants of `World`. */
module WorldInvariant {
  import opened Prelude
  import opened Bridge
  import opened ECash
  import opened M6
  import opened Bundle
  import opened Ledger
  import opened World

  // ------------------------------------------------------- sums over prefixes

  lemma {:induction false} PaidIdsStep(chain: seq<Block>, start: seq<Block>, last: Block)
    requires chain == start + [last]
    ensures PaidIds(chain) == PaidIds(start) + PaidIn(last.bundles)
  {
    hide PaidIn;
    assert chain[..|chain| - 1] == start;
  }

  lemma {:induction false} PaidIdsSplit(a: seq<Block>, b: seq<Block>)
    ensures PaidIds(a + b) == PaidIds(a) + PaidIds(b)
  {
    if b == [] {
      assert a + b == a;
    } else {
      hide PaidIds;
      var n := |b| - 1;
      PaidIdsSplit(a, b[..n]);
      PaidIdsStep(b, b[..n], b[n]);
      PaidIdsStep(a + b, a + b[..n], b[n]);
    }
  }

  lemma {:induction false} DepositSatsSplit(a: seq<Block>, b: seq<Block>)
    ensures DepositSats(a + b) == DepositSats(a) + DepositSats(b)
  {
    if b == [] {
      assert a + b == a;
    } else {
      DepositSatsSplit(a, b[..|b| - 1]);
      assert (a + b)[..|a + b| - 1] == a + b[..|b| - 1];
    }
  }

  lemma {:induction false} PaidIdsPrefix(chain: seq<Block>, i: nat, j: nat)
    requires i <= j <= |chain|
    ensures PaidIds(chain[..i]) <= PaidIds(chain[..j])
  {
    assert chain[..j] == chain[..i] + chain[i..j];
    PaidIdsSplit(chain[..i], chain[i..j]);
  }

  lemma {:induction false} DepositSatsStep(chain: seq<Block>, h: nat)
    requires h < |chain|
    ensures DepositSats(chain[..h + 1]) == DepositSats(chain[..h]) + SumDeposits(chain[h].deposits)
  {
    assert chain[..h + 1][..h] == chain[..h];
  }

  lemma {:induction false} DepositSatsMonotone(chain: seq<Block>, i: nat, j: nat)
    requires i <= j <= |chain|
    ensures DepositSats(chain[..i]) <= DepositSats(chain[..j])
  {
    assert chain[..j] == chain[..i] + chain[i..j];
    DepositSatsSplit(chain[..i], chain[i..j]);
  }

  lemma {:induction false} PaidInHolds(bundles: seq<BundleEvent>, id: Txid)
    ensures Succeeded(id) in bundles <==> id in PaidIn(bundles)
  {
    if bundles != [] {
      var n := |bundles| - 1;
      PaidInHolds(bundles[..n], id);
      assert bundles == bundles[..n] + [bundles[n]];
    }
  }

  lemma {:induction false} PaidIdsHold(chain: seq<Block>, h: nat, id: Txid)
    requires h < |chain| && Succeeded(id) in chain[h].bundles
    ensures id in PaidIds(chain[..h + 1])
  {
    PaidInHolds(chain[h].bundles, id);
    assert chain[..h + 1][..h] == chain[..h];
  }

  /** The cursor never passes more than the chain holds. */
  lemma {:induction false} CreditedAtMostDeposits(chain: seq<Block>, height: nat, index: nat)
    requires height < |chain|
    requires index > 0 ==> height + 1 < |chain| && index <= |chain[height + 1].deposits|
    ensures CreditedSats(chain, height, index) <= DepositSats(chain)
  {
    assert chain[..|chain|] == chain;
    if index > 0 {
      var deposits := chain[height + 1].deposits;
      assert deposits == deposits[..index] + deposits[index..];
      SumDepositsSplit(deposits[..index], deposits[index..]);
      DepositSatsStep(chain, height + 1);
      DepositSatsMonotone(chain, height + 2, |chain|);
    } else {
      DepositSatsMonotone(chain, height + 1, |chain|);
    }
  }

  // ------------------------------------------------------- what eCash paid

  lemma {:induction false} PaidSatsSplit(a: seq<Txid>, b: seq<Txid>)
    ensures PaidSats(a + b) == PaidSats(a) + PaidSats(b)
  {
    if b == [] {
      assert a + b == a;
    } else {
      PaidSatsSplit(a, b[..|b| - 1]);
      assert (a + b)[..|a + b| - 1] == a + b[..|b| - 1];
    }
  }

  /** The payout of a bundle is what its records burned. */
  lemma {:induction false} SealedValue(history: seq<Record>, b: Sealed)
    requires ValidRun(history, 0) && Genuine(history, b)
    ensures 10 * PaidSats([b.id]) == SumBurned(history[b.start..b.end])
  {
    var records := history[b.start..b.end];
    BundleValue(records, b.start);
    assert [b.id][..0] == [];
    assert PaidSats([b.id]) == PaidSats([]) + Value(BundleTx(records));
  }

  lemma {:induction false} BurnedStep(history: seq<Record>, i: nat, j: nat)
    requires i <= j <= |history|
    ensures SumBurned(history[..j]) == SumBurned(history[..i]) + SumBurned(history[i..j])
  {
    assert history[..j] == history[..i] + history[i..j];
    SumBurnedSplit(history[..i], history[i..j]);
  }

  lemma {:induction false} SealedStep(history: seq<Record>, sealed: seq<Sealed>, n: nat)
    requires ValidRun(history, 0) && 0 < n <= |sealed| && Genuine(history, sealed[n - 1])
    ensures var b := sealed[n - 1];
            && 10 * PaidSats(Ids(sealed)[..n]) == 10 * PaidSats(Ids(sealed)[..n - 1]) + 10 * PaidSats([b.id])
            && 10 * PaidSats([b.id]) == SumBurned(history[..b.end]) - SumBurned(history[..b.start])
  {
    hide DaemonBundle; hide ValidRun; hide SumBurned; hide PaidSats;
    var b := sealed[n - 1];
    assert b.start < b.end <= |history|;
    SealedValue(history, b);
    hide Genuine;
    BurnedStep(history, b.start, b.end);
    assert Ids(sealed)[..n] == Ids(sealed)[..n - 1] + [b.id];
    PaidSatsSplit(Ids(sealed)[..n - 1], [b.id]);
  }

  /** Together, the first `n` bundles pay out what the records below their end burned. */
  lemma {:induction false} SealedSum(history: seq<Record>, sealed: seq<Sealed>, n: nat)
    requires ValidRun(history, 0) && n <= |sealed| && Consecutive(sealed) && AllGenuine(history, sealed)
    ensures EndOf(sealed, n) <= |history|
    ensures 10 * PaidSats(Ids(sealed)[..n]) == SumBurned(history[..EndOf(sealed, n)])
  {
    if n > 0 {
      SealedSum(history, sealed, n - 1);
      assert StartsAtEnd(sealed, n - 1) && Genuine(history, sealed[n - 1]);
      SealedStep(history, sealed, n);
      hide Genuine; hide ValidRun; hide AllGenuine; hide Consecutive; hide PaidSats; hide SumBurned;
    }
  }

  lemma {:induction false} NoRepeat(ids: seq<Txid>, i: nat, j: nat)
    requires NoDuplicates(ids) && i < j < |ids|
    ensures ids[i] != ids[j]
  {
  }

  lemma {:induction false} AtMostOneMore(all: seq<Txid>, paid: seq<Txid>, ids: seq<Txid>, m: nat)
    requires PaymentRules(all, ids) && m <= |ids| <= m + 1 && ids[..m] <= paid <= all
    ensures paid == ids[..m] || (m < |ids| && paid == ids)
  {
    assert forall i :: 0 <= i < |paid| ==> paid[i] == all[i];
    forall i | m <= i < |paid| ensures m < |ids| && paid[i] == ids[m] {
      assert all[i] in ids;
      var k :| 0 <= k < |ids| && ids[k] == all[i];
      if k < m { assert false; }
    }
    if |paid| == m {
      assert paid == paid[..m];
    } else {
      var next := paid[m];
      assert next == ids[m] && m + 1 == |ids|;
      if m + 1 < |paid| {
        NoRepeat(all, m, m + 1);
      }
      assert paid == paid[..m] + [next] && ids == ids[..m] + [next];
    }
  }

  /** At each height from the floor up, the chain paid the marked bundles in
      the order of their seals, and then at most the live one. */
  lemma {:induction false} PaidShape(w: World, p: nat)
    requires PayInv(w) && w.floor < p <= |w.chain|
    ensures var paid := PaidIds(w.chain[..p]);
            paid == Ids(w.sealed)[..PaidCount(w)] || (IsLive(w.bridge.config) && paid == Ids(w.sealed))
  {
    hide PaidIds;
    PaidIdsPrefix(w.chain, w.floor + 1, p);
    PaidIdsPrefix(w.chain, p, |w.chain|);
    assert w.chain[..|w.chain|] == w.chain;
    AtMostOneMore(PaidIds(w.chain), PaidIds(w.chain[..p]), Ids(w.sealed), PaidCount(w));
  }

  // ----------------------------------------------- what a step leaves alone

  /** The fields of the config that only the bundle instructions change. */
  ghost predicate SameBundles(a: Config, b: Config) {
    && a.paidThrough == b.paidThrough && a.bundledThrough == b.bundledThrough
    && a.bundleM6id == b.bundleM6id && a.bundleSealedHeight == b.bundleSealedHeight
  }

  ghost predicate SameCursor(a: Config, b: Config) {
    && a.creditedHeight == b.creditedHeight && a.creditIndex == b.creditIndex
    && a.creditPartBlock == b.creditPartBlock && a.strandedLamports == b.strandedLamports
  }

  lemma {:induction false} RecordFrame(w: World, next: World)
    requires RecordInv(w)
    requires SameBundles(w.bridge.config, next.bridge.config)
    requires next.bridge.config.withdrawalCount == w.bridge.config.withdrawalCount
    requires next.history == w.history && next.burned == w.burned && next.bridge.records == w.bridge.records
    ensures RecordInv(next)
  {
    hide ValidRun; hide SumBurned;
  }

  lemma {:induction false} SealFrame(w: World, next: World)
    requires SealInv(w)
    requires SameBundles(w.bridge.config, next.bridge.config)
    requires next.history == w.history && next.sealed == w.sealed
    ensures SealInv(next)
  {
    hide Consecutive; hide AllGenuine;
  }

  lemma {:induction false} PayFrame(w: World, next: World)
    requires PayInv(w)
    requires SameBundles(w.bridge.config, next.bridge.config)
    requires next.chain == w.chain && next.sealed == w.sealed && w.floor <= next.floor < |w.chain|
    ensures PayInv(next)
  {
    hide PaidIds; hide PaymentRules;
    PaidIdsPrefix(w.chain, w.floor + 1, next.floor + 1);
  }

  lemma {:induction false} BankFrame(w: World, next: World)
    requires BankInv(w)
    requires next.bridge.accounts == w.bridge.accounts && next.bridge.rent == w.bridge.rent
    requires next.bridge.config.peggedLamports == w.bridge.config.peggedLamports
    requires next.bridge.config.vaultSupply == w.bridge.config.vaultSupply
    requires next.bridge.config.floatLamports == w.bridge.config.floatLamports
    requires next.history == w.history && next.credited == w.credited && next.burned == w.burned && next.gifts == w.gifts
    ensures BankInv(next)
  {
  }

  lemma {:induction false} CursorFrame(w: World, next: World)
    requires CursorInv(w)
    requires SameCursor(w.bridge.config, next.bridge.config)
    requires next.chain == w.chain && next.credited == w.credited && w.floor <= next.floor < |w.chain|
    ensures CursorInv(next)
  {
  }

  // ------------------------------------------------------- each step keeps it

  ghost predicate CreditLands(w: World, step: Step, s: State)
    requires step.Credit?
  {
    var answer := DepositAnswerOf(w.chain, step.height, step.blockHash, step.first, step.count);
    CreditDeposits(w.bridge, step.height, step.blockHash, step.first, step.count, answer, step.metas) == Ok(s)
  }

  lemma {:induction false} CreditKeeps(w: World, step: Step, s: State)
    requires Inv(w) && step.Credit? && CreditLands(w, step, s)
    ensures Inv(Next(w, step))
  {
    var next := Next(w, step);
    CreditMoves(w, step, s);
    CreditMovesCursor(w, step, s);
    RecordFrame(w, next);
    SealFrame(w, next);
    PayFrame(w, next);
  }

  lemma {:induction false} CreditMoves(w: World, step: Step, s: State)
    requires BankInv(w) && step.Credit? && CreditLands(w, step, s)
    ensures var next := Next(w, step);
            && next == w.(bridge := s, floor := Max(w.floor, step.height), credited := next.credited)
            && BankInv(next)
            && step.height < |w.chain|
            && SameBundles(w.bridge.config, s.config) && s.records == w.bridge.records
            && s.config.withdrawalCount == w.bridge.config.withdrawalCount
  {
    var answer := DepositAnswerOf(w.chain, step.height, step.blockHash, step.first, step.count);
    CreditEffect(w.bridge, step.height, step.blockHash, step.first, step.count, answer, step.metas);
  }

  /** The part that an accepted credit names: the next one of the next block. */
  lemma {:induction false} CreditNames(w: World, step: Step, s: State)
    requires step.Credit? && CreditLands(w, step, s)
    ensures var c, end := w.bridge.config, step.first + step.count;
            && step.height == c.creditedHeight + 1 < |w.chain| && step.first == c.creditIndex
            && step.blockHash == w.chain[step.height].hash
            && end <= |w.chain[step.height].deposits| <= U32_MAX
            && DepositAnswerOf(w.chain, step.height, step.blockHash, step.first, step.count).value
               == DepositAnswer(step.height, step.blockHash, w.chain[step.height].prev, |w.chain[step.height].deposits|,
                                step.first, w.chain[step.height].deposits[step.first..end])
  {
    hide ApplyDeposits; hide FinishCredit;
  }

  lemma {:induction false} CreditMovesCursor(w: World, step: Step, s: State)
    requires BankInv(w) && CursorInv(w) && step.Credit? && CreditLands(w, step, s)
    ensures CursorInv(Next(w, step))
  {
    CreditNames(w, step, s);
    CreditCounts(w, step, s);
    hide CreditLands;
    CursorMoves(w, step, Next(w, step));
  }

  /** Where an accepted credit leaves the cursor, and what it counted. */
  ghost predicate CursorMoved(w: World, step: Step, next: World)
    requires step.Credit?
  {
    var c, d, end := w.bridge.config, next.bridge.config, step.first + step.count;
    && step.height == c.creditedHeight + 1 < |w.chain| && step.first == c.creditIndex
    && step.blockHash == w.chain[step.height].hash
    && end <= |w.chain[step.height].deposits|
    && next == w.(bridge := next.bridge, floor := Max(w.floor, step.height), credited := next.credited)
    && next.credited + d.strandedLamports
       == w.credited + c.strandedLamports + 10 * SumDeposits(w.chain[step.height].deposits[step.first..end])
    && (if end == |w.chain[step.height].deposits| then
          d.creditedHeight == step.height && d.creditIndex == 0
        else
          d.creditedHeight == c.creditedHeight && d.creditIndex == end && d.creditPartBlock == step.blockHash)
  }

  lemma {:induction false} CreditCounts(w: World, step: Step, s: State)
    requires BankInv(w) && step.Credit? && CreditLands(w, step, s)
    ensures CursorMoved(w, step, Next(w, step))
  {
    hide SumDeposits; hide TotalLamports;
    var answer := DepositAnswerOf(w.chain, step.height, step.blockHash, step.first, step.count);
    CreditEffect(w.bridge, step.height, step.blockHash, step.first, step.count, answer, step.metas);
    CreditNames(w, step, s);
    hide DepositAnswerOf; hide CreditDeposits;
  }

  lemma {:induction false} CursorMoves(w: World, step: Step, next: World)
    requires CursorInv(w) && step.Credit? && CursorMoved(w, step, next)
    ensures CursorInv(next)
  {
    hide CreditedSats; hide SumDeposits; hide TotalLamports;
    var c := w.bridge.config;
    CreditedSatsGrow(w.chain, c.creditedHeight, c.creditIndex, step.first + step.count);
  }

  /** A part that ends at `end` adds its deposits to what the cursor passed. */
  lemma {:induction false} CreditedSatsGrow(chain: seq<Block>, height: nat, index: nat, end: nat)
    requires height + 1 < |chain| && index <= end <= |chain[height + 1].deposits|
    ensures var part := SumDeposits(chain[height + 1].deposits[index..end]);
            && CreditedSats(chain, height, end) == CreditedSats(chain, height, index) + part
            && (end == |chain[height + 1].deposits| ==>
                  CreditedSats(chain, height + 1, 0) == CreditedSats(chain, height, index) + part)
  {
    var deposits := chain[height + 1].deposits;
    assert deposits[..end] == deposits[..index] + deposits[index..end];
    SumDepositsSplit(deposits[..index], deposits[index..end]);
    DepositSatsStep(chain, height + 1);
    assert deposits[..|deposits|] == deposits;
    assert deposits[..0] == [];
  }

  lemma {:induction false} BurnKeeps(w: World, step: Step, s: State)
    requires Inv(w) && step.Burn?
    requires Withdraw(w.bridge, step.user, step.lamports, step.feeSats, step.script) == Ok(s)
    ensures Inv(Next(w, step))
  {
    hide Withdraw; hide TotalLamports;
    WithdrawEffect(w.bridge, step.user, step.lamports, step.feeSats, step.script);
    WithdrawWrites(w.bridge, step.user, step.lamports, step.feeSats, step.script);
    hide BankInv; hide SealInv; hide PayInv; hide ValidChain; hide Next; hide ValidRun;
    assert |w.history| == w.bridge.config.withdrawalCount;
    assert w.floor < |w.chain|;
    hide CursorInv; hide RecordInv;
    BurnLands(w, step, s, s.records[w.bridge.config.withdrawalCount]);
  }

  lemma {:induction false} BurnLands(w: World, step: Step, s: State, record: Record)
    requires Inv(w) && step.Burn? && w.floor < |w.chain|
    requires Withdraw(w.bridge, step.user, step.lamports, step.feeSats, step.script) == Ok(s)
    requires record.index == |w.history| == w.bridge.config.withdrawalCount
    requires record.burnedLamports == step.lamports && ValidRecord(record)
    requires s.records == w.bridge.records[record.index := record]
    requires s.config.withdrawalCount == record.index + 1
    requires s.config == w.bridge.config.(peggedLamports := s.config.peggedLamports,
                                          withdrawalCount := s.config.withdrawalCount)
    requires BankMoves(w.bridge, s, step.lamports)
    ensures Inv(Next(w, step))
  {
    hide BankInv; hide CursorInv; hide RecordInv; hide SealInv; hide PayInv; hide ValidChain;
    var next := w.(bridge := s, history := w.history + [record], burned := w.burned + step.lamports);
    assert Next(w, step) == next;
    hide Withdraw;
    BurnKeepsBank(w, next, step.lamports);
    RecordsGrow(w, next, record);
    BundlesStay(w, next, record);
    CursorFrame(w, next);
    PayFrame(w, next);
  }

  /** A withdrawal moves `lamports` into the vault and out of the pegged
      counter, and only while gifts back the float. */
  ghost predicate BankMoves(s: State, after: State, lamports: nat) {
    && after.Lamports(VAULT) == s.Lamports(VAULT) + lamports
    && after.config.peggedLamports == s.config.peggedLamports - lamports
    && TotalLamports(after) == TotalLamports(s)
    && s.Lamports(VAULT) + s.config.peggedLamports >= s.config.vaultSupply + s.config.floatLamports
  }

  lemma {:induction false} BurnKeepsBank(w: World, next: World, lamports: nat)
    requires BankInv(w) && BankMoves(w.bridge, next.bridge, lamports)
    requires next.bridge.config == w.bridge.config.(peggedLamports := next.bridge.config.peggedLamports,
                                                    withdrawalCount := next.bridge.config.withdrawalCount)
    requires next.gifts == w.gifts && next.credited == w.credited && next.burned == w.burned + lamports
    ensures BankInv(next)
  {
  }

  lemma {:induction false} RecordsGrow(w: World, next: World, record: Record)
    requires RecordInv(w) && ValidRecord(record) && record.index == |w.history| == w.bridge.config.withdrawalCount
    requires SameBundles(w.bridge.config, next.bridge.config)
    requires next.bridge.config.withdrawalCount == |w.history| + 1
    requires next.bridge.records == w.bridge.records[record.index := record]
    requires next.history == w.history + [record] && next.burned == w.burned + record.burnedLamports
    ensures RecordInv(next)
  {
    hide ValidRecord;
    assert [record][..0] == [];
    assert SumBurned([record]) == record.burnedLamports;
    hide SumBurned;
    SumBurnedSplit(w.history, [record]);
    assert ValidRun(next.history, 0);
  }

  lemma {:induction false} BundlesStay(w: World, next: World, record: Record)
    requires SealInv(w)
    requires SameBundles(w.bridge.config, next.bridge.config)
    requires next.history == w.history + [record] && next.sealed == w.sealed
    ensures SealInv(next)
  {
    forall k | 0 <= k < |w.sealed| ensures Genuine(next.history, w.sealed[k]) {
      GenuineFrame(w.history, record, w.sealed[k]);
    }
  }

  lemma {:induction false} GenuineFrame(history: seq<Record>, record: Record, b: Sealed)
    requires Genuine(history, b)
    ensures Genuine(history + [record], b)
  {
    assert (history + [record])[b.start..b.end] == history[b.start..b.end];
  }

  lemma {:induction false} WithdrawWrites(s: State, user: Pubkey, lamports: u64, feeSats: u64, script: seq<u8>)
    requires Withdraw(s, user, lamports, feeSats, script).Ok?
    ensures var after := Withdraw(s, user, lamports, feeSats, script).value;
            var index := s.config.withdrawalCount;
            && index in after.records
            && after.records == s.records[index := after.records[index]]
            && after.records[index].index == index
            && after.records[index].burnedLamports == lamports
            && ValidRecord(after.records[index])
            && after.config == s.config.(peggedLamports := after.config.peggedLamports, withdrawalCount := index + 1)
            && s.Lamports(VAULT) + s.config.peggedLamports >= s.config.vaultSupply + s.config.floatLamports
  {
    var index := s.config.withdrawalCount;
    var record := Record(index, user, lamports, lamports / LAMPORTS_PER_SAT - feeSats, feeSats, script);
    var written := s.(config := s.config.(peggedLamports := s.config.peggedLamports - lamports,
                                          withdrawalCount := index + 1),
                      records := s.records[index := record]);
    assert Withdraw(s, user, lamports, feeSats, script) == Transfer(written, user, VAULT, lamports);
    TransferMoves(written, user, VAULT, lamports);
  }

  /** While no bundle is live, the treasury holds every deposit but what the
      bundles paid out. */
  lemma {:induction false} TreasuryWithoutLive(w: World)
    requires RecordInv(w) && SealInv(w) && PayInv(w) && !IsLive(w.bridge.config)
    ensures 10 * TreasurySats(w.chain)
         == 10 * DepositSats(w.chain) - SumBurned(w.history[..w.bridge.config.paidThrough])
  {
    hide TotalLamports; hide ValidRun; hide PaidIds; hide DepositSats; hide SumBurned; hide PaidSats;
    var n := |w.sealed|;
    assert w.bridge.config.paidThrough == EndOf(w.sealed, n);
    PaidShape(w, |w.chain|);
    assert PaidCount(w) == n;
    EverySealPaid(w.history, w.sealed, PaidIds(w.chain[..|w.chain|]));
    assert w.chain[..|w.chain|] == w.chain;
  }

  lemma {:induction false} EverySealPaid(history: seq<Record>, sealed: seq<Sealed>, paid: seq<Txid>)
    requires ValidRun(history, 0) && Consecutive(sealed) && AllGenuine(history, sealed)
    requires paid == Ids(sealed) || paid == Ids(sealed)[..|sealed|]
    ensures EndOf(sealed, |sealed|) <= |history|
    ensures 10 * PaidSats(paid)
         == SumBurned(history[..EndOf(sealed, |sealed|)])
  {
    assert Ids(sealed)[..|sealed|] == Ids(sealed);
    SealedSum(history, sealed, |sealed|);
  }

  /** The records that no bundle holds yet burned no more than the treasury
      still has. */
  lemma {:induction false} OpenRecordsAreBacked(w: World, end: nat)
    requires Inv(w) && !IsLive(w.bridge.config)
    requires w.bridge.config.paidThrough <= end <= |w.history|
    ensures SumBurned(w.history[w.bridge.config.paidThrough..end]) <= 10 * TreasurySats(w.chain) <= 10 * MAX_SATS
  {
    hide TreasurySats; hide DepositSats; hide PayInv; hide SealInv; hide ValidRun; hide CreditedSats; hide PaidIds; hide SumBurned;
    hide TotalLamports;
    var c := w.bridge.config;
    TreasuryWithoutLive(w);
    CreditedAtMostDeposits(w.chain, c.creditedHeight, c.creditIndex);
    assert w.history[..|w.history|] == w.history;
    BurnedStep(w.history, c.paidThrough, end);
    BurnedStep(w.history, end, |w.history|);
  }

  ghost predicate SealLands(w: World, step: Step, b: Sealed, s: State)
    requires step.Seal?
  {
    var c := w.bridge.config;
    && c.paidThrough == c.bundledThrough == b.start < b.end == step.through <= c.withdrawalCount
    && b.end <= b.start + MAX_BUNDLE_RECORDS
    && DaemonBundle(w.history, b.start, b.end).Some?
    && b.start <= |w.history| && FirstIndex(w.history[b.start..b.end]) <= U32_MAX
    && b.id == TxidOf(DaemonBundle(w.history, b.start, b.end).value)
    && s == w.bridge.(config := c.(bundledThrough := b.end, bundleM6id := b.id, bundleSealedHeight := c.creditedHeight))
    && Next(w, step) == w.(bridge := s, sealed := w.sealed + [b])
  }

  lemma {:induction false} SealStep(w: World, step: Step)
    requires step.Seal? && Next(w, step) != w
    ensures exists b, s :: SealLands(w, step, b, s)
  {
    var c := w.bridge.config;
    var tx := DaemonBundle(w.history, c.paidThrough, step.through).value;
    var s := SealBundle(w.bridge, c.oracle, step.through, TxidOf(tx)).value;
    assert SealLands(w, step, Sealed(c.paidThrough, step.through, TxidOf(tx)), s);
  }

  lemma {:induction false} SealKeeps(w: World, step: Step, b: Sealed, s: State)
    requires Inv(w) && step.Seal? && SealLands(w, step, b, s)
    ensures Inv(Next(w, step))
  {
    var next := Next(w, step);
    assert |w.history| == w.bridge.config.withdrawalCount;
    OpenRecordsAreBacked(w, b.end);
    SealAddsBundle(w, next, b);
    hide Next; hide DaemonBundle; hide Genuine; hide SumBurned; hide ValidRun;
    SealKeepsRest(w, next, b);
  }

  ghost predicate SealedNext(w: World, next: World, b: Sealed) {
    var c, d := w.bridge.config, next.bridge.config;
    && next == w.(bridge := w.bridge.(config := d), sealed := w.sealed + [b])
    && d == c.(bundledThrough := d.bundledThrough, bundleM6id := b.id, bundleSealedHeight := c.creditedHeight)
    && c.paidThrough == c.bundledThrough == b.start < b.end == d.bundledThrough
  }

  lemma {:induction false} SealKeepsRest(w: World, next: World, b: Sealed)
    requires Inv(w) && SealInv(next) && Genuine(w.history, b) && SealedNext(w, next, b)
    ensures Inv(next)
  {
    hide Genuine; hide PaidIds;
    hide BankInv; hide CursorInv; hide RecordInv; hide SealInv; hide PayInv; hide ValidChain;
    SealFacts(w, next, b);
    SealKeepsPayment(w, next, b);
    SealKeepsRecords(w, next);
    SealKeepsChain(w, next, b);
    CursorFrame(w, next);
    BankFrame(w, next);
    Together(next);
  }

  lemma {:induction false} SealKeepsPayment(w: World, next: World, b: Sealed)
    requires CursorInv(w) && RecordInv(w) && SealInv(w) && PayInv(w)
    requires SealedNext(w, next, b) && Genuine(w.history, b) && b.start <= U32_MAX
    ensures PayInv(next)
  {
    hide Genuine; hide PaidIds; hide RecordInv; hide SealInv; hide PayInv; hide CreditedSats;
    var height := w.bridge.config.creditedHeight;
    assert height <= w.floor < |w.chain|;
    hide CursorInv;
    NewIdIsFresh(w, b, height + 1);
    SealKeepsPay(w, next, b, height);
  }

  lemma {:induction false} Together(w: World)
    requires BankInv(w) && CursorInv(w) && RecordInv(w) && SealInv(w) && PayInv(w) && ValidChain(w.chain, w.sealed)
    ensures Inv(w)
  {
    hide BankInv; hide CursorInv; hide RecordInv; hide SealInv; hide PayInv; hide ValidChain;
  }

  lemma {:induction false} SealFacts(w: World, next: World, b: Sealed)
    requires CursorInv(w) && SealInv(next) && next.sealed == w.sealed + [b] && Genuine(w.history, b)
    ensures w.bridge.config.creditedHeight <= w.floor < |w.chain|
    ensures b.start <= U32_MAX && b.end <= |w.history|
  {
    hide DaemonBundle;
    assert StartsAtEnd(next.sealed, |w.sealed|) && next.sealed[|w.sealed|] == b;
  }

  lemma {:induction false} SealKeepsRecords(w: World, next: World)
    requires RecordInv(w) && next == w.(bridge := next.bridge, sealed := next.sealed)
    requires next.bridge == w.bridge.(config := next.bridge.config)
    requires next.bridge.config.paidThrough == w.bridge.config.paidThrough
    requires next.bridge.config.paidThrough <= next.bridge.config.bundledThrough <= |w.history|
    requires next.bridge.config.withdrawalCount == w.bridge.config.withdrawalCount
    ensures RecordInv(next)
  {
  }

  lemma {:induction false} SealKeepsChain(w: World, next: World, b: Sealed)
    requires ValidChain(w.chain, w.sealed) && next.chain == w.chain && next.sealed == w.sealed + [b]
    ensures ValidChain(next.chain, next.sealed)
  {
    hide PaidIds; hide Linked;
    MoreIds(w.sealed, b, next.sealed);
  }

  lemma {:induction false} MoreIds(sealed: seq<Sealed>, b: Sealed, more: seq<Sealed>)
    requires more == sealed + [b]
    ensures Ids(more) == Ids(sealed) + [b.id]
  {
  }

  lemma {:induction false} SealAddsBundle(w: World, next: World, b: Sealed)
    requires RecordInv(w) && SealInv(w)
    requires next.sealed == w.sealed + [b] && next.history == w.history
    requires w.bridge.config.bundledThrough == b.start == next.bridge.config.paidThrough
    requires next.bridge.config.bundledThrough == b.end && next.bridge.config.bundleM6id == b.id
    requires b.start < b.end <= b.start + MAX_BUNDLE_RECORDS && b.end <= |w.history|
    requires FirstIndex(w.history[b.start..b.end]) <= U32_MAX
    requires DaemonBundle(w.history, b.start, b.end).Some?
    requires b.id == TxidOf(DaemonBundle(w.history, b.start, b.end).value)
    requires SumBurned(w.history[b.start..b.end]) <= 10 * MAX_SATS
    ensures SealInv(next)
    ensures Genuine(w.history, b) && b.start <= U32_MAX
  {
    assert w.history[b.start..b.end][0] == w.history[b.start];
    assert b.start <= U32_MAX;
    assert Genuine(w.history, b);
    hide Genuine; hide DaemonBundle; hide ValidRun; hide SumBurned;
    MoreBundles(w.history, w.sealed, b);
  }

  lemma {:induction false} MoreBundles(history: seq<Record>, sealed: seq<Sealed>, b: Sealed)
    requires Consecutive(sealed) && AllGenuine(history, sealed) && Genuine(history, b)
    requires b.start == EndOf(sealed, |sealed|)
    requires b.start < b.end <= b.start + MAX_BUNDLE_RECORDS && b.start <= U32_MAX
    ensures Consecutive(sealed + [b]) && AllGenuine(history, sealed + [b])
  {
    hide Genuine;
    var more := sealed + [b];
    forall k | 0 <= k < |more| ensures StartsAtEnd(more, k) && Genuine(history, more[k]) {
      if k < |sealed| {
        assert StartsAtEnd(sealed, k) && more[k] == sealed[k];
        assert EndOf(more, k) == EndOf(sealed, k);
      } else {
        assert EndOf(more, k) == EndOf(sealed, k);
      }
    }
  }

  lemma {:induction false} SealKeepsPay(w: World, next: World, b: Sealed, height: nat)
    requires PayInv(w) && next.chain == w.chain && next.floor == w.floor && next.sealed == w.sealed + [b]
    requires !IsLive(w.bridge.config) && IsLive(next.bridge.config)
    requires next.bridge.config.bundleSealedHeight == height <= w.floor
    requires next.bridge.config.bundleM6id == b.id
    requires b.id !in PaidIds(w.chain[..height + 1])
    ensures PayInv(next)
  {
    hide PaidIds;
    MoreIds(w.sealed, b, next.sealed);
    assert Ids(next.sealed)[..|w.sealed|] == Ids(w.sealed)[..|w.sealed|];
  }

  /** No earlier bundle has the M6ID of the new one: the lock times differ. */
  lemma {:induction false} NewIdIsFresh(w: World, b: Sealed, p: nat)
    requires RecordInv(w) && SealInv(w) && PayInv(w) && p <= |w.chain|
    requires Genuine(w.history, b) && w.bridge.config.bundledThrough == b.start <= U32_MAX
    ensures b.id !in PaidIds(w.chain[..p])
  {
    hide PaidIds; hide Genuine; hide ValidRun; hide SumBurned; hide NoDuplicates;
    PaidIdsPrefix(w.chain, p, |w.chain|);
    assert w.chain[..|w.chain|] == w.chain;
    if b.id in PaidIds(w.chain[..p]) {
      assert b.id in PaidIds(w.chain);
      var k :| 0 <= k < |w.sealed| && Ids(w.sealed)[k] == b.id;
      EarlierIdDiffers(w, b, k);
    }
  }

  lemma {:induction false} EarlierIdDiffers(w: World, b: Sealed, k: nat)
    requires RecordInv(w) && SealInv(w) && k < |w.sealed|
    requires Genuine(w.history, b) && w.bridge.config.bundledThrough == b.start <= U32_MAX
    ensures w.sealed[k].id != b.id
  {
    hide Genuine; hide ValidRun; hide SumBurned;
    assert StartsAtEnd(w.sealed, k) && Genuine(w.history, w.sealed[k]);
    StartsIncrease(w.sealed, k, |w.sealed| - 1);
    hide Consecutive; hide AllGenuine;
    IdsDiffer(w.history, w.sealed[k], b);
  }

  lemma {:induction false} IdsDiffer(history: seq<Record>, a: Sealed, b: Sealed)
    requires ValidRun(history, 0) && Genuine(history, a) && Genuine(history, b)
    requires a.start != b.start && a.start <= U32_MAX && b.start <= U32_MAX
    ensures a.id != b.id
  {
    assert history[a.start..a.end][0] == history[a.start] && history[b.start..b.end][0] == history[b.start];
  }

  lemma {:induction false} StartsIncrease(sealed: seq<Sealed>, i: nat, j: nat)
    requires i <= j < |sealed| && Consecutive(sealed)
    ensures sealed[i].start < sealed[i].end <= sealed[j].end
    ensures i < j ==> sealed[i].end <= sealed[j].start
  {
    assert StartsAtEnd(sealed, i) && StartsAtEnd(sealed, j);
    if i < j {
      StartsIncrease(sealed, i, j - 1);
    }
  }

  lemma {:induction false} MarkPaidKeeps(w: World, step: Step)
    requires Inv(w) && step.MarkPaid?
    ensures Inv(Next(w, step))
  {
    var next := Next(w, step);
    if next != w {
      assert w.floor < |w.chain|;
      hide BankInv; hide CursorInv; hide RecordInv; hide SealInv; hide PayInv; hide ValidChain;
      MarkPaidLands(w, step);
      hide Next; hide PaidIds;
      MarkPaidKeepsAll(w, next);
    }
  }

  ghost predicate Marked(w: World, next: World) {
    && IsLive(w.bridge.config)
    && next.bridge.config == w.bridge.config.(paidThrough := w.bridge.config.bundledThrough)
    && next == w.(bridge := w.bridge.(config := next.bridge.config), floor := next.floor)
    && w.floor <= next.floor < |w.chain|
    && w.bridge.config.bundleM6id in PaidIds(w.chain[..next.floor + 1])
  }

  lemma {:induction false} MarkPaidKeepsAll(w: World, next: World)
    requires Inv(w) && Marked(w, next)
    ensures Inv(next)
  {
    hide PaidIds;
    hide BankInv; hide CursorInv; hide RecordInv; hide SealInv; hide PayInv; hide ValidChain;
    MarkPaidKeepsPay(w, next);
    MarkPaidKeepsRecords(w, next);
    CursorFrame(w, next);
    BankFrame(w, next);
  }

  lemma {:induction false} MarkPaidLands(w: World, step: Step)
    requires step.MarkPaid? && Next(w, step) != w && w.floor < |w.chain|
    ensures Marked(w, Next(w, step))
  {
    hide PaidIds; hide DepositAnswerOf;
    PaidIdsHold(w.chain, step.height, step.m6id);
    PaidIdsPrefix(w.chain, step.height + 1, Next(w, step).floor + 1);
  }

  lemma {:induction false} MarkPaidKeepsRecords(w: World, next: World)
    requires RecordInv(w) && SealInv(w) && Marked(w, next)
    ensures RecordInv(next) && SealInv(next)
  {
    hide Consecutive; hide AllGenuine; hide PaidIds;
  }

  /** A Succeeded event for the live bundle means that the chain paid every
      bundle up to it. */
  lemma {:induction false} MarkPaidKeepsPay(w: World, next: World)
    requires RecordInv(w) && SealInv(w) && PayInv(w) && Marked(w, next)
    ensures PayInv(next)
  {
    hide PaidIds; hide RecordInv; hide SealInv; hide PayInv;
    PaidShape(w, next.floor + 1);
    LiveIdIsNew(w);
    assert PaidIds(w.chain[..next.floor + 1]) == Ids(w.sealed);
    EveryIdPaid(w, next);
  }

  lemma {:induction false} EveryIdPaid(w: World, next: World)
    requires PayInv(w) && Marked(w, next) && PaidIds(w.chain[..next.floor + 1]) == Ids(w.sealed)
    ensures PayInv(next)
  {
    hide PaidIds; hide PaymentRules;
    assert Ids(w.sealed)[..|w.sealed|] == Ids(w.sealed);
  }

  lemma {:induction false} LiveIdIsNew(w: World)
    requires RecordInv(w) && SealInv(w) && IsLive(w.bridge.config)
    ensures w.bridge.config.bundleM6id !in Ids(w.sealed)[..|w.sealed| - 1]
  {
    hide Consecutive; hide AllGenuine; hide ValidRun; hide SumBurned;
    var m, id := |w.sealed| - 1, w.bridge.config.bundleM6id;
    if id in Ids(w.sealed)[..m] {
      var k :| 0 <= k < m && Ids(w.sealed)[..m][k] == id;
      SealedIdsDiffer(w, k, m);
    }
  }

  lemma {:induction false} SealedIdsDiffer(w: World, i: nat, j: nat)
    requires RecordInv(w) && SealInv(w) && i < j < |w.sealed|
    ensures w.sealed[i].id != w.sealed[j].id
  {
    StartsIncrease(w.sealed, i, j);
    assert StartsAtEnd(w.sealed, i) && StartsAtEnd(w.sealed, j);
    IdsDiffer(w.history, w.sealed[i], w.sealed[j]);
  }

  lemma {:induction false} CloseKeepsRecords(w: World, index: u64, owner: Pubkey, s: State)
    requires RecordInv(w) && CloseRecord(w.bridge, index, owner) == Ok(s)
    ensures RecordInv(w.(bridge := s))
  {
  }

  lemma {:induction false} CloseKeeps(w: World, step: Step)
    requires Inv(w) && step.Close?
    ensures Inv(Next(w, step))
  {
    hide RecordInv;
    hide SealInv;
    hide CursorInv;
    var next := Next(w, step);
    if next != w {
      CloseKeepsRecords(w, step.index, step.owner, next.bridge);
      SealFrame(w, next);
      CursorFrame(w, next);
      PayFrame(w, next);
    }
  }

  lemma {:induction false} SettleKeepsBank(w: World, step: Step)
    requires BankInv(w) && step.Settle? && Next(w, step) != w
    ensures var next, c := Next(w, step), w.bridge.config;
            && BankInv(next)
            && next == w.(bridge := next.bridge)
            && next.bridge.records == w.bridge.records
            && SameBundles(c, next.bridge.config) && SameCursor(c, next.bridge.config)
            && next.bridge.config.withdrawalCount == c.withdrawalCount
  {
    hide TotalLamports;
    SettleEffect(w.bridge, step.at, step.block, step.solanaBlock, step.payee, step.answer, step.slot);
    hide SettleBmm;
  }

  lemma {:induction false} SettleKeeps(w: World, step: Step)
    requires Inv(w) && step.Settle?
    ensures Inv(Next(w, step))
  {
    var next := Next(w, step);
    if next != w {
      assert w.floor < |w.chain|;
      hide BankInv; hide CursorInv; hide RecordInv; hide SealInv; hide PayInv; hide ValidChain;
      SettleKeepsBank(w, step);
      hide Next;
      RecordFrame(w, next);
      SealFrame(w, next);
      CursorFrame(w, next);
      PayFrame(w, next);
    }
  }

  lemma {:induction false} SendKeepsBank(w: World, step: Step)
    requires BankInv(w) && step.Send? && Next(w, step) != w
    ensures var next := Next(w, step);
            && BankInv(next)
            && next == w.(bridge := w.bridge.(accounts := next.bridge.accounts), gifts := next.gifts)
  {
    TransferMoves(w.bridge, step.from, step.to, step.amount);
  }

  lemma {:induction false} SendKeeps(w: World, step: Step)
    requires Inv(w) && step.Send?
    ensures Inv(Next(w, step))
  {
    var next := Next(w, step);
    if next != w {
      assert w.floor < |w.chain|;
      hide BankInv; hide CursorInv; hide RecordInv; hide SealInv; hide PayInv; hide ValidChain;
      SendKeepsBank(w, step);
      hide Next;
      RecordFrame(w, next);
      SealFrame(w, next);
      CursorFrame(w, next);
      PayFrame(w, next);
    }
  }

  lemma {:induction false} FollowLands(w: World, step: Step)
    requires step.Follow? && Next(w, step) != w
    ensures var next := Next(w, step);
            && next == w.(chain := next.chain)
            && ValidChain(next.chain, w.sealed)
            && w.floor < |w.chain| && w.floor < |next.chain|
            && next.chain[..w.floor + 1] == w.chain[..w.floor + 1]
  {
    hide ValidChain;
    assert step.keep + 1 <= |w.chain|;
    var chain := w.chain[..step.keep + 1] + step.blocks;
    assert chain[..w.floor + 1] == w.chain[..w.floor + 1];
  }

  lemma {:induction false} FollowKeeps(w: World, step: Step)
    requires Inv(w) && step.Follow?
    ensures Inv(Next(w, step))
  {
    var next := Next(w, step);
    if next != w {
      FollowLands(w, step);
      hide Next;
      hide BankInv; hide CursorInv; hide RecordInv; hide SealInv; hide PayInv; hide ValidChain;
      BankFrame(w, next);
      FollowKeepsCursor(w, next);
      FollowKeepsPay(w, next);
      RecordFrame(w, next);
      SealFrame(w, next);
    }
  }

  lemma {:induction false} FollowKeepsCursor(w: World, next: World)
    requires CursorInv(w) && next == w.(chain := next.chain)
    requires w.floor < |next.chain| && next.chain[..w.floor + 1] == w.chain[..w.floor + 1]
    ensures CursorInv(next)
  {
    PrefixStays(w.chain, next.chain, w.floor + 1);
  }

  lemma {:induction false} FollowKeepsPay(w: World, next: World)
    requires PayInv(w) && next == w.(chain := next.chain)
    requires w.floor < |next.chain| && next.chain[..w.floor + 1] == w.chain[..w.floor + 1]
    requires ValidChain(next.chain, w.sealed)
    ensures PayInv(next)
  {
    hide PaidIds; hide TreasurySats; hide NoDuplicates; hide Linked;
    PrefixStays(w.chain, next.chain, w.floor + 1);
  }

  lemma {:induction false} PrefixStays(a: seq<Block>, b: seq<Block>, n: nat)
    requires n <= |a| && n <= |b| && a[..n] == b[..n]
    ensures forall p :: 0 <= p <= n ==> a[..p] == b[..p]
    ensures forall h :: 0 <= h < n ==> a[h] == b[h]
  {
    forall h | 0 <= h < n ensures a[h] == b[h] {
      assert a[..n][h] == b[..n][h];
    }
  }

  lemma {:induction false} NextKeeps(w: World, step: Step)
    requires Inv(w)
    ensures Inv(Next(w, step))
  {
    match step {
      case Credit(height, blockHash, first, count, metas) =>
        var answer := DepositAnswerOf(w.chain, height, blockHash, first, count);
        var landed := CreditDeposits(w.bridge, height, blockHash, first, count, answer, metas);
        if landed.Ok? { CreditKeeps(w, step, landed.value); }
      case Burn(user, lamports, feeSats, script) =>
        var landed := Withdraw(w.bridge, user, lamports, feeSats, script);
        if landed.Ok? { BurnKeeps(w, step, landed.value); }
      case Seal(_) =>
        if Next(w, step) != w {
          SealStep(w, step);
          var b, s :| SealLands(w, step, b, s);
          SealKeeps(w, step, b, s);
        }
      case MarkPaid(_, _, _, _) => MarkPaidKeeps(w, step);
      case Close(_, _) => CloseKeeps(w, step);
      case Settle(_, _, _, _, _, _) => SettleKeeps(w, step);
      case Send(_, _, _) => SendKeeps(w, step);
      case Follow(_, _) => FollowKeeps(w, step);
    }
  }

  lemma {:induction false} RunKeeps(w: World, steps: seq<Step>)
    requires Inv(w)
    ensures Inv(Run(w, steps))
  {
    if steps != [] {
      RunKeeps(w, steps[..|steps| - 1]);
      NextKeeps(Run(w, steps[..|steps| - 1]), steps[|steps| - 1]);
    }
  }

  lemma {:induction false} InitHolds(w: World)
    requires Init(w)
    ensures Inv(w)
  {
    hide TotalLamports; hide Linked; hide DepositSats; hide PaidIds; hide NoDuplicates;
    assert Ids(w.sealed) == [] && Ids(w.sealed)[..0] == [];
  }
}
