/** The blinded M6 of a withdrawal bundle and its legacy frame (daemon/src/m6.rs). */
module M6 {
  import opened Prelude
  import opened Bytes

  const MAX_BLINDED_WEIGHT: nat := 300_000

  datatype Payout = Payout(script: seq<u8>, sats: u64)

  datatype TxOut = TxOut(value: u64, script: seq<u8>)

  /** A version 2 transaction without inputs. */
  datatype Blinded = Blinded(output: seq<TxOut>, lockTime: u32)

  /** SHA-256d as a free constructor: two blinded transactions share an ID only
      when they are equal. `NoTxid` is the all-zero ID that a fresh config holds,
      and `Unknown` stands for 32 bytes that hash no transaction of the model. */
  datatype Txid = NoTxid | TxidOf(blinded: Blinded) | Unknown(tag: nat)

  datatype M6Error =
    | NoPayouts
    | ZeroPayout
    | PayoutOverflow
    | TooHeavy(weight: nat)
    | FirstRecordTooLarge(first: u64)
    | TreasuryForm(at: nat)

  /** A script that eCash reads as a treasury output, with the old opcode or the
      new one. */
  predicate IsTreasuryForm(script: seq<u8>) {
    && |script| == 4
    && (script[0] == 0xb4 || script[0] == 0xb7)
    && script[1] == 0x01
    && script[3] == 0x51
  }

  lemma {:induction false} TreasuryFormIs(script: seq<u8>)
    ensures IsTreasuryForm(script) <==>
            exists slot: u8 :: script == [0xb4, 0x01, slot, 0x51] || script == [0xb7, 0x01, slot, 0x51]
  {
    if IsTreasuryForm(script) {
      assert script == [script[0], 0x01, script[2], 0x51];
    }
  }

  // ------------------------------------------------------------------ frame

  function VarInt(n: nat): (s: seq<u8>)
    ensures 1 <= |s| <= 9
  {
    if n < 0xFD then [n]
    else if n <= U16_MAX then [0xFD] + ToLE(n, 2)
    else if n <= U32_MAX then [0xFE] + ToLE(n, 4)
    else [0xFF] + ToLE(n, 8)
  }

  function SerializeOutput(output: TxOut): seq<u8> {
    ToLE(output.value, 8) + VarInt(|output.script|) + output.script
  }

  function SerializeOutputs(outputs: seq<TxOut>): seq<u8> {
    if outputs == [] then []
    else SerializeOutputs(outputs[..|outputs| - 1]) + SerializeOutput(outputs[|outputs| - 1])
  }

  /** The version and the empty input list. */
  const FRAME_HEAD: seq<u8> := [2, 0, 0, 0, 0]

  /** The frame without witness bytes: no input, then the outputs. */
  function SerializeLegacy(tx: Blinded): seq<u8> {
    FRAME_HEAD + (VarInt(|tx.output|) + (SerializeOutputs(tx.output) + ToLE(tx.lockTime, 4)))
  }

  lemma {:induction false} FrameHead()
    ensures FRAME_HEAD == ToLE(2, 4) + VarInt(0)
  {
    assert ToLE(0, 1) == [0] && ToLE(0, 2) == [0] + ToLE(0, 1) && ToLE(0, 3) == [0] + ToLE(0, 2);
    assert ToLE(2, 4) == [2] + ToLE(0, 3);
  }

  lemma {:induction false} Assoc(a: seq<u8>, b: seq<u8>, c: seq<u8>)
    ensures (a + b) + c == a + (b + c)
  {
  }

  method WriteLegacy(tx: Blinded) returns (bytes: seq<u8>)
    ensures bytes == SerializeLegacy(tx)
  {
    bytes := ToLE(2, 4);
    bytes := bytes + VarInt(0);
    FrameHead();
    bytes := bytes + VarInt(|tx.output|);
    var outputs := WriteOutputs(tx.output);
    bytes := bytes + outputs;
    bytes := bytes + ToLE(tx.lockTime, 4);
    Assoc(FRAME_HEAD + VarInt(|tx.output|), outputs, ToLE(tx.lockTime, 4));
    Assoc(FRAME_HEAD, VarInt(|tx.output|), outputs + ToLE(tx.lockTime, 4));
  }

  method WriteOutputs(outputs: seq<TxOut>) returns (bytes: seq<u8>)
    ensures bytes == SerializeOutputs(outputs)
  {
    bytes := [];
    for i := 0 to |outputs|
      invariant bytes == SerializeOutputs(outputs[..i])
    {
      bytes := bytes + SerializeOutput(outputs[i]);
      assert outputs[..i + 1][..i] == outputs[..i];
    }
    assert outputs[..|outputs|] == outputs;
  }

  // ------------------------------------------------- the frame is injective

  ghost predicate FitsFrame(tx: Blinded) {
    && |tx.output| <= U64_MAX
    && forall i :: 0 <= i < |tx.output| ==> |tx.output[i].script| <= U64_MAX
  }

  lemma {:induction false} PrefixesAgree(a: seq<u8>, b: seq<u8>, x: seq<u8>, y: seq<u8>)
    requires |a| == |b|
    requires a + x == b + y
    ensures a == b && x == y
  {
    assert a == (a + x)[..|a|] && b == (b + y)[..|b|];
    assert x == (a + x)[|a|..] && y == (b + y)[|b|..];
  }

  lemma {:induction false} ToLEInjective(m: nat, n: nat, width: nat)
    requires m < Pow256(width) && n < Pow256(width)
    requires ToLE(m, width) == ToLE(n, width)
    ensures m == n
  {
    LERoundTrip(m, width);
    LERoundTrip(n, width);
  }

  lemma {:induction false} VarIntPrefixFree(m: nat, n: nat, x: seq<u8>, y: seq<u8>)
    requires m <= U64_MAX && n <= U64_MAX
    requires VarInt(m) + x == VarInt(n) + y
    ensures m == n && x == y
  {
    assert (VarInt(m) + x)[0] == VarInt(m)[0] && (VarInt(n) + y)[0] == VarInt(n)[0];
    assert |VarInt(m)| == |VarInt(n)|;
    PrefixesAgree(VarInt(m), VarInt(n), x, y);
    if |VarInt(m)| > 1 {
      var width := |VarInt(m)| - 1;
      assert ToLE(m, width) == VarInt(m)[1..] == VarInt(n)[1..] == ToLE(n, width);
      Pow256Eight();
      assert Pow256(2) == 0x1_0000;
      ToLEInjective(m, n, width);
    }
  }

  lemma {:induction false} OutputPrefixFree(a: TxOut, b: TxOut, x: seq<u8>, y: seq<u8>)
    requires |a.script| <= U64_MAX && |b.script| <= U64_MAX
    requires SerializeOutput(a) + x == SerializeOutput(b) + y
    ensures a == b && x == y
  {
    hide VarInt; hide ToLE;
    var ta := VarInt(|a.script|) + (a.script + x);
    var tb := VarInt(|b.script|) + (b.script + y);
    assert SerializeOutput(a) + x == ToLE(a.value, 8) + ta;
    assert SerializeOutput(b) + y == ToLE(b.value, 8) + tb;
    PrefixesAgree(ToLE(a.value, 8), ToLE(b.value, 8), ta, tb);
    Pow256Eight();
    ToLEInjective(a.value, b.value, 8);
    VarIntPrefixFree(|a.script|, |b.script|, a.script + x, b.script + y);
    PrefixesAgree(a.script, b.script, x, y);
  }

  lemma {:induction false} OutputsFromFront(outputs: seq<TxOut>)
    requires outputs != []
    ensures SerializeOutputs(outputs) == SerializeOutput(outputs[0]) + SerializeOutputs(outputs[1..])
  {
    hide SerializeOutputs; hide SerializeOutput;
    var n := |outputs| - 1;
    var front, rest := outputs[..n], outputs[1..];
    OutputsStep(outputs, front, outputs[n]);
    if n > 0 {
      OutputsFromFront(front);
      OutputsStep(rest, front[1..], outputs[n]);
      Assoc(SerializeOutput(front[0]), SerializeOutputs(front[1..]), SerializeOutput(outputs[n]));
    } else {
      assert front == [] && rest == [];
    }
  }

  lemma {:induction false} OutputsStep(outputs: seq<TxOut>, front: seq<TxOut>, last: TxOut)
    requires outputs == front + [last]
    ensures SerializeOutputs(outputs) == SerializeOutputs(front) + SerializeOutput(last)
    ensures SerializeOutputs([]) == []
  {
    hide SerializeOutput;
    assert outputs[..|outputs| - 1] == front;
  }

  lemma {:induction false} OutputsPrefixFree(a: seq<TxOut>, b: seq<TxOut>, x: seq<u8>, y: seq<u8>)
    requires |a| == |b|
    requires forall i :: 0 <= i < |a| ==> |a[i].script| <= U64_MAX && |b[i].script| <= U64_MAX
    requires SerializeOutputs(a) + x == SerializeOutputs(b) + y
    ensures a == b && x == y
  {
    hide SerializeOutput;
    if a == [] {
      assert SerializeOutputs(a) + x == x && SerializeOutputs(b) + y == y;
    } else {
      hide SerializeOutputs;
      OutputsFromFront(a);
      OutputsFromFront(b);
      var ra := SerializeOutputs(a[1..]) + x;
      var rb := SerializeOutputs(b[1..]) + y;
      Assoc(SerializeOutput(a[0]), SerializeOutputs(a[1..]), x);
      Assoc(SerializeOutput(b[0]), SerializeOutputs(b[1..]), y);
      OutputPrefixFree(a[0], b[0], ra, rb);
      OutputsPrefixFree(a[1..], b[1..], x, y);
      assert a == [a[0]] + a[1..] && b == [b[0]] + b[1..];
    }
  }

  /** No two blinded M6 share a frame, so an injective hash of the frame names
      the bundle: this is what lets `Txid` be a free constructor. */
  lemma {:induction false} LegacyFrameIsInjective(a: Blinded, b: Blinded)
    requires FitsFrame(a) && FitsFrame(b)
    requires SerializeLegacy(a) == SerializeLegacy(b)
    ensures a == b
  {
    var ra := SerializeOutputs(a.output) + ToLE(a.lockTime, 4);
    var rb := SerializeOutputs(b.output) + ToLE(b.lockTime, 4);
    PrefixesAgree(FRAME_HEAD, FRAME_HEAD, VarInt(|a.output|) + ra, VarInt(|b.output|) + rb);
    VarIntPrefixFree(|a.output|, |b.output|, ra, rb);
    OutputsPrefixFree(a.output, b.output, ToLE(a.lockTime, 4), ToLE(b.lockTime, 4));
    Pow256Eight();
    ToLEInjective(a.lockTime, b.lockTime, 4);
  }

  // ------------------------------------------------------------------ build

  function SumSats(payouts: seq<Payout>): (total: nat) {
    if payouts == [] then 0 else SumSats(payouts[..|payouts| - 1]) + payouts[|payouts| - 1].sats
  }

  /** Output 0: OP_RETURN and the fee as eight big-endian bytes. */
  function FeeOutput(fee: u64): TxOut {
    TxOut(0, [0x6a, 0x08] + ToBE(fee, 8))
  }

  function PayoutOutputs(payouts: seq<Payout>): (outputs: seq<TxOut>)
    ensures |outputs| == |payouts|
  {
    if payouts == [] then []
    else
      var last := payouts[|payouts| - 1];
      PayoutOutputs(payouts[..|payouts| - 1]) + [TxOut(last.sats, last.script)]
  }

  function BlindedOf(fee: u64, payouts: seq<Payout>, lockTime: u32): Blinded {
    Blinded([FeeOutput(fee)] + PayoutOutputs(payouts), lockTime)
  }

  function Weight(tx: Blinded): nat {
    |SerializeLegacy(tx)| * 4
  }

  /** The weight of BIP 141, three times the size without witness bytes plus the
      whole size: the frame has none. */
  lemma {:induction false} WeightIs(tx: Blinded)
    ensures Weight(tx) == 3 * |SerializeLegacy(tx)| + |SerializeLegacy(tx)|
  {
  }

  /** What `build_blinded_m6` answers, stated over the whole list at once. */
  ghost predicate Builds(fee: u64, payouts: seq<Payout>, r: Result<Blinded, M6Error>) {
    match r
    case Err(NoPayouts) => payouts == []
    case Err(TreasuryForm(at)) =>
      && at < |payouts|
      && IsTreasuryForm(payouts[at].script)
      && forall i :: 0 <= i < at ==> !IsTreasuryForm(payouts[i].script)
    case Err(PayoutOverflow) => NoTreasuryForm(payouts) && SumSats(payouts) > U64_MAX
    case Err(ZeroPayout) => payouts != [] && NoTreasuryForm(payouts) && SumSats(payouts) == 0
    case Err(TooHeavy(weight)) =>
      && NoTreasuryForm(payouts)
      && 0 < SumSats(payouts) <= U64_MAX
      && weight == Weight(BlindedOf(fee, payouts, 0)) > MAX_BLINDED_WEIGHT
    case Err(FirstRecordTooLarge(_)) => false
    case Ok(tx) =>
      && tx == BlindedOf(fee, payouts, 0)
      && NoTreasuryForm(payouts)
      && 0 < SumSats(payouts) <= U64_MAX
      && Weight(tx) <= MAX_BLINDED_WEIGHT
  }

  ghost predicate NoTreasuryForm(payouts: seq<Payout>) {
    forall i :: 0 <= i < |payouts| ==> !IsTreasuryForm(payouts[i].script)
  }

  lemma {:induction false} SumSatsMonotone(payouts: seq<Payout>, n: nat)
    requires n <= |payouts|
    ensures SumSats(payouts[..n]) <= SumSats(payouts)
  {
    if n == |payouts| {
      assert payouts[..n] == payouts;
    } else {
      var front := payouts[..|payouts| - 1];
      SumSatsMonotone(front, n);
      assert front[..n] == payouts[..n];
    }
  }

  lemma {:induction false} PayoutsStep(payouts: seq<Payout>, i: nat)
    requires i < |payouts|
    ensures SumSats(payouts[..i + 1]) == SumSats(payouts[..i]) + payouts[i].sats
    ensures PayoutOutputs(payouts[..i + 1])
         == PayoutOutputs(payouts[..i]) + [TxOut(payouts[i].sats, payouts[i].script)]
  {
    assert payouts[..i + 1][..i] == payouts[..i];
  }

  lemma {:induction false} NoPayoutYet(payouts: seq<Payout>)
    ensures SumSats(payouts[..0]) == 0 && PayoutOutputs(payouts[..0]) == []
  {
  }

  method BuildBlindedM6(fee: u64, payouts: seq<Payout>) returns (r: Result<Blinded, M6Error>)
    ensures Builds(fee, payouts, r)
  {
    hide FeeOutput; hide SerializeLegacy; hide IsTreasuryForm; hide SumSats; hide PayoutOutputs;
    NoPayoutYet(payouts);
    if payouts == [] {
      return Err(NoPayouts);
    }
    for at := 0 to |payouts|
      invariant forall i :: 0 <= i < at ==> !IsTreasuryForm(payouts[i].script)
    {
      if IsTreasuryForm(payouts[at].script) {
        return Err(TreasuryForm(at));
      }
    }
    var total: u64 := 0;
    for i := 0 to |payouts|
      invariant total == SumSats(payouts[..i])
    {
      PayoutsStep(payouts, i);
      if total + payouts[i].sats > U64_MAX {
        SumSatsMonotone(payouts, i + 1);
        return Err(PayoutOverflow);
      }
      total := total + payouts[i].sats;
    }
    assert payouts[..|payouts|] == payouts;
    if total == 0 {
      return Err(ZeroPayout);
    }
    var output := [FeeOutput(fee)];
    for i := 0 to |payouts|
      invariant output == [FeeOutput(fee)] + PayoutOutputs(payouts[..i])
    {
      output := output + [TxOut(payouts[i].sats, payouts[i].script)];
      PayoutsStep(payouts, i);
    }
    var tx := Blinded(output, 0);
    var bytes := WriteLegacy(tx);
    if |bytes| * 4 > MAX_BLINDED_WEIGHT {
      return Err(TooHeavy(|bytes| * 4));
    }
    return Ok(tx);
  }

  // ---------------------------------------------------- what an M6 pays out

  ghost function SumValues(outputs: seq<TxOut>): nat {
    if outputs == [] then 0 else SumValues(outputs[..|outputs| - 1]) + outputs[|outputs| - 1].value
  }

  /** The sats that leave the eCash treasury when it pays the M6: the fee that
      output 0 names, and every payout. The enforcer reads the fee big-endian. */
  ghost function Value(tx: Blinded): nat {
    if tx.output == [] || |tx.output[0].script| < 2 then 0
    else FromBE(tx.output[0].script[2..]) + SumValues(tx.output[1..])
  }

  lemma {:induction false} PayoutOutputsValue(payouts: seq<Payout>)
    ensures SumValues(PayoutOutputs(payouts)) == SumSats(payouts)
  {
    if payouts != [] {
      var front := payouts[..|payouts| - 1];
      PayoutOutputsValue(front);
      assert PayoutOutputs(payouts)[..|payouts| - 1] == PayoutOutputs(front);
    }
  }

  /** eCash pays out exactly the fee and the payouts that the bundle names. */
  lemma {:induction false} BlindedValue(fee: u64, payouts: seq<Payout>, lockTime: u32)
    ensures Value(BlindedOf(fee, payouts, lockTime)) == fee + SumSats(payouts)
  {
    var tx := BlindedOf(fee, payouts, lockTime);
    assert tx.output[0].script[2..] == ToBE(fee, 8);
    assert tx.output[1..] == PayoutOutputs(payouts);
    Pow256Eight();
    BERoundTrip(fee, 8);
    PayoutOutputsValue(payouts);
  }

  lemma {:induction false} OutputsLength(payouts: seq<Payout>, longest: nat)
    requires longest < 0xFD
    requires forall i :: 0 <= i < |payouts| ==> |payouts[i].script| <= longest
    ensures |SerializeOutputs(PayoutOutputs(payouts))| <= |payouts| * (9 + longest)
  {
    hide SerializeOutput;
    if payouts != [] {
      var n := |payouts| - 1;
      var last := TxOut(payouts[n].sats, payouts[n].script);
      assert PayoutOutputs(payouts) == PayoutOutputs(payouts[..n]) + [last];
      hide SerializeOutputs; hide PayoutOutputs;
      OutputsLength(payouts[..n], longest);
      OutputsStep(PayoutOutputs(payouts), PayoutOutputs(payouts[..n]), last);
      OutputLength(last);
      OneMore(|SerializeOutputs(PayoutOutputs(payouts[..n]))|, |SerializeOutput(last)|, n, 9 + longest);
    }
  }

  lemma {:induction false} OneMore(length: nat, more: nat, n: nat, size: nat)
    requires length <= n * size && more <= size
    ensures length + more <= (n + 1) * size
  {
  }

  lemma {:induction false} OutputLength(output: TxOut)
    requires |output.script| < 0xFD
    ensures |SerializeOutput(output)| == 9 + |output.script|
  {
  }

  /** A bundle of at most `count` payouts to scripts of at most 34 bytes. */
  lemma {:induction false} WeightBound(fee: u64, payouts: seq<Payout>, lockTime: u32, count: nat)
    requires |payouts| <= count <= 1_500
    requires forall i :: 0 <= i < |payouts| ==> |payouts[i].script| <= 34
    ensures Weight(BlindedOf(fee, payouts, lockTime)) <= 4 * (31 + 43 * count) <= 258_124
  {
    hide SerializeOutputs; hide PayoutOutputs;
    var tx := BlindedOf(fee, payouts, lockTime);
    OutputsLength(payouts, 34);
    OutputsFromFront(tx.output);
    assert tx.output[1..] == PayoutOutputs(payouts);
    assert |SerializeOutput(FeeOutput(fee))| == 19;
    hide SerializeOutput; hide FeeOutput;
  }
}
