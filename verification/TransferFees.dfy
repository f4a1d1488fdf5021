/** The Token-2022 mints of the migration: `rebase_transfer_fees`
    (daemon/src/genesis.rs). It reads the extension list of a mint and moves the
    two epochs of its transfer fee. */
module TransferFees {
  import opened Prelude
  import opened Bytes

  const MINT_LEN: nat := 82
  const MULTISIG_LEN: nat := 355
  const ACCOUNT_TYPE: nat := 165
  const MINT: u8 := 1
  const TRANSFER_FEE_CONFIG: u16 := 1
  const TRANSFER_FEE_CONFIG_LEN: nat := 108
  const OLDER_EPOCH: nat := 72
  const NEWER_EPOCH: nat := 90

  // ------------------------------------------------------------ the list form

  /** One extension of a mint: its kind and its value. */
  datatype Extension = Extension(kind: u16, value: seq<u8>)

  function Entry(x: Extension): seq<u8> {
    ToLE(x.kind, 2) + ToLE(|x.value|, 2) + x.value
  }

  function Entries(list: seq<Extension>): seq<u8> {
    if list == [] then [] else Entry(list[0]) + Entries(list[1..])
  }

  ghost predicate AllZero(bytes: seq<u8>) {
    forall i :: 0 <= i < |bytes| ==> bytes[i] == 0
  }

  /** Extensions that a mint can hold: kind 0 marks unused space. */
  ghost predicate CanHold(list: seq<Extension>) {
    forall i :: 0 <= i < |list| ==> list[i].kind != 0 && |list[i].value| <= U16_MAX
  }

  /** Unused space: zero bytes, and room for a two-byte tag or a whole head. */
  ghost predicate Unused(bytes: seq<u8>) {
    AllZero(bytes) && |bytes| != 1 && |bytes| != 3
  }

  /** `bytes` is an extension list, written out. */
  ghost predicate Lists(bytes: seq<u8>, list: seq<Extension>) {
    && CanHold(list)
    && |Entries(list)| <= |bytes|
    && bytes[..|Entries(list)|] == Entries(list)
    && Unused(bytes[|Entries(list)|..])
  }

  /** The value of the one transfer fee extension, counted from the start of
      the list, or `None` when there is none, or two, or one of another length. */
  ghost function FeeOf(list: seq<Extension>): Option<nat> {
    if list == [] then None
    else
      var rest := FeeOf(list[1..]);
      if list[0].kind == TRANSFER_FEE_CONFIG then
        if |list[0].value| == TRANSFER_FEE_CONFIG_LEN && NoFee(list[1..]) then Some(4) else None
      else if rest.None? then None
      else Some(|Entry(list[0])| + rest.value)
  }

  ghost predicate NoFee(list: seq<Extension>) {
    forall i :: 0 <= i < |list| ==> list[i].kind != TRANSFER_FEE_CONFIG
  }

  // ---------------------------------------------------------------- the loop

  function U16At(data: seq<u8>, at: nat): (x: u16)
    requires at + 2 <= |data|
  {
    FromLEBound(data[at..at + 2]);
    assert Pow256(2) == 65536;
    FromLE(data[at..at + 2])
  }

  predicate IsZero(bytes: seq<u8>) {
    forall i :: 0 <= i < |bytes| ==> bytes[i] == 0
  }

  /** What the loop returns when it stands at `at` and has `found`. */
  function Scan(data: seq<u8>, at: nat, found: Option<nat>): Option<nat>
    requires at <= |data|
    decreases |data| - at
  {
    if at == |data| then found
    else if |data| - at == 2 then (if IsZero(data[at..]) then found else None)
    else if |data| - at < 4 then None
    else
      var kind, len := U16At(data, at), U16At(data, at + 2);
      if kind == 0 then (if IsZero(data[at..]) then found else None)
      else if at + 4 + len > |data| then None
      else if kind == TRANSFER_FEE_CONFIG then
        if len != TRANSFER_FEE_CONFIG_LEN || found.Some? then None
        else Scan(data, at + 4 + len, Some(at + 4))
      else Scan(data, at + 4 + len, found)
  }

  /** The base of a mint with extensions: the padding and the account type. */
  predicate HasMintBase(data: seq<u8>) {
    && |data| != MULTISIG_LEN
    && |data| > ACCOUNT_TYPE
    && data[ACCOUNT_TYPE] == MINT
    && IsZero(data[MINT_LEN..ACCOUNT_TYPE])
  }

  /** Where the transfer fee stands, in a mint that decodes to the end. */
  function FeeAt(data: seq<u8>): Option<nat> {
    if HasMintBase(data) then Scan(data, ACCOUNT_TYPE + 1, None) else None
  }

  function SetU64(data: seq<u8>, at: nat, x: u64): seq<u8>
    requires at + 8 <= |data|
    ensures |SetU64(data, at, x)| == |data|
  {
    data[..at] + ToLE(x, 8) + data[at + 8..]
  }

  /** One epoch field, moved back. */
  function MoveEpoch(data: seq<u8>, at: nat, source: u64): (moved: seq<u8>)
    requires at + 8 <= |data|
    ensures |moved| == |data|
  {
    SetU64(data, at, SaturatingSub(U64At(data, at), source))
  }

  function BothMoved(data: seq<u8>, value: nat, source: u64): seq<u8>
    requires value + TRANSFER_FEE_CONFIG_LEN <= |data|
  {
    MoveEpoch(MoveEpoch(data, value + OLDER_EPOCH, source), value + NEWER_EPOCH, source)
  }

  function RebasedFees(data: seq<u8>, source: u64): seq<u8> {
    match FeeAt(data)
    case None => data
    case Some(value) =>
      if value + TRANSFER_FEE_CONFIG_LEN > |data| then data
      else BothMoved(data, value, source)
  }

  lemma {:induction false} ScanIsInside(data: seq<u8>, at: nat, found: Option<nat>)
    requires at <= |data|
    requires found.Some? ==> found.value + TRANSFER_FEE_CONFIG_LEN <= at
    ensures var value := Scan(data, at, found);
            && (value.Some? ==> value.value + TRANSFER_FEE_CONFIG_LEN <= |data|)
            && (found.Some? && value.Some? ==> value == found)
            && (found.None? && value.Some? ==> at + 4 <= value.value)
    decreases |data| - at
  {
    if |data| - at >= 4 {
      var kind, len := U16At(data, at), U16At(data, at + 2);
      hide U16At;
      if kind != 0 && at + 4 + len <= |data| {
        ScanIsInside(data, at + 4 + len, found);
        if kind == TRANSFER_FEE_CONFIG && len == TRANSFER_FEE_CONFIG_LEN {
          ScanIsInside(data, at + 4 + len, Some(at + 4));
        }
      }
    }
  }

  // --------------------------------------------------------------- the method

  method WriteU64(data: array<u8>, at: nat, x: u64)
    requires at + 8 <= data.Length
    modifies data
    ensures data[..] == SetU64(old(data[..]), at, x)
  {
    hide ToLE;
    var bytes := ToLE(x, 8);
    for i := 0 to 8
      invariant forall k :: 0 <= k < i ==> data[at + k] == bytes[k]
      invariant forall k :: 0 <= k < data.Length && !(at <= k < at + i) ==> data[k] == old(data[k])
    {
      data[at + i] := bytes[i];
    }
    assert data[at..at + 8] == bytes;
  }

  method FindFee(data: array<u8>) returns (fee: Option<nat>)
    ensures fee == FeeAt(data[..])
  {
    ghost var bytes := data[..];
    if data.Length == MULTISIG_LEN || data.Length <= ACCOUNT_TYPE || data[ACCOUNT_TYPE] != MINT
       || !IsZero(data[MINT_LEN..ACCOUNT_TYPE])
    {
      return None;
    }
    fee := None;
    var at := ACCOUNT_TYPE + 1;
    while at < data.Length
      invariant at <= data.Length
      invariant Scan(bytes, at, fee) == FeeAt(bytes)
      decreases data.Length - at
    {
      if data.Length - at == 2 {
        if !IsZero(data[at..]) {
          return None;
        }
        break;
      }
      if data.Length - at < 4 {
        return None;
      }
      var kind, len := U16At(data[..], at), U16At(data[..], at + 2);
      if kind == 0 {
        if !IsZero(data[at..]) {
          return None;
        }
        break;
      }
      if at + 4 + len > data.Length {
        return None;
      }
      if kind == TRANSFER_FEE_CONFIG {
        if len != TRANSFER_FEE_CONFIG_LEN || fee.Some? {
          return None;
        }
        fee := Some(at + 4);
      }
      at := at + 4 + len;
    }
  }

  method RebaseTransferFees(data: array<u8>, source: u64)
    modifies data
    ensures data[..] == RebasedFees(old(data[..]), source)
  {
    hide SetU64; hide U64At; hide Scan;
    var fee := FindFee(data);
    if fee.None? {
      return;
    }
    var value := fee.value;
    ScanIsInside(data[..], ACCOUNT_TYPE + 1, None);
    var older := U64At(data[..], value + OLDER_EPOCH);
    WriteU64(data, value + OLDER_EPOCH, SaturatingSub(older, source));
    var newer := U64At(data[..], value + NEWER_EPOCH);
    WriteU64(data, value + NEWER_EPOCH, SaturatingSub(newer, source));
  }

  // -------------------------------------------- the loop reads written lists

  lemma {:induction false} U16Is(data: seq<u8>, at: nat, x: u16)
    requires at + 2 <= |data| && data[at..at + 2] == ToLE(x, 2)
    ensures U16At(data, at) == x
  {
    assert Pow256(2) == 65536;
    LERoundTrip(x, 2);
  }

  /** A head and its value are one entry of a written list. */
  lemma {:induction false} HeadIs(data: seq<u8>, at: nat)
    requires at + 4 <= |data| && at + 4 + U16At(data, at + 2) <= |data|
    ensures var end := at + 4 + U16At(data, at + 2);
            data[at..] == Entry(Extension(U16At(data, at), data[at + 4..end])) + data[end..]
  {
    LEOfFromLE(data[at..at + 2]);
    LEOfFromLE(data[at + 2..at + 4]);
    hide ToLE; hide FromLE;
  }

  lemma {:induction false} HeadReads(data: seq<u8>, at: nat, x: Extension, rest: seq<u8>)
    requires at <= |data| && data[at..] == Entry(x) + rest && |x.value| <= U16_MAX
    ensures at + 4 + |x.value| <= |data|
    ensures U16At(data, at) == x.kind && U16At(data, at + 2) == |x.value|
    ensures data[at + 4 + |x.value|..] == rest
  {
    hide ToLE; hide FromLE;
    var here, head := data[at..], Entry(x);
    assert data[at..at + 2] == here[..2] == ToLE(x.kind, 2);
    assert data[at + 2..at + 4] == here[2..4] == ToLE(|x.value|, 2);
    assert data[at + 4 + |x.value|..] == here[4 + |x.value|..] == rest;
    U16Is(data, at, x.kind);
    U16Is(data, at + 2, |x.value|);
  }

  lemma {:induction false} ListsCons(x: Extension, rest: seq<u8>, list: seq<Extension>)
    requires x.kind != 0 && |x.value| <= U16_MAX
    ensures Lists(Entry(x) + rest, [x] + list) <==> Lists(rest, list)
  {
    assert ([x] + list)[1..] == list;
    var bytes, n, m := Entry(x) + rest, |Entry(x)|, |Entries(list)|;
    assert Entries([x] + list) == Entry(x) + Entries(list);
    assert CanHold([x] + list) <==> CanHold(list) by {
      assert forall i :: 0 <= i < |list| ==> list[i] == ([x] + list)[i + 1];
    }
    hide Entry; hide CanHold; hide Unused;
    if m <= |rest| {
      assert bytes[n + m..] == rest[m..];
      assert bytes[..n + m] == Entry(x) + rest[..m];
      if bytes[..n + m] == Entry(x) + Entries(list) {
        assert rest[..m] == bytes[..n + m][n..] == Entries(list);
      }
    }
  }

  lemma {:induction false} NoFeeCons(x: Extension, list: seq<Extension>)
    ensures NoFee([x] + list) <==> x.kind != TRANSFER_FEE_CONFIG && NoFee(list)
    ensures FeeOf([x] + list)
         == if x.kind == TRANSFER_FEE_CONFIG then
              (if |x.value| == TRANSFER_FEE_CONFIG_LEN && NoFee(list) then Some(4) else None)
            else if FeeOf(list).None? then None else Some(|Entry(x)| + FeeOf(list).value)
  {
    var all := [x] + list;
    hide Entry;
    assert all[0] == x && all[1..] == list;
    assert forall i :: 0 <= i < |list| ==> list[i] == all[i + 1];
    assert forall j :: 1 <= j < |all| ==> all[j] == list[j - 1];
  }

  lemma {:induction false} NoFeeNoValue(list: seq<Extension>)
    requires NoFee(list)
    ensures FeeOf(list).None?
  {
    if list != [] { NoFeeNoValue(list[1..]); }
  }

  /** What the loop finds in a written list. */
  ghost function Finds(list: seq<Extension>, at: nat, found: Option<nat>): Option<nat> {
    if found.Some? then (if NoFee(list) then found else None)
    else if FeeOf(list).Some? then Some(at + FeeOf(list).value)
    else None
  }

  lemma {:induction false} ListsHead(bytes: seq<u8>, list: seq<Extension>) returns (rest: seq<u8>)
    requires Lists(bytes, list) && list != []
    ensures bytes == Entry(list[0]) + rest && Lists(rest, list[1..])
    ensures list[0].kind != 0 && |list[0].value| <= U16_MAX
  {
    rest := bytes[|Entry(list[0])|..];
    assert bytes == Entry(list[0]) + rest && list == [list[0]] + list[1..];
    hide Entry;
    ListsCons(list[0], rest, list[1..]);
  }

  lemma {:induction false} ScanReads(data: seq<u8>, at: nat, found: Option<nat>, list: seq<Extension>)
    requires at <= |data| && Lists(data[at..], list)
    ensures Scan(data, at, found) == Finds(list, at, found)
    decreases |list|
  {
    hide Lists; hide Entry; hide Scan; hide NoFee; hide FeeOf;
    if list == [] {
      ScanEnds(data, at, found);
    } else {
      var x, tail := list[0], list[1..];
      var rest := ListsHead(data[at..], list);
      assert list == [x] + tail;
      NoFeeCons(x, tail);
      ScanStep(data, at, found, x, rest);
      ScanReads(data, at + 4 + |x.value|, found, tail);
      ScanReads(data, at + 4 + |x.value|, Some(at + 4), tail);
    }
  }

  lemma {:induction false} ScanStep(data: seq<u8>, at: nat, found: Option<nat>, x: Extension, rest: seq<u8>)
    requires at <= |data| && data[at..] == Entry(x) + rest && x.kind != 0 && |x.value| <= U16_MAX
    ensures at + 4 + |x.value| <= |data| && data[at + 4 + |x.value|..] == rest
    ensures Scan(data, at, found)
         == if x.kind == TRANSFER_FEE_CONFIG then
              (if |x.value| != TRANSFER_FEE_CONFIG_LEN || found.Some? then None
               else Scan(data, at + 4 + |x.value|, Some(at + 4)))
            else Scan(data, at + 4 + |x.value|, found)
  {
    HeadReads(data, at, x, rest);
    hide U16At; hide Entry;
  }

  lemma {:induction false} ScanEnds(data: seq<u8>, at: nat, found: Option<nat>)
    requires at <= |data| && Lists(data[at..], [])
    ensures Scan(data, at, found) == found && Finds([], at, found) == found
  {
    assert Entries([]) == [];
    var bytes := data[at..];
    assert bytes[0..] == bytes;
    assert AllZero(bytes);
    if |bytes| >= 4 {
      assert data[at..at + 2] == [0, 0] by { assert data[at] == bytes[0] && data[at + 1] == bytes[1]; }
      assert ToLE(0, 2) == [0, 0];
      U16Is(data, at, 0);
    }
  }

  /** A loop that finds something has read a written list. */
  lemma {:induction false} ScanHasRead(data: seq<u8>, at: nat, found: Option<nat>) returns (list: seq<Extension>)
    requires at <= |data| && Scan(data, at, found).Some?
    ensures Lists(data[at..], list)
    decreases |data| - at
  {
    if at == |data| || |data| - at == 2 || U16At(data, at) == 0 {
      list := [];
      assert Entries([]) == [];
      assert data[at..][0..] == data[at..];
    } else {
      var kind, end := U16At(data, at), at + 4 + U16At(data, at + 2);
      var x := Extension(kind, data[at + 4..end]);
      HeadIs(data, at);
      hide U16At; hide Lists; hide Entry;
      var rest := ScanHasRead(data, end, if kind == TRANSFER_FEE_CONFIG then Some(at + 4) else found);
      ListsCons(x, data[end..], rest);
      list := [x] + rest;
    }
  }

  /** The fee that the mint `data` holds, in terms of its extension list. */
  ghost predicate HoldsFee(data: seq<u8>, list: seq<Extension>, value: nat) {
    && HasMintBase(data)
    && Lists(data[ACCOUNT_TYPE + 1..], list)
    && FeeOf(list).Some? && value == ACCOUNT_TYPE + 1 + FeeOf(list).value
  }

  /** The loop finds a transfer fee exactly when the base is the base of a mint
      and the rest is a written extension list with one fee of its length. */
  lemma {:induction false} FeeAtMeans(data: seq<u8>, value: nat)
    ensures FeeAt(data) == Some(value) <==> exists list :: HoldsFee(data, list, value)
  {
    if HasMintBase(data) {
      var at := ACCOUNT_TYPE + 1;
      hide Lists; hide FeeOf; hide Scan; hide HasMintBase;
      if FeeAt(data) == Some(value) {
        var list := ScanHasRead(data, at, None);
        ScanReads(data, at, None, list);
        assert HoldsFee(data, list, value);
      }
      if list :| HoldsFee(data, list, value) {
        ScanReads(data, at, None, list);
      }
    }
  }

  // ------------------------------------------------- only the epochs change

  /** Two mints that agree outside the bytes from `low` to `high`. */
  ghost predicate Agree(a: seq<u8>, b: seq<u8>, low: nat, high: nat) {
    |a| == |b| && forall i :: 0 <= i < |a| && !(low <= i < high) ==> a[i] == b[i]
  }

  lemma {:induction false} ScanSame(a: seq<u8>, b: seq<u8>, at: nat, found: Option<nat>)
    requires at <= |a| == |b| && a[at..] == b[at..]
    ensures Scan(a, at, found) == Scan(b, at, found)
    decreases |a| - at
  {
    if |a| - at >= 4 {
      assert a[at..at + 2] == a[at..][..2] && b[at..at + 2] == b[at..][..2];
      assert a[at + 2..at + 4] == a[at..][2..4] && b[at + 2..at + 4] == b[at..][2..4];
      var kind, end := U16At(a, at), at + 4 + U16At(a, at + 2);
      assert kind == U16At(b, at) && end == at + 4 + U16At(b, at + 2);
      hide U16At;
      if kind != 0 && end <= |a| {
        assert a[end..] == a[at..][end - at..] == b[end..];
        ScanSame(a, b, end, if kind == TRANSFER_FEE_CONFIG then Some(at + 4) else found);
      }
    }
  }

  /** The loop never looks at the value of the fee. */
  lemma {:induction false} ScanStays(a: seq<u8>, b: seq<u8>, at: nat, value: nat)
    requires at <= |a| && Scan(a, at, None) == Some(value)
    requires Agree(a, b, value, value + TRANSFER_FEE_CONFIG_LEN)
    ensures Scan(b, at, None) == Some(value)
    decreases |a| - at
  {
    ScanIsInside(a, at, None);
    assert a[at..at + 2] == b[at..at + 2] && a[at + 2..at + 4] == b[at + 2..at + 4];
    var kind, end := U16At(a, at), at + 4 + U16At(a, at + 2);
    assert kind == U16At(b, at) && end == at + 4 + U16At(b, at + 2);
    hide U16At;
    if kind == TRANSFER_FEE_CONFIG {
      ScanIsInside(a, end, Some(at + 4));
      assert value == at + 4 && end == value + TRANSFER_FEE_CONFIG_LEN;
      assert a[end..] == b[end..];
      ScanSame(a, b, end, Some(at + 4));
    } else {
      ScanStays(a, b, end, value);
    }
  }

  lemma {:induction false} SetU64Is(data: seq<u8>, at: nat, x: u64)
    requires at + 8 <= |data|
    ensures Agree(data, SetU64(data, at, x), at, at + 8)
    ensures U64At(SetU64(data, at, x), at) == x
  {
    hide ToLE;
    assert SetU64(data, at, x)[at..at + 8] == ToLE(x, 8);
    U64AtIs(SetU64(data, at, x), at, x);
  }

  lemma {:induction false} U64Same(a: seq<u8>, b: seq<u8>, at: nat, low: nat, high: nat)
    requires Agree(a, b, low, high) && at + 8 <= |a| && (at + 8 <= low || high <= at)
    ensures U64At(a, at) == U64At(b, at)
  {
    assert a[at..at + 8] == b[at..at + 8];
  }

  /** The two epochs of the fee at `value` moved back, and nothing else moved. */
  ghost predicate EpochsMoved(before: seq<u8>, after: seq<u8>, value: nat, source: u64) {
    && value + TRANSFER_FEE_CONFIG_LEN <= |before| == |after|
    && (forall i :: 0 <= i < |before| ==> InEpochs(value, i) || before[i] == after[i])
    && U64At(after, value + OLDER_EPOCH) == Max(0, U64At(before, value + OLDER_EPOCH) - source)
    && U64At(after, value + NEWER_EPOCH) == Max(0, U64At(before, value + NEWER_EPOCH) - source)
  }

  ghost predicate InEpochs(value: nat, i: nat) {
    || value + OLDER_EPOCH <= i < value + OLDER_EPOCH + 8
    || value + NEWER_EPOCH <= i < value + NEWER_EPOCH + 8
  }

  /** A mint that does not decode stays as it is. One that does still decodes,
      with the same fee value, and only its two epochs changed. */
  lemma {:induction false} OnlyTheEpochsMove(data: seq<u8>, source: u64)
    ensures FeeAt(data).None? ==> RebasedFees(data, source) == data
    ensures FeeAt(RebasedFees(data, source)) == FeeAt(data)
    ensures FeeAt(data).Some? ==> EpochsMoved(data, RebasedFees(data, source), FeeAt(data).value, source)
  {
    if FeeAt(data).Some? {
      var value := FeeAt(data).value;
      ScanIsInside(data, ACCOUNT_TYPE + 1, None);
      BothEpochsMove(data, value, source);
      assert RebasedFees(data, source) == BothMoved(data, value, source);
      hide RebasedFees; hide BothMoved; hide Scan; hide FeeAt; hide U64At;
      StillDecodes(data, RebasedFees(data, source), value);
    }
  }

  lemma {:induction false} BothEpochsMove(data: seq<u8>, value: nat, source: u64)
    requires value + TRANSFER_FEE_CONFIG_LEN <= |data|
    ensures EpochsMoved(data, BothMoved(data, value, source), value, source)
  {
    hide SetU64;
    var older, newer := value + OLDER_EPOCH, value + NEWER_EPOCH;
    var once := MoveEpoch(data, older, source);
    var after := MoveEpoch(once, newer, source);
    SetU64Is(data, older, SaturatingSub(U64At(data, older), source));
    SetU64Is(once, newer, SaturatingSub(U64At(once, newer), source));
    hide U64At;
    U64Same(data, once, newer, older, older + 8);
    U64Same(once, after, older, newer, newer + 8);
  }

  lemma {:induction false} StillDecodes(data: seq<u8>, after: seq<u8>, value: nat)
    requires FeeAt(data) == Some(value) && Agree(data, after, value, value + TRANSFER_FEE_CONFIG_LEN)
    ensures FeeAt(after) == Some(value)
  {
    ScanIsInside(data, ACCOUNT_TYPE + 1, None);
    ScanStays(data, after, ACCOUNT_TYPE + 1, value);
    hide Scan;
    assert data[MINT_LEN..ACCOUNT_TYPE] == after[MINT_LEN..ACCOUNT_TYPE];
  }

  // ------------------------------------------------------- the fee in force

  datatype Fee = Fee(maximum: u64, basisPoints: u16)

  /** The rule of Token-2022: the newer fee holds from its epoch on. */
  function FeeInForce(data: seq<u8>, value: nat, epoch: nat): Fee
    requires value + TRANSFER_FEE_CONFIG_LEN <= |data|
  {
    if epoch >= U64At(data, value + NEWER_EPOCH)
    then Fee(U64At(data, value + 98), U16At(data, value + 106))
    else Fee(U64At(data, value + 80), U16At(data, value + 88))
  }

  lemma {:induction false} FeesStay(before: seq<u8>, after: seq<u8>, value: nat, source: u64)
    requires EpochsMoved(before, after, value, source)
    ensures U64At(after, value + 98) == U64At(before, value + 98) && U16At(after, value + 106) == U16At(before, value + 106)
    ensures U64At(after, value + 80) == U64At(before, value + 80) && U16At(after, value + 88) == U16At(before, value + 88)
  {
    assert after[value + 98..value + 106] == before[value + 98..value + 106];
    assert after[value + 106..value + 108] == before[value + 106..value + 108];
    assert after[value + 80..value + 88] == before[value + 80..value + 88];
    assert after[value + 88..value + 90] == before[value + 88..value + 90];
  }

  /** The fee in force at an epoch of the new chain is the one in force at the
      same distance from the halt on the old chain. */
  lemma {:induction false} FeeInForceStays(data: seq<u8>, source: u64, e: nat)
    requires FeeAt(data).Some?
    ensures var value, after := FeeAt(data).value, RebasedFees(data, source);
            && value + TRANSFER_FEE_CONFIG_LEN <= |data| == |after|
            && FeeInForce(after, value, e) == FeeInForce(data, value, source + e)
  {
    OnlyTheEpochsMove(data, source);
    hide RebasedFees; hide FeeAt;
    var value, after := FeeAt(data).value, RebasedFees(data, source);
    FeesStay(data, after, value, source);
    hide U64At; hide U16At;
  }

  /** Two moves are one, byte for byte. */
  lemma {:induction false} TwoMovesAreOne(data: seq<u8>, s: u64, t: u64)
    requires s + t <= U64_MAX
    ensures RebasedFees(RebasedFees(data, s), t) == RebasedFees(data, s + t)
  {
    hide RebasedFees; hide FeeAt; hide EpochsMoved;
    OnlyTheEpochsMove(data, s);
    OnlyTheEpochsMove(data, s + t);
    OnlyTheEpochsMove(RebasedFees(data, s), t);
    if FeeAt(data).Some? {
      MovedAreEqual(data, RebasedFees(data, s), RebasedFees(RebasedFees(data, s), t), RebasedFees(data, s + t),
                    FeeAt(data).value, s, t);
    }
  }

  lemma {:induction false} MovedAreEqual(
    data: seq<u8>, once: seq<u8>, twice: seq<u8>, straight: seq<u8>, value: nat, s: u64, t: u64)
    requires s + t <= U64_MAX && EpochsMoved(data, once, value, s) && EpochsMoved(once, twice, value, t)
    requires EpochsMoved(data, straight, value, s + t)
    ensures twice == straight
  {
    SameBytes(twice, straight, value + OLDER_EPOCH);
    SameBytes(twice, straight, value + NEWER_EPOCH);
    hide U64At;
    forall i | 0 <= i < |twice| ensures twice[i] == straight[i] {
      if InEpochs(value, i) {
        if i < value + OLDER_EPOCH + 8 {
          assert twice[i] == twice[value + OLDER_EPOCH..value + OLDER_EPOCH + 8][i - value - OLDER_EPOCH];
        } else {
          assert twice[i] == twice[value + NEWER_EPOCH..value + NEWER_EPOCH + 8][i - value - NEWER_EPOCH];
        }
      }
    }
  }

  lemma {:induction false} SameBytes(a: seq<u8>, b: seq<u8>, at: nat)
    requires at + 8 <= |a| && at + 8 <= |b| && U64At(a, at) == U64At(b, at)
    ensures a[at..at + 8] == b[at..at + 8]
  {
    LEOfFromLE(a[at..at + 8]);
    LEOfFromLE(b[at..at + 8]);
  }
}
