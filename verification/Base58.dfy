/** The base58 text of a 32-byte key: `b58encode` and `b58decode`
    (genesis/dex_accounts.py). */
module Base58 {
  import opened Prelude
  import opened Bytes

  // ---------------------------------------------------------------- alphabet

  const ROW1 := "123456789"
  const ROW2 := "ABCDEFGH"
  const ROW3 := "JKLMN"
  const ROW4 := "PQRSTUVWXYZ"
  const ROW5 := "abcdefghijk"
  const ROW6 := "mnopqrstuvwxyz"

  /** Digits, upper case without I and O, lower case without l. */
  const ALPHABET: string := ROW1 + ROW2 + ROW3 + ROW4 + ROW5 + ROW6

  /** `ALPHABET.index(c)`, or `None` for a character outside. */
  function IndexOf(c: char, i: nat): (index: Option<nat>)
    ensures index.Some? ==> i <= index.value < |ALPHABET| && ALPHABET[index.value] == c
    ensures index.None? ==> forall k :: i <= k < |ALPHABET| ==> ALPHABET[k] != c
    decreases |ALPHABET| - i
  {
    if i >= |ALPHABET| then None else if ALPHABET[i] == c then Some(i) else IndexOf(c, i + 1)
  }

  function CodeOf(d: nat): int {
    if d < 9 then 49 + d else if d < 17 then 56 + d else if d < 22 then 57 + d
    else if d < 33 then 58 + d else if d < 44 then 64 + d else 65 + d
  }

  /** Six rows of the lengths of the alphabet, each of which counts up. */
  lemma {:induction false} RowsJoined(a: string, b: string, c: string, d: string, e: string, f: string, i: nat)
    requires |a| == 9 && |b| == 8 && |c| == 5 && |d| == 11 && |e| == 11 && |f| == 14 && i < 58
    ensures var all := a + b + c + d + e + f;
            |all| == 58
            && all[i] == if i < 9 then a[i] else if i < 17 then b[i - 9] else if i < 22 then c[i - 17]
                         else if i < 33 then d[i - 22] else if i < 44 then e[i - 33] else f[i - 44]
  {
  }

  /** The alphabet has 58 characters, in the order of their codes. */
  lemma {:induction false} CharacterAt(d: nat)
    requires d < 58
    ensures |ALPHABET| == 58 && ALPHABET[d] as int == CodeOf(d)
  {
    RowsJoined(ROW1, ROW2, ROW3, ROW4, ROW5, ROW6, d);
  }

  /** A character names one digit. */
  lemma {:induction false} IndexIs(d: nat)
    requires d < 58
    ensures |ALPHABET| == 58 && IndexOf(ALPHABET[d], 0) == Some(d)
  {
    hide CodeOf;
    CharacterAt(d);
    var index := IndexOf(ALPHABET[d], 0);
    hide IndexOf;
    CharacterAt(index.value);
    CodesDiffer(d, index.value);
  }

  lemma {:induction false} CodesDiffer(d: nat, e: nat)
    ensures CodeOf(d) == CodeOf(e) && d < 58 && e < 58 ==> d == e
  {
  }

  // ------------------------------------------------------------------ printer

  function Digit(d: nat): char
    requires d < 58
  {
    CharacterAt(d);
    ALPHABET[d]
  }

  /** The base58 digits of `n`, most significant first, none for 0. */
  function Text(n: nat): string {
    if n == 0 then "" else Text(n / 58) + [Digit(n % 58)]
  }

  function Ones(n: nat): (ones: string)
    ensures |ones| == n
    ensures forall i :: 0 <= i < n ==> ones[i] == '1'
  {
    seq(n, _ => '1')
  }

  function LeadingZeros(raw: seq<u8>): (n: nat)
    ensures n <= |raw|
    ensures forall i :: 0 <= i < n ==> raw[i] == 0
    ensures n < |raw| ==> raw[n] != 0
  {
    if raw != [] && raw[0] == 0 then 1 + LeadingZeros(raw[1..]) else 0
  }

  function Encoded(raw: seq<u8>): string {
    Ones(LeadingZeros(raw)) + Text(FromBE(raw))
  }

  method B58Encode(raw: seq<u8>) returns (text: string)
    ensures text == Encoded(raw)
  {
    var number := FromBE(raw);
    text := "";
    assert Text(number) + text == Text(number);
    while number > 0
      invariant Text(number) + text == Text(FromBE(raw))
    {
      assert Text(number) + text == Text(number / 58) + ([Digit(number % 58)] + text);
      text := [Digit(number % 58)] + text;
      number := number / 58;
    }
    assert Text(0) + text == text;
    text := Ones(LeadingZeros(raw)) + text;
  }

  // ------------------------------------------------------------------- parser

  /** `ValueError` for the form, `OverflowError`, `ValueError` for the text. */
  datatype DecodeError = NotBase58 | TooBig | NotCanonical

  const TWO_256: nat := 0x1_00000000_00000000_00000000_00000000_00000000_00000000_00000000_00000000

  predicate IsBase58(text: string) {
    forall i :: 0 <= i < |text| ==> IndexOf(text[i], 0).Some?
  }

  function Value(text: string): (n: nat)
    requires IsBase58(text)
  {
    if text == "" then 0
    else Value(text[..|text| - 1]) * 58 + IndexOf(text[|text| - 1], 0).value
  }

  function Decoded(text: string): Result<seq<u8>, DecodeError> {
    if !(32 <= |text| <= 44) || !IsBase58(text) then Err(NotBase58)
    else if Value(text) >= TWO_256 then Err(TooBig)
    else
      var body := ToBE(Value(text), 32);
      if Encoded(body) != text then Err(NotCanonical) else Ok(body)
  }

  method B58Decode(text: string) returns (body: Result<seq<u8>, DecodeError>)
    ensures body == Decoded(text)
  {
    if !(32 <= |text| <= 44) || !IsBase58(text) {
      return Err(NotBase58);
    }
    var number := 0;
    for i := 0 to |text|
      invariant IsBase58(text[..i]) && number == Value(text[..i])
    {
      assert text[..i + 1][..i] == text[..i];
      number := number * 58 + IndexOf(text[i], 0).value;
    }
    assert text[..|text|] == text;
    if number >= TWO_256 {
      return Err(TooBig);
    }
    var bytes := ToBE(number, 32);
    var again := B58Encode(bytes);
    if again != text {
      return Err(NotCanonical);
    }
    return Ok(bytes);
  }

  // ------------------------------------------------------- the digits read back

  lemma {:induction false} OnesAreZero(n: nat)
    ensures IsBase58(Ones(n)) && Value(Ones(n)) == 0
  {
    IndexIs(0);
    CharacterAt(0);
    if n > 0 {
      OnesAreZero(n - 1);
      assert Ones(n)[..n - 1] == Ones(n - 1);
    }
  }

  /** The printed digits give the number again, with any zeros before them. */
  lemma {:induction false} TextReads(zeros: nat, n: nat)
    ensures IsBase58(Ones(zeros) + Text(n)) && Value(Ones(zeros) + Text(n)) == n
  {
    var text := Ones(zeros) + Text(n);
    if n == 0 {
      OnesAreZero(zeros);
      assert text == Ones(zeros);
    } else {
      TextReads(zeros, n / 58);
      var front := Ones(zeros) + Text(n / 58);
      IndexIs(n % 58);
      hide IndexOf; hide Ones;
      assert text == front + [Digit(n % 58)];
      assert text[..|text| - 1] == front;
    }
  }

  // --------------------------------------------------------- the text length

  ghost function Pow58(n: nat): (p: nat)
    ensures p >= 1
  {
    if n == 0 then 1 else 58 * Pow58(n - 1)
  }

  lemma {:induction false} Pow58Add(a: nat, b: nat)
    ensures Pow58(a + b) == Pow58(a) * Pow58(b)
  {
    if a > 0 { Pow58Add(a - 1, b); }
  }

  lemma {:induction false} Pow256Add(a: nat, b: nat)
    ensures Pow256(a + b) == Pow256(a) * Pow256(b)
  {
    if a > 0 { Pow256Add(a - 1, b); }
  }

  lemma {:induction false} Pow256Is32()
    ensures Pow256(32) == TWO_256
  {
    Pow256Eight();
    Pow256Add(8, 8);
    Pow256Add(16, 16);
  }

  /** 44 characters are enough for 32 bytes. */
  lemma {:induction false} RoomFor32()
    ensures Pow58(44) >= Pow256(32)
  {
    Pow256Is32();
    hide Pow256;
    assert Pow58(2) == 58 * 58;
    Pow58Add(2, 2);
    Pow58Add(4, 4);
    Pow58Add(8, 2);
    Pow58Add(10, 1);
    assert Pow58(11) == 24_986_644_000_165_537_792;
    Pow58Add(11, 11);
    Pow58Add(22, 22);
  }

  lemma {:induction false} RoomFor(m: nat)
    requires m <= 32
    ensures Pow58(12 + m) >= Pow256(m)
    decreases 32 - m
  {
    if m == 32 {
      RoomFor32();
    } else {
      RoomFor(m + 1);
      assert Pow58(12 + (m + 1)) == 58 * Pow58(12 + m);
    }
  }

  lemma {:induction false} Pow58IsLess(d: nat, e: nat)
    requires d <= e
    ensures Pow58(d) <= Pow256(d) <= Pow256(e) && Pow58(d) <= Pow58(e)
    decreases e
  {
    if d < e {
      Pow58IsLess(d, e - 1);
    } else if d > 0 {
      Pow58IsLess(d - 1, d - 1);
    }
  }

  lemma {:induction false} TextLength(n: nat)
    ensures n < Pow58(|Text(n)|)
    ensures |Text(n)| > 0 ==> Pow58(|Text(n)| - 1) <= n
  {
    if n > 0 { TextLength(n / 58); }
  }

  lemma {:induction false} DropZero(raw: seq<u8>)
    requires raw != [] && raw[0] == 0
    ensures FromBE(raw) == FromBE(raw[1..])
  {
    if |raw| > 1 {
      DropZero(raw[..|raw| - 1]);
      assert raw[..|raw| - 1][1..] == raw[1..][..|raw| - 2];
    } else {
      assert raw[..0] == [];
    }
  }

  lemma {:induction false} LeadingByte(raw: seq<u8>)
    requires raw != [] && raw[0] != 0
    ensures FromBE(raw) >= Pow256(|raw| - 1)
  {
    if |raw| > 1 { LeadingByte(raw[..|raw| - 1]); }
  }

  /** A number with `m` bytes after its leading zeros has `m` bytes. */
  lemma {:induction false} SizeOf(raw: seq<u8>)
    ensures var m := |raw| - LeadingZeros(raw);
            FromBE(raw) < Pow256(m) && (m > 0 ==> Pow256(m - 1) <= FromBE(raw))
  {
    if raw != [] && raw[0] == 0 {
      DropZero(raw);
      SizeOf(raw[1..]);
    } else {
      FromBEBound(raw);
      if raw != [] { LeadingByte(raw); }
    }
  }

  /** A number of `m` bytes and `d` base58 digits. */
  lemma {:induction false} DigitsFit(n: nat, m: nat, d: nat)
    requires m <= 32 && n < Pow256(m) && (m > 0 ==> Pow256(m - 1) <= n)
    requires n < Pow58(d) && (d > 0 ==> Pow58(d - 1) <= n)
    ensures m <= d <= 12 + m
  {
    hide Pow58; hide Pow256;
    if d < m {
      Pow58IsLess(d, m - 1);
    }
    RoomFor(m);
    if d > 12 + m {
      Pow58IsLess(12 + m, d - 1);
    }
  }

  /** Every 32-byte key has a text of 32 to 44 characters. */
  lemma {:induction false} EncodedLength(key: seq<u8>)
    requires |key| == 32
    ensures 32 <= |Encoded(key)| <= 44
  {
    hide Text; hide LeadingZeros; hide FromBE; hide Pow58; hide Pow256; hide Ones;
    SizeOf(key);
    TextLength(FromBE(key));
    DigitsFit(FromBE(key), 32 - LeadingZeros(key), |Text(FromBE(key))|);
  }

  // ------------------------------------------------------------ main results

  /** The parser undoes the printer, for every key. */
  lemma {:induction false} KeysReadBack(key: seq<u8>)
    requires |key| == 32
    ensures Decoded(Encoded(key)) == Ok(key)
  {
    EncodedLength(key);
    TextReads(LeadingZeros(key), FromBE(key));
    FromBEBound(key);
    Pow256Is32();
    BEOfFromBE(key);
    hide Text; hide LeadingZeros; hide FromBE; hide ToBE; hide IsBase58; hide Ones;
  }

  /** The parser accepts a text exactly when it is the text of a key, so no key
      has two texts. */
  lemma {:induction false} OnlyCanonicalText(text: string, key: seq<u8>)
    ensures Decoded(text) == Ok(key) <==> |key| == 32 && Encoded(key) == text
  {
    if |key| == 32 && Encoded(key) == text {
      KeysReadBack(key);
    }
    hide Encoded; hide ToBE; hide IsBase58;
  }
}
