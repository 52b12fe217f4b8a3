/** The mint check of the catalog import: accumulate the Base58 value, count leading '1's, and
    demand exactly 32 bytes. */
module MintCheck {
  import opened Common
  import opened Numerals

  /** The alphabet in order: 1-9, A-H, J-N, P-Z, a-k, m-z. */
  function Letter(d: nat): char
    requires d < 58
  {
    if d < 9 then '1' + d as char
    else if d < 17 then 'A' + (d - 9) as char
    else if d < 22 then 'J' + (d - 17) as char
    else if d < 33 then 'P' + (d - 22) as char
    else if d < 44 then 'a' + (d - 33) as char
    else 'm' + (d - 44) as char
  }

  predicate Alphanumeric(c: char) { '0' <= c <= '9' || 'A' <= c <= 'Z' || 'a' <= c <= 'z' }

  /** The letters and digits but for 0, O, I and l, in ascending order. */
  lemma Alphabet(c: char, d: nat)
    requires d < 58
    ensures Alphanumeric(c) && c !in {'0', 'O', 'I', 'l'} <==> exists k: nat :: k < 58 && Letter(k) == c
    ensures forall k: nat :: d < k < 58 ==> Letter(d) < Letter(k)
  {
    if Alphanumeric(c) && c !in {'0', 'O', 'I', 'l'} {
      var n := c as int;
      var k := if n < 58 then n - 49 else if n < 73 then n - 56 else if n < 79 then n - 57 else if n < 91 then n - 58
               else if n < 108 then n - 64 else n - 65;
      assert k >= 0 && Letter(k) == c;
    }
  }

  function IndexFrom(c: char, i: nat): (r: Option<nat>)
    requires i <= 58
    ensures r.Some? ==> r.value < 58 && Letter(r.value) == c
    ensures r.None? ==> forall k :: i <= k < 58 ==> Letter(k) != c
    decreases 58 - i
  {
    if i == 58 then None else if Letter(i) == c then Some(i) else IndexFrom(c, i + 1)
  }

  /** `alphabet.index`; `None` is the ValueError. */
  function Index(c: char): Option<nat> { IndexFrom(c, 0) }

  /** The digits a text stands for, and nothing when a character is not in the alphabet. */
  function DigitsOf(text: string): (r: Option<seq<nat>>)
    ensures r.Some? ==> |r.value| == |text| && InBase(r.value, 58) && forall i ::
        0 <= i < |text| ==> Index(text[i]) == Some(r.value[i])
    ensures r.None? ==> exists i :: 0 <= i < |text| && Index(text[i]).None?
  {
    if text == "" then Some([])
    else match (DigitsOf(text[..|text| - 1]), Index(text[|text| - 1]))
      case (Some(front), Some(last)) => Some(front + [last])
      case _ => None
  }

  function BitLength(n: nat): nat { if n == 0 then 0 else 1 + BitLength(n / 2) }

  function Ones(text: string): nat {
    if text != "" && text[0] == '1' then 1 + Ones(text[1..]) else 0
  }

  /** Reading one more character. */
  lemma DigitsSnoc(mint: string, i: nat)
    requires i < |mint| && DigitsOf(mint[..i]).Some?
    ensures DigitsOf(mint[..i + 1]) ==
              if Index(mint[i]).None? then None else Some(DigitsOf(mint[..i]).value + [Index(mint[i]).value])
    ensures Index(mint[i]).Some? ==>
              var before, after := DigitsOf(mint[..i]).value, DigitsOf(mint[..i + 1]).value;
              Value(after, 58) == Value(before, 58) * 58 + Index(mint[i]).value
  {
    hide Index;
    assert mint[..i + 1][..i] == mint[..i];
    if Index(mint[i]).Some? {
      var front, last := DigitsOf(mint[..i]).value, Index(mint[i]).value;
      assert (front + [last])[..|front|] == front;
    }
  }

  /** A foreign character refuses the whole text. */
  lemma ForeignRefuses(mint: string, i: nat)
    requires i < |mint| && Index(mint[i]).None?
    ensures DigitsOf(mint).None?
  {
    hide Index;
  }

  lemma OnesStep(mint: string, k: nat)
    requires k <= |mint|
    ensures Ones(mint[k..]) == if k < |mint| && mint[k] == '1' then 1 + Ones(mint[k + 1..]) else 0
  {
    if k < |mint| {
      assert mint[k..][1..] == mint[k + 1..];
    }
  }

  /** The head of `add`, up to the size test. */
  method CheckMint(mint: string) returns (ok: bool)
    ensures ok <==> Accepted(mint)
  {
    hide BitLength, DigitsOf, Index, Ones, Numerals.Value;
    var value := 0;
    assert mint[..0] == "";
    NothingRead();
    for i := 0 to |mint|
      invariant DigitsOf(mint[..i]).Some? && value == Value(DigitsOf(mint[..i]).value, 58)
    {
      var index := Index(mint[i]);
      if index.None? {
        ForeignRefuses(mint, i);
        return false;
      }
      DigitsSnoc(mint, i);
      value := value * 58 + index.value;
    }
    assert mint[..|mint|] == mint;
    var stripped := 0;
    assert mint[0..] == mint;
    while stripped < |mint| && mint[stripped] == '1'
      invariant stripped <= |mint| && Ones(mint) == stripped + Ones(mint[stripped..])
    {
      OnesStep(mint, stripped);
      stripped := stripped + 1;
    }
    OnesStep(mint, stripped);
    return (BitLength(value) + 7) / 8 + stripped == 32;
  }

  lemma NothingRead()
    ensures DigitsOf("") == Some([]) && Value([], 58) == 0
  {
  }

  // ---------- the encoding ----------

  type Key = bytes: seq<nat> | InBase(bytes, 256)

  function Text(digits: seq<nat>): string
    requires InBase(digits, 58)
  {
    seq(|digits|, i requires 0 <= i < |digits| => Letter(digits[i]))
  }

  /** Base58 encoding: a '1' for every leading zero byte, then the digits of the value. */
  function Encode(key: Key): string { Text(Rebase(key, 256, 58)) }

  function Accepted(mint: string): bool {
    DigitsOf(mint).Some? && (BitLength(Value(DigitsOf(mint).value, 58)) + 7) / 8 + Ones(mint) == 32
  }

  lemma IndexOfLetter(d: nat, i: nat)
    requires i <= d < 58
    ensures IndexFrom(Letter(d), i) == Some(d)
  {
  }

  lemma {:induction false} DigitsOfText(digits: seq<nat>)
    requires InBase(digits, 58)
    ensures DigitsOf(Text(digits)) == Some(digits)
    decreases |digits|
  {
    if digits != [] {
      var n, text := |digits| - 1, Text(digits);
      assert text[..n] == Text(digits[..n]);
      DigitsOfText(digits[..n]);
      IndexOfLetter(digits[n], 0);
      assert digits[..n] + [digits[n]] == digits && text[n] == Letter(digits[n]);
    }
  }

  lemma TextOfDigits(text: string)
    requires DigitsOf(text).Some?
    ensures Text(DigitsOf(text).value) == text
  {
  }

  /** Leading '1's of the text are leading zeros of its digits. */
  lemma {:induction false} OnesAreZeros(digits: seq<nat>)
    requires InBase(digits, 58)
    ensures Ones(Text(digits)) == Leading(digits)
    decreases |digits|
  {
    if digits != [] {
      assert Text(digits)[1..] == Text(digits[1..]);
      OnesAreZeros(digits[1..]);
    }
  }

  lemma BitsOfByte(n: nat)
    requires 0 < n < 256
    ensures 1 <= BitLength(n) <= 8
  {
    assert n / 2 < 128 && n / 2 / 2 < 64 && n / 2 / 2 / 2 < 32 && n / 2 / 2 / 2 / 2 < 16;
    BitsBelow(n, 8);
  }

  lemma {:induction false} BitsBelow(n: nat, k: nat)
    requires n < Pow2(k)
    ensures BitLength(n) <= k
    decreases k
  {
    if k > 0 && n > 0 {
      BitsBelow(n / 2, k - 1);
    }
  }

  lemma {:induction false} BitsShift(n: nat, k: nat)
    requires n >= Pow2(k) && Pow2(k) > 0
    ensures BitLength(n) == k + BitLength(n / Pow2(k))
    decreases k
  {
    if k > 0 {
      BitsShift(n / 2, k - 1);
      assert n / 2 / Pow2(k - 1) == n / (2 * Pow2(k - 1)) by { HalveThenDivide(n, Pow2(k - 1)); }
    }
  }

  lemma HalveThenDivide(n: nat, b: nat)
    requires b > 0
    ensures n / 2 / b == n / (2 * b)
  {
    var q, r := n / 2 / b, n / 2 % b;
    assert n / 2 == q * b + r;
    DivideBack(q, 2 * r + n % 2, 2 * b);
    assert n == q * (2 * b) + (2 * r + n % 2);
  }

  /** Bytes from bits: a value has as many bytes as eight-bit groups. */
  lemma {:induction false} BytesFromBits(value: nat)
    ensures |Digits(value, 256)| == (BitLength(value) + 7) / 8
    decreases value
  {
    if 0 < value < 256 {
      BitsOfByte(value);
      assert Digits(value / 256, 256) == [];
    } else if value >= 256 {
      assert Pow2(8) == 256;
      BitsShift(value, 8);
      BytesFromBits(value / 256);
    }
  }

  /** The size the check computes is the length of the decoded key. */
  lemma SizeIsKeyLength(digits: seq<nat>)
    requires InBase(digits, 58)
    ensures (BitLength(Numerals.Value(digits, 58)) + 7) / 8 + Ones(Text(digits)) == |Rebase(digits, 58, 256)|
  {
    BytesFromBits(Numerals.Value(digits, 58));
    OnesAreZeros(digits);
  }

  /** An accepted text is the encoding of the key it decodes to. */
  lemma AcceptedDecodes(mint: string)
    requires Accepted(mint)
    ensures exists key: Key :: |key| == 32 && Encode(key) == mint
  {
    hide BitLength, Numerals.Value, Rebase, Digits, Ones, Leading, DigitsOf, Letter;
    var digits := DigitsOf(mint).value;
    var key: Key := Rebase(digits, 58, 256);
    TextOfDigits(mint);
    SizeIsKeyLength(digits);
    RebaseBack(digits, 58, 256);
    assert |key| == 32 && Encode(key) == mint;
  }

  /** And the encoding of every 32-byte key is accepted. */
  lemma EncodedIsAccepted(key: Key)
    requires |key| == 32
    ensures Accepted(Encode(key))
  {
    hide BitLength, Numerals.Value, Rebase, Digits, Ones, Leading, DigitsOf, Letter, Text;
    var digits := Rebase(key, 256, 58);
    DigitsOfText(digits);
    RebaseBack(key, 256, 58);
    SizeIsKeyLength(digits);
  }

  /** A text passes exactly when it is the encoding of some 32-byte key. */
  lemma AcceptedIff(mint: string)
    ensures Accepted(mint) <==> exists key: Key :: |key| == 32 && Encode(key) == mint
  {
    hide Accepted, Encode;
    if Accepted(mint) {
      AcceptedDecodes(mint);
    }
    forall key: Key | |key| == 32 && Encode(key) == mint
      ensures Accepted(mint)
    {
      EncodedIsAccepted(key);
    }
  }

  /** Distinct keys, of any lengths, have distinct encodings. */
  lemma EncodingIsInjective(a: Key, b: Key)
    requires Encode(a) == Encode(b)
    ensures a == b
  {
    var x, y := Rebase(a, 256, 58), Rebase(b, 256, 58);
    DigitsOfText(x);
    DigitsOfText(y);
    RebaseBack(a, 256, 58);
    RebaseBack(b, 256, 58);
  }

  /** Leading zero bytes and leading '1's correspond one to one. */
  lemma LeadingOnesStandForZeroBytes(key: Key)
    ensures Ones(Encode(key)) == Leading(key)
  {
    var digits := Rebase(key, 256, 58);
    OnesAreZeros(digits);
    LeadingOf(Leading(key), Digits(Numerals.Value(key, 256), 58));
  }
}
