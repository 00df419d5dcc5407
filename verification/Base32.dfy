/**
 `base32Encode` (packages/server/src/tenants/registry-memory.ts:51-69) keeps its pending bits in a 32-bit number whose
 upper bits fall off. The result is still the regrouping of the whole bit stream into groups of five, as in section 6
 of RFC 4648 without padding, and can be decoded.
 */
module Base32 {
  import opened Collections
  import opened Octets
  import opened Powers

  const ALPHABET := "ABCDEFGHIJKLMNOPQRSTUVWXYZ234567"

  // ---- Bits of a number, most significant first ------------------------------------------------

  function Bits(v: nat, width: nat): (bits: seq<nat>)
    ensures |bits| == width
  {
    if width == 0 then [] else Bits(v / 2, width - 1) + [v % 2]
  }

  function Number(bits: seq<nat>): nat {
    if bits == [] then 0 else 2 * Number(bits[..|bits| - 1]) + bits[|bits| - 1]
  }

  /** `v >>> n` */
  function ShiftRight(v: nat, n: nat): nat {
    if n == 0 then v else ShiftRight(v / 2, n - 1)
  }

  lemma {:induction false} NumberOfBits(v: nat, width: nat)
    requires v < Pow2(width)
    ensures Number(Bits(v, width)) == v
  {
    if width > 0 {
      NumberOfBits(v / 2, width - 1);
      assert Bits(v, width)[..width - 1] == Bits(v / 2, width - 1);
    }
  }

  lemma {:induction false} BitsSplit(v: nat, high: nat, low: nat)
    ensures Bits(v, high + low) == Bits(ShiftRight(v, low), high) + Bits(v, low)
  {
    if low > 0 {
      BitsSplit(v / 2, high, low - 1);
    }
  }

  lemma HalfOfSum(v: nat, a: nat, r: nat)
    requires v == 2 * a + r
    ensures v / 2 == a + r / 2 && v % 2 == r % 2
  {
  }

  /** Only the lower `width` bits of a number matter. */
  lemma {:induction false} BitsOfLow(v: nat, low: nat, upper: nat, width: nat, k: nat)
    requires v == upper * Pow2(k) + low && width <= k
    ensures Bits(v, width) == Bits(low, width)
  {
    if width > 0 {
      var a := upper * Pow2(k - 1);
      assert upper * Pow2(k) == 2 * a;
      HalfOfSum(v, a, low);
      BitsOfLow(v / 2, low / 2, upper, width - 1, k - 1);
    }
  }

  // ---- The bit stream --------------------------------------------------------------------------

  function Stream(bytes: seq<byte>): (bits: seq<nat>)
    ensures |bits| == 8 * |bytes|
  {
    if bytes == [] then [] else Stream(bytes[..|bytes| - 1]) + Bits(bytes[|bytes| - 1] as nat, 8)
  }

  function Zeros(n: nat): (z: seq<nat>)
    ensures |z| == n
  {
    if n == 0 then [] else Zeros(n - 1) + [0]
  }

  /** Groups of five bits from the front; the last one is filled up with zeros. */
  function Groups(bits: seq<nat>): (groups: seq<nat>)
    ensures |groups| == (|bits| + 4) / 5
  {
    if bits == [] then []
    else if |bits| < 5 then [Number(bits + Zeros(5 - |bits|))]
    else [Number(bits[..5])] + Groups(bits[5..])
  }

  function Flat(groups: seq<nat>): (bits: seq<nat>)
    ensures |bits| == 5 * |groups|
  {
    if groups == [] then [] else Flat(groups[..|groups| - 1]) + Bits(groups[|groups| - 1], 5)
  }

  function Letter(g: nat): char
    requires g < 32
  {
    if g < 26 then 'A' + g as char else '2' + (g - 26) as char
  }

  lemma AlphabetLetters(g: nat)
    requires g < 32
    ensures ALPHABET[g] == Letter(g)
  {
  }

  predicate AreGroups(groups: seq<nat>) {
    forall i :: 0 <= i < |groups| ==> groups[i] < 32
  }

  function Letters(groups: seq<nat>): (s: string)
    requires AreGroups(groups)
    ensures |s| == |groups|
  {
    seq(|groups|, i requires 0 <= i < |groups| => Letter(groups[i]))
  }

  // ---- Encoding --------------------------------------------------------------------------------

  const WORD: nat := 0x1_0000_0000

  lemma Low5(x: nat)
    ensures Bits(x, 5) == Bits(x % 32, 5) && Number(Bits(x, 5)) == x % 32
  {
    assert Pow2(5) == 32;
    BitsOfLow(x, x % 32, x / 32, 5, 5);
    NumberOfBits(x % 32, 5);
  }

  lemma {:induction false} ShiftRightAdd(v: nat, m: nat, n: nat)
    ensures ShiftRight(v, m + n) == ShiftRight(ShiftRight(v, m), n)
  {
    if m > 0 {
      ShiftRightAdd(v / 2, m - 1, n);
    }
  }

  lemma ShiftRight2(v: nat)
    ensures ShiftRight(v, 2) == v / 4
  {
    ShiftRightAdd(v, 1, 1);
    assert ShiftRight(v, 1) == v / 2 && ShiftRight(v / 2, 1) == v / 2 / 2;
  }

  lemma ShiftRight4(v: nat)
    ensures ShiftRight(v, 4) == v / 16
  {
    ShiftRight2(v);
    ShiftRight2(v / 4);
    ShiftRightAdd(v, 2, 2);
  }

  lemma ShiftRight8(v: nat)
    ensures ShiftRight(v, 8) == v / 256
  {
    ShiftRight4(v);
    ShiftRight4(v / 16);
    ShiftRightAdd(v, 4, 4);
  }

  lemma Pow2Of8And24()
    ensures Pow2(8) == 256 && Pow2(24) == 0x100_0000
  {
    assert Pow2(8) == 256;
    assert Pow2(16) == 65536;
  }

  /** One byte at the low end of a word, and what its other bits were. */
  lemma WordParts(value: nat, b: byte)
    ensures var next := value * 256 % WORD + b as nat;
      next / 256 == value % 0x100_0000 && next % 256 == b as nat
  {
    assert value * 256 % WORD == value % 0x100_0000 * 256;
  }

  lemma BitsAndByte(next: nat, bits: nat)
    ensures Bits(next, bits + 8) == Bits(next / 256, bits) + Bits(next % 256, 8)
  {
    BitsSplit(next, bits, 8);
    ShiftRight8(next);
    Pow2Of8And24();
    BitsOfLow(next, next % 256, next / 256, 8, 8);
  }

  /** Shifting a byte in: the bits that fall off the word are not pending any more. */
  lemma ShiftedIn(value: nat, bits: nat, b: byte)
    requires bits < 5
    ensures Bits(value * 256 % WORD + b as nat, bits + 8) == Bits(value, bits) + Bits(b as nat, 8)
  {
    WordParts(value, b);
    BitsAndByte(value * 256 % WORD + b as nat, bits);
    Pow2Of8And24();
    BitsOfLow(value, value % 0x100_0000, value / 0x100_0000, bits, 24);
  }

  lemma FlatLast(groups: seq<nat>, g: nat)
    ensures Flat(groups + [g]) == Flat(groups) + Bits(g, 5)
  {
    assert (groups + [g])[..|groups|] == groups;
  }

  lemma LettersLast(groups: seq<nat>, g: nat)
    requires AreGroups(groups) && g < 32
    ensures AreGroups(groups + [g]) && Letters(groups + [g]) == Letters(groups) + [ALPHABET[g]]
  {
    AlphabetLetters(g);
  }

  lemma Rebracket(one: seq<nat>, two: seq<nat>, three: seq<nat>, front: seq<nat>, back: seq<nat>)
    requires front == one + two && back == two + three
    ensures front + three == one + back
  {
  }

  lemma TopFiveBits(value: nat, bits: nat)
    ensures Bits(value, bits + 5) == Bits(ShiftRight(value, bits) % 32, 5) + Bits(value, bits)
  {
    BitsSplit(value, 5, bits);
    Low5(ShiftRight(value, bits));
  }

  /** Emitting one letter moves five bits from the word to the output. */
  lemma Emitted(groups: seq<nat>, value: nat, bits: nat)
    requires AreGroups(groups)
    ensures var g := ShiftRight(value, bits) % 32;
      && AreGroups(groups + [g])
      && Letters(groups + [g]) == Letters(groups) + [ALPHABET[g]]
      && Flat(groups + [g]) + Bits(value, bits) == Flat(groups) + Bits(value, bits + 5)
  {
    var g := ShiftRight(value, bits) % 32;
    TopFiveBits(value, bits);
    LettersLast(groups, g);
    FlatLast(groups, g);
    Rebracket(Flat(groups), Bits(g, 5), Bits(value, bits), Flat(groups + [g]), Bits(value, bits + 5));
  }

  /** `(value << 8) | b` */
  function NextWord(value: nat, b: byte): (next: nat)
    ensures next < WORD
  {
    value * 256 % WORD + b as nat
  }

  lemma StreamLast(bytes: seq<byte>, i: nat)
    requires i < |bytes|
    ensures Stream(bytes[..i + 1]) == Stream(bytes[..i]) + Bits(bytes[i] as nat, 8)
  {
    assert bytes[..i + 1][..i] == bytes[..i];
  }

  lemma NextByte(bytes: seq<byte>, i: nat, groups: seq<nat>, value: nat, bits: nat)
    requires i < |bytes| && bits < 5 && Stream(bytes[..i]) == Flat(groups) + Bits(value, bits)
    ensures Stream(bytes[..i + 1]) == Flat(groups) + Bits(NextWord(value, bytes[i]), bits + 8)
  {
    var last, next := Bits(bytes[i] as nat, 8), Bits(NextWord(value, bytes[i]), bits + 8);
    ShiftedIn(value, bits, bytes[i]);
    StreamLast(bytes, i);
    Rebracket(Flat(groups), Bits(value, bits), last, Stream(bytes[..i]), next);
  }

  /** The inner loop: letters for all complete groups. */
  method EmitGroups(value: nat, pending: nat, ghost before: seq<nat>)
    returns (letters: string, bits: nat, ghost groups: seq<nat>)
    requires AreGroups(before)
    ensures bits < 5 && AreGroups(before + groups) && AreGroups(groups) && letters == Letters(groups)
    ensures Flat(before + groups) + Bits(value, bits) == Flat(before) + Bits(value, pending)
  {
    letters, bits, groups := "", pending, [];
    assert before + groups == before;
    while bits >= 5
      invariant AreGroups(groups) && AreGroups(before + groups) && letters == Letters(groups)
      invariant Flat(before + groups) + Bits(value, bits) == Flat(before) + Bits(value, pending)
    {
      bits := bits - 5;
      Emitted(before + groups, value, bits);
      Emitted(groups, value, bits);
      var g := ShiftRight(value, bits) % 32;
      assert before + groups + [g] == before + (groups + [g]);
      letters := letters + [ALPHABET[g]];
      groups := groups + [g];
    }
  }

  lemma LettersAppend(one: seq<nat>, two: seq<nat>)
    requires AreGroups(one) && AreGroups(two)
    ensures AreGroups(one + two) && Letters(one + two) == Letters(one) + Letters(two)
  {
  }

  /** Between two bytes: the letters written stand for `groups`, and `bits` bits of the stream are pending. */
  ghost predicate IsEncoded(stream: seq<nat>, out: string, groups: seq<nat>, value: nat, bits: nat) {
    bits < 5 && AreGroups(groups) && out == Letters(groups) && stream == Flat(groups) + Bits(value, bits)
  }

  method EncodeByte(ghost bytes: seq<byte>, ghost i: nat, b: byte, out: string, ghost groups: seq<nat>,
      value: nat, bits: nat)
    returns (letters: string, next: nat, left: nat, ghost more: seq<nat>)
    requires i < |bytes| && b == bytes[i] && IsEncoded(Stream(bytes[..i]), out, groups, value, bits)
    ensures next < WORD && IsEncoded(Stream(bytes[..i + 1]), out + letters, groups + more, next, left)
  {
    NextByte(bytes, i, groups, value, bits);
    next := NextWord(value, b);
    letters, left, more := EmitGroups(next, bits + 8, groups);
    LettersAppend(groups, more);
  }

  /** The letter for the bits that are left at the end. */
  method LastLetter(ghost stream: seq<nat>, out: string, ghost groups: seq<nat>, value: nat, bits: nat)
    returns (letter: string)
    requires IsEncoded(stream, out, groups, value, bits)
    ensures AreGroups(Groups(stream)) && out + letter == Letters(Groups(stream))
  {
    FinalGroups(groups, value, bits);
    letter := "";
    if bits > 0 {
      var g := value * Pow2(5 - bits) % WORD % 32;
      LettersLast(groups, g);
      letter := [ALPHABET[g]];
    }
  }

  method Base32Encode(bytes: seq<byte>) returns (out: string)
    ensures AreGroups(Groups(Stream(bytes))) && out == Letters(Groups(Stream(bytes)))
    ensures out == Encoding(bytes)
  {
    var bits: nat, value: nat := 0, 0;
    out := "";
    ghost var groups: seq<nat> := [];
    var i := 0;
    while i < |bytes|
      invariant i <= |bytes| && value < WORD && IsEncoded(Stream(bytes[..i]), out, groups, value, bits)
    {
      var letters;
      ghost var more;
      letters, value, bits, more := EncodeByte(bytes, i, bytes[i], out, groups, value, bits);
      out := out + letters;
      groups := groups + more;
      i := i + 1;
    }
    assert bytes[..i] == bytes;
    var letter := LastLetter(Stream(bytes), out, groups, value, bits);
    out := out + letter;
  }

  /** The groups of the whole stream, when the pending bits make one more or none. */
  lemma FinalGroups(groups: seq<nat>, value: nat, bits: nat)
    requires AreGroups(groups) && bits < 5
    ensures Groups(Flat(groups) + Bits(value, bits))
      == if bits == 0 then groups else groups + [value * Pow2(5 - bits) % WORD % 32]
  {
    GroupsOfFlat(groups, Bits(value, bits));
    if bits > 0 {
      LastGroup(value, bits);
    }
  }

  lemma Twice(v: nat, p: nat)
    ensures v * (2 * p) == 2 * (v * p)
  {
  }

  lemma DoubledBits(half: nat, width: nat)
    ensures Bits(2 * half, width + 1) == Bits(half, width) + [0]
    ensures ShiftRight(2 * half, width + 1) == ShiftRight(half, width)
  {
    assert 2 * half / 2 == half && 2 * half % 2 == 0;
  }

  lemma {:induction false} ShiftedLeft(v: nat, n: nat)
    ensures ShiftRight(v * Pow2(n), n) == v && Bits(v * Pow2(n), n) == Zeros(n)
  {
    if n > 0 {
      ShiftedLeft(v, n - 1);
      Twice(v, Pow2(n - 1));
      DoubledBits(v * Pow2(n - 1), n - 1);
    }
  }

  lemma PaddedGroup(value: nat, bits: nat)
    requires 0 < bits < 5
    ensures Number(Bits(value, bits) + Zeros(5 - bits)) == value * Pow2(5 - bits) % 32
  {
    var shifted := value * Pow2(5 - bits);
    ShiftedLeft(value, 5 - bits);
    BitsSplit(shifted, bits, 5 - bits);
    Low5(shifted);
  }

  lemma LowOfWord(x: nat)
    ensures x % WORD % 32 == x % 32
  {
  }

  lemma LastGroup(value: nat, bits: nat)
    requires 0 < bits < 5
    ensures Groups(Bits(value, bits)) == [value * Pow2(5 - bits) % WORD % 32]
  {
    PaddedGroup(value, bits);
    LowOfWord(value * Pow2(5 - bits));
  }

  lemma GroupsOfOne(five: seq<nat>, tail: seq<nat>)
    requires |five| == 5
    ensures Groups(five + tail) == [Number(five)] + Groups(tail)
  {
    assert (five + tail)[..5] == five && (five + tail)[5..] == tail;
  }

  lemma {:induction false} GroupsOfFlat(groups: seq<nat>, tail: seq<nat>)
    requires AreGroups(groups)
    ensures Groups(Flat(groups) + tail) == groups + Groups(tail)
    decreases |groups|
  {
    if groups == [] {
      assert Flat(groups) + tail == tail;
    } else {
      var init, five := groups[..|groups| - 1], Bits(groups[|groups| - 1], 5);
      GroupsOfFlat(init, five + tail);
      GroupOfFive(groups[|groups| - 1], tail);
      Assoc(Flat(init), five, tail);
      OneMoreGroup(Flat(init) + (five + tail), Flat(groups) + tail, groups, Groups(five + tail), Groups(tail));
    }
  }

  lemma GroupOfFive(g: nat, tail: seq<nat>)
    requires g < 32
    ensures Groups(Bits(g, 5) + tail) == [g] + Groups(tail)
  {
    assert Pow2(5) == 32;
    NumberOfBits(g, 5);
    GroupsOfOne(Bits(g, 5), tail);
  }

  lemma OneMoreGroup(bits: seq<nat>, same: seq<nat>, groups: seq<nat>, upper: seq<nat>, lower: seq<nat>)
    requires groups != [] && bits == same
    requires Groups(bits) == groups[..|groups| - 1] + upper && upper == [groups[|groups| - 1]] + lower
    ensures Groups(same) == groups + lower
  {
    assert groups[..|groups| - 1] + [groups[|groups| - 1]] == groups;
    Assoc(groups[..|groups| - 1], [groups[|groups| - 1]], lower);
  }

  // ---- Decoding --------------------------------------------------------------------------------

  predicate IsBinary(bits: seq<nat>) {
    forall i :: 0 <= i < |bits| ==> bits[i] < 2
  }

  lemma {:induction false} BitsAreBinary(v: nat, width: nat)
    ensures IsBinary(Bits(v, width))
  {
    if width > 0 {
      BitsAreBinary(v / 2, width - 1);
    }
  }

  lemma {:induction false} StreamIsBinary(bytes: seq<byte>)
    ensures IsBinary(Stream(bytes))
  {
    if bytes != [] {
      StreamIsBinary(bytes[..|bytes| - 1]);
      BitsAreBinary(bytes[|bytes| - 1] as nat, 8);
    }
  }

  lemma {:induction false} BitsOfNumber(bits: seq<nat>)
    requires IsBinary(bits)
    ensures Bits(Number(bits), |bits|) == bits && Number(bits) < Pow2(|bits|)
  {
    if bits != [] {
      BitsOfNumber(bits[..|bits| - 1]);
    }
  }

  lemma {:induction false} ZerosAreBinary(n: nat)
    ensures IsBinary(Zeros(n))
  {
    if n > 0 {
      ZerosAreBinary(n - 1);
    }
  }

  lemma {:induction false} FlatFront(g: nat, groups: seq<nat>)
    ensures Flat([g] + groups) == Bits(g, 5) + Flat(groups)
    decreases |groups|
  {
    if groups == [] {
      assert [g] + [] == [g] && [g][..0] == [];
    } else {
      var init, last := groups[..|groups| - 1], groups[|groups| - 1];
      assert ([g] + groups)[..|groups|] == [g] + init;
      FlatFront(g, init);
      Assoc(Bits(g, 5), Flat(init), Bits(last, 5));
    }
  }

  /** How many zeros fill up the last group. */
  function Padding(n: nat): nat {
    (5 - n % 5) % 5
  }

  lemma FlatOfOne(g: nat)
    ensures Flat([g]) == Bits(g, 5)
  {
    FlatFront(g, []);
    assert [g] + [] == [g];
  }

  lemma FiveBits(five: seq<nat>)
    requires IsBinary(five) && |five| == 5
    ensures Number(five) < 32 && Bits(Number(five), 5) == five
  {
    assert Pow2(5) == 32;
    BitsOfNumber(five);
  }

  lemma FlatOfLastGroup(bits: seq<nat>)
    requires IsBinary(bits) && 0 < |bits| < 5
    ensures AreGroups(Groups(bits)) && Flat(Groups(bits)) == bits + Zeros(5 - |bits|)
  {
    ZerosAreBinary(5 - |bits|);
    FiveBits(bits + Zeros(5 - |bits|));
    FlatOfOne(Number(bits + Zeros(5 - |bits|)));
  }

  lemma FlatOfFirstGroup(five: seq<nat>, rest: seq<nat>, groups: seq<nat>)
    requires IsBinary(five) && |five| == 5 && Flat(groups) == rest
    ensures Number(five) < 32 && Flat([Number(five)] + groups) == five + rest
  {
    FiveBits(five);
    FlatFront(Number(five), groups);
  }

  lemma GroupsFirst(bits: seq<nat>)
    requires |bits| >= 5
    ensures Groups(bits) == [Number(bits[..5])] + Groups(bits[5..])
  {
  }

  lemma FlatStep(bits: seq<nat>, zeros: seq<nat>)
    requires IsBinary(bits) && |bits| >= 5
    requires AreGroups(Groups(bits[5..])) && Flat(Groups(bits[5..])) == bits[5..] + zeros
    ensures AreGroups(Groups(bits)) && Flat(Groups(bits)) == bits + zeros
  {
    var five, rest := bits[..5], bits[5..];
    assert five + rest == bits;
    FlatOfFirstGroup(five, rest + zeros, Groups(rest));
    GroupsFirst(bits);
    Rebracket(five, rest, zeros, bits, rest + zeros);
  }

  lemma PaddingStep(n: nat)
    requires n >= 5
    ensures Padding(n) == Padding(n - 5)
  {
  }

  lemma FlatOfNone()
    ensures Groups([]) == [] && Flat([]) == [] && Zeros(Padding(0)) == []
  {
  }

  lemma {:induction false} FlatOfGroups(bits: seq<nat>)
    requires IsBinary(bits)
    ensures AreGroups(Groups(bits)) && Flat(Groups(bits)) == bits + Zeros(Padding(|bits|))
    decreases |bits|
  {
    if bits == [] {
      FlatOfNone();
    } else if |bits| < 5 {
      FlatOfLastGroup(bits);
    } else {
      var rest := bits[5..];
      assert IsBinary(rest);
      FlatOfGroups(rest);
      PaddingStep(|bits|);
      FlatStep(bits, Zeros(Padding(|rest|)));
    }
  }

  /** The bytes of a bit stream; an incomplete byte at the front is dropped. */
  function Bytes(bits: seq<nat>): seq<byte> {
    if |bits| < 8 then []
    else Bytes(bits[..|bits| - 8]) + [(Number(bits[|bits| - 8..]) % 256) as byte]
  }

  lemma BytesSnoc(bits: seq<nat>, eight: seq<nat>, b: byte)
    requires |eight| == 8 && Number(eight) == b as nat
    ensures Bytes(bits + eight) == Bytes(bits) + [b]
  {
    var all := bits + eight;
    assert all[..|all| - 8] == bits && all[|all| - 8..] == eight;
  }

  lemma {:induction false} BytesOfStream(bytes: seq<byte>)
    ensures Bytes(Stream(bytes)) == bytes
  {
    if bytes != [] {
      BytesOfStream(bytes[..|bytes| - 1]);
      BytesOfLast(bytes);
      WithLast(Bytes(Stream(bytes)), bytes, Bytes(Stream(bytes[..|bytes| - 1])));
    }
  }

  lemma WithLast(found: seq<byte>, bytes: seq<byte>, init: seq<byte>)
    requires bytes != [] && found == init + [bytes[|bytes| - 1]] && init == bytes[..|bytes| - 1]
    ensures found == bytes
  {
  }

  lemma BytesOfLast(bytes: seq<byte>)
    requires bytes != []
    ensures Bytes(Stream(bytes)) == Bytes(Stream(bytes[..|bytes| - 1])) + [bytes[|bytes| - 1]]
  {
    NumberOfByte(bytes[|bytes| - 1]);
    BytesSnoc(Stream(bytes[..|bytes| - 1]), Bits(bytes[|bytes| - 1] as nat, 8), bytes[|bytes| - 1]);
  }

  lemma NumberOfByte(b: byte)
    ensures Number(Bits(b as nat, 8)) == b as nat
  {
    assert Pow2(8) == 256;
    NumberOfBits(b as nat, 8);
  }

  function LetterIndex(c: char): nat {
    if 'A' <= c <= 'Z' then (c - 'A') as nat else if '2' <= c <= '7' then 26 + (c - '2') as nat else 0
  }

  function Indices(s: string): seq<nat> {
    seq(|s|, i requires 0 <= i < |s| => LetterIndex(s[i]))
  }

  /** The decoder of RFC 4648: the bits of all letters, without those after the last whole byte. */
  function Decoded(s: string): seq<byte> {
    var bits := Flat(Indices(s));
    Bytes(bits[..|bits| / 8 * 8])
  }

  /** What `Base32Encode` returns. */
  function Encoding(bytes: seq<byte>): (s: string)
    ensures |s| == (8 * |bytes| + 4) / 5
  {
    StreamIsBinary(bytes);
    FlatOfGroups(Stream(bytes));
    Letters(Groups(Stream(bytes)))
  }

  lemma IndicesOfLetters(groups: seq<nat>)
    requires AreGroups(groups)
    ensures Indices(Letters(groups)) == groups
  {
  }

  lemma WholeLength(n: nat, m: nat)
    requires m < 8
    ensures (8 * n + m) / 8 * 8 == 8 * n
  {
  }

  lemma WholeBytes(bits: seq<nat>, zeros: seq<nat>, n: nat)
    requires |bits| == 8 * n && |zeros| < 8
    ensures (bits + zeros)[..|bits + zeros| / 8 * 8] == bits
  {
    WholeLength(n, |zeros|);
  }

  lemma DecodedBits(s: string, bits: seq<nat>, zeros: seq<nat>, n: nat)
    requires Flat(Indices(s)) == bits + zeros && |bits| == 8 * n && |zeros| < 8
    ensures Decoded(s) == Bytes(bits)
  {
    WholeBytes(bits, zeros, n);
  }

  lemma PaddingIsShort(n: nat)
    ensures Padding(n) < 5
  {
  }

  lemma EncodingBits(bytes: seq<byte>)
    ensures Flat(Indices(Encoding(bytes))) == Stream(bytes) + Zeros(Padding(8 * |bytes|))
  {
    StreamIsBinary(bytes);
    FlatOfGroups(Stream(bytes));
    IndicesOfLetters(Groups(Stream(bytes)));
  }

  /** Main result: the bytes come back, so different bytes have different encodings. */
  lemma DecodesEncoding(bytes: seq<byte>)
    ensures Decoded(Encoding(bytes)) == bytes
  {
    var zeros := Zeros(Padding(8 * |bytes|));
    EncodingBits(bytes);
    BytesOfStream(bytes);
    PaddingIsShort(8 * |bytes|);
    DecodedBits(Encoding(bytes), Stream(bytes), zeros, |bytes|);
  }

  lemma EncodingIsInjective(one: seq<byte>, two: seq<byte>)
    ensures Encoding(one) == Encoding(two) <==> one == two
  {
    DecodesEncoding(one);
    DecodesEncoding(two);
  }

  /** Every character is a letter of the alphabet. */
  lemma EncodingLetters(bytes: seq<byte>, i: nat)
    requires i < |Encoding(bytes)|
    ensures 'A' <= Encoding(bytes)[i] <= 'Z' || '2' <= Encoding(bytes)[i] <= '7'
  {
    StreamIsBinary(bytes);
    FlatOfGroups(Stream(bytes));
  }
}
