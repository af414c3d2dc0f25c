/** The fallback key derivation: PBKDF2 of RFC 2898, section 5.2, with the exclusive ors done on
    big integers instead of byte strings. */
module Pbkdf2 {
  import opened Common

  // ---------------------------------------------------------------- exclusive or

  /** Bitwise exclusive or of two numbers. */
  function Xor(a: nat, b: nat): nat
    decreases a + b
  {
    if a == 0 && b == 0 then 0 else 2 * Xor(a / 2, b / 2) + (a + b) % 2
  }

  /** `a` shifted left by `k` bits. */
  function Shift(k: nat, a: nat): nat {
    if k == 0 then a else 2 * Shift(k - 1, a)
  }

  lemma XorUnfold(a: nat, b: nat)
    ensures Xor(a, b) == 2 * Xor(a / 2, b / 2) + (a + b) % 2
  {
  }

  lemma HalfOf(a: nat, p: nat)
    requires p < 2
    ensures (2 * a + p) / 2 == a
  {
  }

  lemma ParityOf(a: nat, b: nat, p: nat, q: nat)
    requires p < 2 && q < 2
    ensures (2 * a + p + (2 * b + q)) % 2 == if p == q then 0 else 1
  {
    assert 2 * a + p + (2 * b + q) == 2 * (a + b) + (p + q);
  }

  /** Exclusive or of the low bits, and of the rest. */
  lemma XorBit(a: nat, b: nat, p: nat, q: nat)
    requires p < 2 && q < 2
    ensures Xor(2 * a + p, 2 * b + q) == 2 * Xor(a, b) + if p == q then 0 else 1
  {
    hide Xor;
    XorUnfold(2 * a + p, 2 * b + q);
    HalfOf(a, p);
    HalfOf(b, q);
    ParityOf(a, b, p, q);
  }

  /** Bit `k` of a number, the lowest being bit 0. */
  function Bit(n: nat, k: nat): nat {
    if k == 0 then n % 2 else Bit(n / 2, k - 1)
  }

  /** Bit by bit, exclusive or tells where the numbers differ. */
  lemma {:induction false} XorBits(a: nat, b: nat, k: nat)
    ensures Bit(Xor(a, b), k) == if Bit(a, k) == Bit(b, k) then 0 else 1
  {
    Halves(a);
    Halves(b);
    XorBit(a / 2, b / 2, a % 2, b % 2);
    HalfOf(Xor(a / 2, b / 2), if a % 2 == b % 2 then 0 else 1);
    hide Xor;
    if k > 0 {
      XorBits(a / 2, b / 2, k - 1);
    }
  }

  lemma Halves(a: nat)
    ensures a == 2 * (a / 2) + a % 2 && a % 2 < 2
  {
  }

  /** Exclusive or works on high and low bits apart. */
  ghost predicate Splits(k: nat, a: nat, b: nat, c: nat, d: nat) {
    Xor(Shift(k, a) + c, Shift(k, b) + d) == Shift(k, Xor(a, b)) + Xor(c, d) && Xor(c, d) < Shift(k, 1)
  }

  lemma SplitsStep(k: nat, a: nat, b: nat, c: nat, d: nat, p: nat, q: nat)
    requires Splits(k, a, b, c, d) && p < 2 && q < 2
    ensures Splits(k + 1, a, b, 2 * c + p, 2 * d + q)
  {
    hide Xor;
    XorBit(Shift(k, a) + c, Shift(k, b) + d, p, q);
    XorBit(c, d, p, q);
    assert 2 * (Shift(k, a) + c) + p == Shift(k + 1, a) + (2 * c + p);
    assert 2 * (Shift(k, b) + d) + q == Shift(k + 1, b) + (2 * d + q);
  }

  lemma {:induction false} XorSplit(k: nat, a: nat, b: nat, c: nat, d: nat)
    requires c < Shift(k, 1) && d < Shift(k, 1)
    ensures Splits(k, a, b, c, d)
  {
    XorZero(0);
    if k > 0 {
      hide Splits, Xor;
      Halves(c);
      Halves(d);
      XorSplit(k - 1, a, b, c / 2, d / 2);
      SplitsStep(k - 1, a, b, c / 2, d / 2, c % 2, d % 2);
    }
  }

  lemma ShiftByte(a: nat)
    ensures Shift(8, a) == 256 * a
  {
    assert Shift(8, a) == 2 * Shift(7, a) == 4 * Shift(6, a) == 8 * Shift(5, a) == 16 * Shift(4, a);
    assert Shift(4, a) == 2 * Shift(3, a) == 4 * Shift(2, a) == 8 * Shift(1, a) == 16 * Shift(0, a);
  }

  lemma XorBytePart(a: nat, b: nat, c: Byte, d: Byte)
    ensures Xor(c, d) < 256 && Xor(256 * a + c, 256 * b + d) == 256 * Xor(a, b) + Xor(c, d)
  {
    hide Xor, Shift;
    ShiftByte(1);
    ShiftByte(a);
    ShiftByte(b);
    ShiftByte(Xor(a, b));
    XorSplit(8, a, b, c, d);
  }

  function XorByte(c: Byte, d: Byte): Byte {
    XorBytePart(0, 0, c, d);
    Xor(c, d)
  }

  /** Exclusive or of byte strings, byte by byte. */
  function XorBytes(x: Bytes, y: Bytes): (z: Bytes)
    requires |x| == |y|
    ensures |z| == |x|
  {
    seq(|x|, i requires 0 <= i < |x| => XorByte(x[i], y[i]))
  }

  // ---------------------------------------------------------------- numbers and byte strings

  /** The number a byte string stands for, first byte highest. */
  function BigEndian(x: Bytes): nat {
    if x == [] then 0 else 256 * BigEndian(x[..|x| - 1]) + x[|x| - 1]
  }

  /** Exclusive or of the numbers is the number of the bytewise exclusive or. */
  lemma {:induction false} XorRefines(x: Bytes, y: Bytes)
    requires |x| == |y|
    ensures Xor(BigEndian(x), BigEndian(y)) == BigEndian(XorBytes(x, y))
  {
    if x != [] {
      var n := |x| - 1;
      XorRefines(x[..n], y[..n]);
      XorBytePart(BigEndian(x[..n]), BigEndian(y[..n]), x[n], y[n]);
      assert XorBytes(x, y)[..n] == XorBytes(x[..n], y[..n]);
    }
  }

  type Hex = h: nat | h < 16

  function Hexlify(x: Bytes): seq<Hex> {
    if x == [] then [] else Hexlify(x[..|x| - 1]) + [x[|x| - 1] / 16, x[|x| - 1] % 16]
  }

  function IntOfHex(h: seq<Hex>): nat {
    if h == [] then 0 else 16 * IntOfHex(h[..|h| - 1]) + h[|h| - 1]
  }

  /** The digits of a number, padded with zeros to a width. */
  function HexFormat(x: nat, width: nat): seq<Hex>
    decreases width, x
  {
    if width == 0 && x == 0 then []
    else HexFormat(x / 16, if width == 0 then 0 else width - 1) + [x % 16]
  }

  /** The byte with these two hexadecimal digits. */
  function Pair(d: Hex, e: Hex): Byte {
    16 * (d as nat) + e as nat
  }

  function Unhexlify(h: seq<Hex>): Bytes
    requires |h| % 2 == 0
  {
    if h == [] then [] else Unhexlify(h[..|h| - 2]) + [Pair(h[|h| - 2], h[|h| - 1])]
  }

  function BinToLong(x: Bytes): nat {
    IntOfHex(Hexlify(x))
  }

  lemma IntOfHexSnoc(h: seq<Hex>, d: Hex)
    ensures IntOfHex(h + [d]) == 16 * IntOfHex(h) + d as nat
  {
    assert (h + [d])[..|h|] == h;
  }

  lemma {:induction false} BinToLongIsBigEndian(x: Bytes)
    ensures BinToLong(x) == BigEndian(x)
  {
    if x != [] {
      var n := |x| - 1;
      BinToLongIsBigEndian(x[..n]);
      var h := Hexlify(x[..n]);
      var d, e := x[n] / 16, x[n] % 16;
      assert Hexlify(x) == h + [d] + [e];
      IntOfHexSnoc(h, d);
      IntOfHexSnoc(h + [d], e);
    }
  }

  lemma BigEndianSnoc(x: Bytes, y: Byte)
    ensures BigEndian(x + [y]) == 256 * BigEndian(x) + y as nat
  {
    assert (x + [y])[..|x|] == x;
  }

  lemma HexFormatSnoc(a: nat, p: Hex, width: nat)
    ensures HexFormat(16 * a + p as nat, width + 1) == HexFormat(a, width) + [p]
  {
    assert (16 * a + p as nat) / 16 == a && (16 * a + p as nat) % 16 == p as nat;
  }

  lemma UnhexlifyUnfold(h: seq<Hex>)
    requires |h| % 2 == 0 && h != []
    ensures |h| >= 2 && Unhexlify(h) == Unhexlify(h[..|h| - 2]) + [Pair(h[|h| - 2], h[|h| - 1])]
  {
    hide Pair;
  }

  lemma UnhexlifyPair(h: seq<Hex>, d: Hex, e: Hex)
    requires |h| % 2 == 0
    ensures Unhexlify(h + [d] + [e]) == Unhexlify(h) + [Pair(d, e)]
  {
    hide Pair, Unhexlify;
    var all := h + [d] + [e];
    assert |all| == |h| + 2;
    UnhexlifyUnfold(all);
    assert all[..|all| - 2] == h && all[|all| - 2] == d && all[|all| - 1] == e;
  }

  lemma TwoDigits(big: nat, d: Hex, e: Hex, width: nat)
    ensures HexFormat(256 * big + Pair(d, e) as nat, width + 2) == HexFormat(big, width) + [d] + [e]
  {
    assert 256 * big + Pair(d, e) as nat == 16 * (16 * big + d as nat) + e as nat;
    hide HexFormat;
    HexFormatSnoc(big, d, width);
    HexFormatSnoc(16 * big + d as nat, e, width + 1);
  }

  /** One more byte of a string that is written back. */
  lemma WrittenStep(front: Bytes, d: Hex, e: Hex)
    requires |HexFormat(BigEndian(front), 2 * |front|)| == 2 * |front|
    requires Unhexlify(HexFormat(BigEndian(front), 2 * |front|)) == front
    ensures var x := front + [Pair(d, e)];
      && |HexFormat(BigEndian(x), 2 * |x|)| == 2 * |x|
      && Unhexlify(HexFormat(BigEndian(x), 2 * |x|)) == x
  {
    hide HexFormat, Unhexlify, BigEndian, Pair;
    BigEndianSnoc(front, Pair(d, e));
    TwoDigits(BigEndian(front), d, e, 2 * |front|);
    UnhexlifyPair(HexFormat(BigEndian(front), 2 * |front|), d, e);
  }

  /** A number that came from a byte string is written back as that string. */
  lemma {:induction false} WrittenBack(x: Bytes)
    ensures |HexFormat(BigEndian(x), 2 * |x|)| == 2 * |x|
    ensures Unhexlify(HexFormat(BigEndian(x), 2 * |x|)) == x
  {
    if x != [] {
      var n := |x| - 1;
      assert x == x[..n] + [Pair(x[n] / 16, x[n] % 16)];
      hide *;
      WrittenBack(x[..n]);
      WrittenStep(x[..n], x[n] / 16, x[n] % 16);
    }
  }

  // ---------------------------------------------------------------- RFC 2898, section 5.2

  /** The pseudorandom function with the password built in; its outputs have `hlen` bytes. */
  type Prf = Bytes -> Bytes

  ghost predicate IsPrf(prf: Prf, hlen: nat) {
    hlen > 0 && forall u :: |prf(u)| == hlen
  }

  /** A four-byte encoding of a block index, most significant byte first. */
  function Int(i: nat): Bytes
    requires i < 0x1_0000_0000
  {
    [i / 0x100_0000, i / 0x1_0000 % 256, i / 256 % 256, i % 256]
  }

  lemma FourDigits(i: nat)
    ensures i == 256 * (256 * (256 * (i / 0x100_0000) + i / 0x1_0000 % 256) + i / 256 % 256) + i % 256
  {
    assert i / 256 == 256 * (i / 0x1_0000) + i / 256 % 256;
    assert i / 0x1_0000 == 256 * (i / 0x100_0000) + i / 0x1_0000 % 256;
  }

  lemma BigEndianEmpty()
    ensures BigEndian([]) == 0
  {
  }

  function FourBytes(a: nat, b: nat, c: nat, d: nat): nat {
    a * 0x100_0000 + b * 0x1_0000 + c * 256 + d
  }

  lemma IntIsBigEndian(i: nat)
    requires i < 0x1_0000_0000
    ensures BigEndian(Int(i)) == i
    ensures FourBytes(Int(i)[0], Int(i)[1], Int(i)[2], Int(i)[3]) == i
  {
    hide BigEndian;
    var x := Int(i);
    BigEndianEmpty();
    assert [] + [x[0]] == x[..1] && x[..1] + [x[1]] == x[..2] && x[..2] + [x[2]] == x[..3] && x[..3] + [x[3]] == x;
    BigEndianSnoc([], x[0]);
    BigEndianSnoc(x[..1], x[1]);
    BigEndianSnoc(x[..2], x[2]);
    BigEndianSnoc(x[..3], x[3]);
    FourDigits(i);
  }

  /** The iterates U_1, U_2, ... of one block. */
  function U(prf: Prf, salt: Bytes, i: nat, j: nat): Bytes
    requires i < 0x1_0000_0000 && j > 0
  {
    prf(if j == 1 then salt + Int(i) else U(prf, salt, i, j - 1))
  }

  /** One block: U_1 xor U_2 xor ... xor U_c. */
  ghost function Block(prf: Prf, hlen: nat, salt: Bytes, i: nat, c: nat): (t: Bytes)
    requires IsPrf(prf, hlen) && i < 0x1_0000_0000 && c > 0
    ensures |t| == hlen
  {
    if c == 1 then U(prf, salt, i, 1)
    else XorBytes(Block(prf, hlen, salt, i, c - 1), U(prf, salt, i, c))
  }

  /** T_1 || T_2 || ... || T_l. */
  ghost function Blocks(prf: Prf, hlen: nat, salt: Bytes, c: nat, l: nat): (t: Bytes)
    requires IsPrf(prf, hlen) && l < 0x1_0000_0000 && c > 0
    ensures |t| == l * hlen
  {
    if l == 0 then [] else Blocks(prf, hlen, salt, c, l - 1) + Block(prf, hlen, salt, l, c)
  }

  /** The bytes that are combined in one block: the digest of the salt and the block index, highest byte
      first, and then each time the digest of the one before. */
  ghost predicate Iterates(us: seq<Bytes>, prf: Prf, salt: Bytes, i: nat) {
    && us != []
    && (exists a: Byte, b: Byte, c: Byte, d: Byte ::
          us[0] == prf(salt + [a, b, c, d]) && FourBytes(a, b, c, d) == i)
    && forall j :: 0 < j < |us| ==> us[j] == prf(us[j - 1])
  }

  /** In how many of some byte strings bit `k` of byte `p` is set. */
  function Ones(us: seq<Bytes>, p: nat, k: nat): nat
    requires forall u :: u in us ==> p < |u|
  {
    if us == [] then 0 else Ones(us[..|us| - 1], p, k) + Bit(us[|us| - 1][p], k)
  }

  lemma {:induction false} UIterates(prf: Prf, salt: Bytes, i: nat, c: nat) returns (us: seq<Bytes>)
    requires i < 0x1_0000_0000 && c > 0
    ensures |us| == c && Iterates(us, prf, salt, i) && forall j :: 0 <= j < c ==> us[j] == U(prf, salt, i, j + 1)
  {
    if c == 1 {
      us := [U(prf, salt, i, 1)];
      IntIsBigEndian(i);
      var x := Int(i);
      assert salt + x == salt + [x[0], x[1], x[2], x[3]];
    } else {
      us := UIterates(prf, salt, i, c - 1);
      us := us + [U(prf, salt, i, c)];
    }
  }

  lemma BitIsBit(n: nat, k: nat)
    ensures Bit(n, k) < 2
  {
  }

  lemma OnesSnoc(us: seq<Bytes>, u: Bytes, p: nat, k: nat)
    requires p < |u| && forall v :: v in us ==> p < |v|
    ensures forall v :: v in us + [u] ==> p < |v|
    ensures Ones(us + [u], p, k) == Ones(us, p, k) + Bit(u[p], k)
  {
    assert (us + [u])[..|us|] == us;
  }

  /** Each bit of a block is set exactly when it is set in an odd number of the iterates. */
  lemma {:induction false} BlockBits(prf: Prf, hlen: nat, salt: Bytes, i: nat, us: seq<Bytes>, p: nat, k: nat)
    requires IsPrf(prf, hlen) && i < 0x1_0000_0000 && us != [] && p < hlen
    requires forall j :: 0 <= j < |us| ==> us[j] == U(prf, salt, i, j + 1)
    ensures forall u :: u in us ==> |u| == hlen
    ensures Bit(Block(prf, hlen, salt, i, |us|)[p], k) == Ones(us, p, k) % 2
  {
    hide Ones, Bit, U, IsPrf, Block;
    USizes(prf, hlen, salt, i, us);
    var n := |us| - 1;
    assert us == us[..n] + [us[n]];
    OnesSnoc(us[..n], us[n], p, k);
    BitIsBit(us[n][p], k);
    if n == 0 {
      OneBlock(prf, hlen, salt, i, us[0], p, k);
    } else {
      BlockBits(prf, hlen, salt, i, us[..n], p, k);
      BlockBitNext(prf, hlen, salt, i, n, p, k);
      ParitySum(Ones(us[..n], p, k), Bit(us[n][p], k));
    }
  }

  lemma OneBlock(prf: Prf, hlen: nat, salt: Bytes, i: nat, u: Bytes, p: nat, k: nat)
    requires IsPrf(prf, hlen) && i < 0x1_0000_0000 && p < hlen && u == U(prf, salt, i, 1)
    ensures |u| == hlen
    ensures forall us: seq<Bytes> :: us == [] ==> Ones(us, p, k) == 0
    ensures Block(prf, hlen, salt, i, 1) == u && Bit(u[p], k) == Bit(u[p], k) % 2
  {
    BitIsBit(u[p], k);
    hide Bit;
  }

  lemma USizes(prf: Prf, hlen: nat, salt: Bytes, i: nat, us: seq<Bytes>)
    requires IsPrf(prf, hlen) && i < 0x1_0000_0000
    requires forall j :: 0 <= j < |us| ==> us[j] == U(prf, salt, i, j + 1)
    ensures forall u :: u in us ==> |u| == hlen
  {
  }

  lemma BlockBitNext(prf: Prf, hlen: nat, salt: Bytes, i: nat, n: nat, p: nat, k: nat)
    requires IsPrf(prf, hlen) && i < 0x1_0000_0000 && n > 0 && p < hlen
    ensures |U(prf, salt, i, n + 1)| == hlen
    ensures var bit := Bit(U(prf, salt, i, n + 1)[p], k);
      Bit(Block(prf, hlen, salt, i, n + 1)[p], k) == if Bit(Block(prf, hlen, salt, i, n)[p], k) == bit then 0 else 1
  {
    var before, u := Block(prf, hlen, salt, i, n), U(prf, salt, i, n + 1);
    assert Block(prf, hlen, salt, i, n + 1) == XorBytes(before, u);
    hide Block, Xor, U, Bit;
    XorBits(before[p], u[p], k);
  }

  lemma ParitySum(a: nat, b: nat)
    requires b < 2
    ensures (a + b) % 2 == if a % 2 == b then 0 else 1
  {
  }

  lemma QuotientIs(p: nat, l: nat, hlen: nat)
    requires hlen > 0 && l * hlen <= p < (l + 1) * hlen
    ensures p / hlen == l && p % hlen == p - l * hlen
  {
    var q, r := p / hlen, p % hlen;
    assert p == q * hlen + r && (q + 1) * hlen == q * hlen + hlen;
    if q < l {
      MulMonotone(q + 1, l, hlen);
    } else if q > l {
      MulMonotone(l + 1, q, hlen);
    }
  }

  lemma QuotientLess(p: nat, l: nat, hlen: nat)
    requires hlen > 0 && p < l * hlen
    ensures p / hlen < l
  {
    var q, r := p / hlen, p % hlen;
    assert p == q * hlen + r;
    if q >= l {
      MulMonotone(l, q, hlen);
    }
  }

  /** Each byte of the blocks is a byte of its block. */
  lemma {:induction false} BlocksAt(prf: Prf, hlen: nat, salt: Bytes, c: nat, l: nat, p: nat)
    requires IsPrf(prf, hlen) && l < 0x1_0000_0000 && c > 0 && p < l * hlen
    ensures p / hlen < l
    ensures Blocks(prf, hlen, salt, c, l)[p] == Block(prf, hlen, salt, p / hlen + 1, c)[p % hlen]
  {
    assert hlen > 0;
    QuotientLess(p, l, hlen);
    hide IsPrf, Block;
    if p < (l - 1) * hlen {
      BlocksAt(prf, hlen, salt, c, l - 1, p);
    } else {
      QuotientIs(p, l - 1, hlen);
    }
  }

  // ---------------------------------------------------------------- the fallback

  datatype Error = NoIterations | DklenTooBig

  lemma {:induction false} XorZero(b: nat)
    ensures Xor(0, b) == b
  {
    if b != 0 {
      XorZero(b / 2);
    }
  }

  /** What `result` holds after `j` rounds of a block. */
  ghost function Running(prf: Prf, hlen: nat, salt: Bytes, i: nat, j: nat): nat
    requires IsPrf(prf, hlen) && i < 0x1_0000_0000
  {
    if j == 0 then 0 else BigEndian(Block(prf, hlen, salt, i, j))
  }

  /** What `u` holds after `j` rounds of a block. */
  function Latest(prf: Prf, salt: Bytes, i: nat, j: nat): Bytes
    requires i < 0x1_0000_0000
  {
    if j == 0 then salt + Int(i) else U(prf, salt, i, j)
  }

  lemma RoundStep(prf: Prf, hlen: nat, salt: Bytes, i: nat, j: nat)
    requires IsPrf(prf, hlen) && i < 0x1_0000_0000
    ensures var u := prf(Latest(prf, salt, i, j));
      && u == Latest(prf, salt, i, j + 1)
      && Xor(Running(prf, hlen, salt, i, j), BinToLong(u)) == Running(prf, hlen, salt, i, j + 1)
  {
    hide Xor, BinToLong, XorBytes;
    var u := prf(Latest(prf, salt, i, j));
    BinToLongIsBigEndian(u);
    if j == 0 {
      XorZero(BigEndian(u));
    } else {
      XorRefines(Block(prf, hlen, salt, i, j), u);
    }
  }

  /** One block, with the exclusive ors done on numbers. */
  method F(prf: Prf, hlen: nat, salt: Bytes, iterations: nat, i: nat) returns (block: Bytes)
    requires IsPrf(prf, hlen) && iterations > 0 && i < 0x1_0000_0000
    ensures block == Block(prf, hlen, salt, i, iterations)
  {
    hide Xor, BinToLong, Block, BigEndian, HexFormat, Unhexlify, U, Int;
    var u := salt + Int(i);
    var result := 0;
    for j := 0 to iterations
      invariant u == Latest(prf, salt, i, j)
      invariant result == Running(prf, hlen, salt, i, j)
    {
      RoundStep(prf, hlen, salt, i, j);
      u := prf(u);
      result := Xor(result, BinToLong(u));
    }
    WrittenBack(Block(prf, hlen, salt, i, iterations));
    block := Unhexlify(HexFormat(result, hlen * 2));
  }

  /** How many blocks a length needs, rounding up; written with a division that rounds down. */
  function BlockCount(dklen: int, hlen: int): int
    requires hlen > 0
  {
    -((-dklen) / hlen)
  }

  /** The block count is the least one that yields enough bytes, and a length that passes the limit
      check needs no block index beyond four bytes. */
  lemma BlockCountBounds(dklen: int, hlen: int)
    requires hlen > 0 && dklen > 0
    ensures var l := BlockCount(dklen, hlen); l > 0 && (l - 1) * hlen < dklen <= l * hlen
    ensures dklen <= 0xffff_ffff * hlen <==> BlockCount(dklen, hlen) <= 0xffff_ffff
  {
    var l := BlockCount(dklen, hlen);
    var q, r := (-dklen) / hlen, (-dklen) % hlen;
    assert -dklen == q * hlen + r && l == -q;
    assert l * hlen == -(q * hlen) && (l - 1) * hlen == l * hlen - hlen;
    if l <= 0 {
      MulMonotone(l, 0, hlen);
    }
    if l > 0xffff_ffff {
      MulMonotone(0xffff_ffff, l - 1, hlen);
    } else {
      MulMonotone(l, 0xffff_ffff, hlen);
    }
  }

  /** The length asked for, a digest's worth when none is. */
  function Wanted(hlen: nat, dklen: nat): nat {
    if dklen == 0 then hlen else dklen
  }

  /** A key of the length asked for, a digest's worth when none is; byte `p` of it is byte `p % hlen` of
      block `p / hlen + 1`. */
  ghost predicate RightKey(prf: Prf, hlen: nat, salt: Bytes, c: nat, dklen: nat, key: Bytes)
    requires IsPrf(prf, hlen) && c > 0
  {
    && |key| == (if dklen == 0 then hlen else dklen) && |key| <= 0xffff_ffff * hlen
    && forall p :: 0 <= p < |key| ==> RightByte(prf, hlen, salt, c, key, p)
  }

  ghost predicate RightByte(prf: Prf, hlen: nat, salt: Bytes, c: nat, key: Bytes, p: nat)
    requires IsPrf(prf, hlen) && c > 0 && p < |key| <= 0xffff_ffff * hlen
  {
    QuotientLess(p, 0xffff_ffff, hlen);
    key[p] == Block(prf, hlen, salt, p / hlen + 1, c)[p % hlen]
  }

  lemma CutIsRight(prf: Prf, hlen: nat, salt: Bytes, c: nat, dklen: nat, l: nat)
    requires IsPrf(prf, hlen) && c > 0 && dklen <= 0xffff_ffff * hlen
    requires l <= 0xffff_ffff && Wanted(hlen, dklen) <= l * hlen
    ensures RightKey(prf, hlen, salt, c, dklen, Blocks(prf, hlen, salt, c, l)[..Wanted(hlen, dklen)])
  {
    var n := Wanted(hlen, dklen);
    var key := Blocks(prf, hlen, salt, c, l)[..n];
    assert n <= 0xffff_ffff * hlen && n == if dklen == 0 then hlen else dklen;
    hide IsPrf, Block, Blocks, Wanted;
    forall p | 0 <= p < n
      ensures RightByte(prf, hlen, salt, c, key, p)
    {
      BlocksAt(prf, hlen, salt, c, l, p);
    }
  }

  lemma BlocksStep(prf: Prf, hlen: nat, salt: Bytes, c: nat, l: nat)
    requires IsPrf(prf, hlen) && 0 < l < 0x1_0000_0000 && c > 0
    ensures Blocks(prf, hlen, salt, c, l) == Blocks(prf, hlen, salt, c, l - 1) + Block(prf, hlen, salt, l, c)
  {
  }

  lemma LastCut(prf: Prf, hlen: nat, salt: Bytes, c: nat, l: nat, n: nat, rest: nat)
    requires IsPrf(prf, hlen) && c > 0 && 0 < l <= 0xffff_ffff && n == (l - 1) * hlen + rest && rest <= hlen
    ensures n <= l * hlen
    ensures Blocks(prf, hlen, salt, c, l - 1) + Block(prf, hlen, salt, l, c)[..rest] == Blocks(prf, hlen, salt, c, l)[..n]
  {
    assert l * hlen == (l - 1) * hlen + hlen;
    BlocksStep(prf, hlen, salt, c, l);
    hide Blocks, Block, IsPrf;
  }

  /** The blocks of a key of `n` bytes, the last one cut. */
  method JoinBlocks(prf: Prf, hlen: nat, salt: Bytes, iterations: nat, n: nat, floor: nat) returns (key: Bytes)
    requires IsPrf(prf, hlen) && iterations > 0 && 0 < floor <= 0xffff_ffff
    requires (floor - 1) * hlen < n <= floor * hlen
    ensures key == Blocks(prf, hlen, salt, iterations, floor)[..n]
  {
    hide Block, IsPrf, Blocks;
    var rest := n - (floor - 1) * hlen;
    assert rest <= hlen by {
      assert floor * hlen == (floor - 1) * hlen + hlen;
    }
    var t: Bytes := [];
    NoBlocks(prf, hlen, salt, iterations);
    for x := 1 to floor
      invariant t == Blocks(prf, hlen, salt, iterations, x - 1)
    {
      var block := F(prf, hlen, salt, iterations, x);
      BlocksStep(prf, hlen, salt, iterations, x);
      t := t + block;
    }
    var last := F(prf, hlen, salt, iterations, floor);
    LastCut(prf, hlen, salt, iterations, floor, n, rest);
    key := t + last[..rest];
  }

  lemma NoBlocks(prf: Prf, hlen: nat, salt: Bytes, c: nat)
    requires IsPrf(prf, hlen) && c > 0
    ensures Blocks(prf, hlen, salt, c, 0) == []
  {
  }

  lemma DigestSize(prf: Prf, hlen: nat, dklen: nat)
    requires IsPrf(prf, hlen)
    ensures hlen > 0 && Wanted(hlen, dklen) > 0
    ensures Wanted(hlen, dklen) > 0xffff_ffff * hlen <==> dklen > 0xffff_ffff * hlen
  {
  }

  /** The derived key: the first `dklen` bytes of as many blocks as that takes. */
  method DeriveKey(prf: Prf, hlen: nat, salt: Bytes, iterations: nat, dklen: nat) returns (r: Result<Bytes, Error>)
    requires IsPrf(prf, hlen)
    ensures r == Err(NoIterations) <==> iterations == 0
    ensures r == Err(DklenTooBig) <==> iterations > 0 && dklen > 0xffff_ffff * hlen
    ensures r.Ok? ==> RightKey(prf, hlen, salt, iterations, dklen, r.value)
    ensures r.Ok? ==> var n, l := Wanted(hlen, dklen), BlockCount(Wanted(hlen, dklen), hlen);
      && 0 < l <= 0xffff_ffff && n <= l * hlen
      && r.value == Blocks(prf, hlen, salt, iterations, l)[..n]
  {
    DigestSize(prf, hlen, dklen);
    hide IsPrf, Blocks, BlockCount, RightKey, Wanted;
    if iterations == 0 {
      return Err(NoIterations);
    }
    var n := Wanted(hlen, dklen);
    if n > 0xffff_ffff * hlen {
      return Err(DklenTooBig);
    }
    BlockCountBounds(n, hlen);
    var floor := BlockCount(n, hlen);
    var key := JoinBlocks(prf, hlen, salt, iterations, n, floor);
    CutIsRight(prf, hlen, salt, iterations, dklen, floor);
    r := Ok(key);
  }
}
