/** Machine words as the io_uring runtime uses them: masks, disjoint ors, casts and the packed user_data. */
module Words {

  function Pow2(k: nat): (p: nat)
    ensures p > 0
  {
    if k == 0 then 1 else 2 * Pow2(k - 1)
  }

  function BitAnd(x: nat, y: nat): nat {
    if x == 0 || y == 0 then 0 else 2 * BitAnd(x / 2, y / 2) + (x % 2) * (y % 2)
  }

  function BitOr(x: nat, y: nat): nat
    decreases x + y
  {
    if x == 0 then y else if y == 0 then x
    else 2 * BitOr(x / 2, y / 2) + if x % 2 == 1 || y % 2 == 1 then 1 else 0
  }

  /** Masking with a power of two less one is the remainder. */
  lemma {:induction false} MaskIsRemainder(x: nat, k: nat)
    ensures BitAnd(x, Pow2(k) - 1) == x % Pow2(k)
    decreases k
  {
    if k == 0 {
      assert Pow2(k) == 1 && BitAnd(x, 0) == 0;
    } else if x == 0 {
      Remainder(0, Pow2(k), 0, 0);
    } else {
      var h := Pow2(k - 1);
      MaskIsRemainder(x / 2, k - 1);
      assert Pow2(k) == 2 * h;
      MaskStep(x, h);
    }
  }

  lemma MaskStep(x: nat, h: nat)
    requires x > 0 && h > 0 && BitAnd(x / 2, h - 1) == (x / 2) % h
    ensures BitAnd(x, 2 * h - 1) == x % (2 * h)
  {
    AndStep(x, h);
    hide BitAnd;
    HalfRemainder(x, h);
  }

  lemma AndStep(x: nat, p: nat)
    requires x > 0 && p > 0
    ensures BitAnd(x, 2 * p - 1) == 2 * BitAnd(x / 2, p - 1) + x % 2
  {
    var y := 2 * p - 1;
    assert y / 2 == p - 1 && y % 2 == 1;
  }

  lemma HalfRemainder(x: nat, p: nat)
    requires p > 0
    ensures x % (2 * p) == 2 * ((x / 2) % p) + x % 2
  {
    var q, r := (x / 2) / p, (x / 2) % p;
    assert x == q * (2 * p) + (2 * r + x % 2) by { assert x / 2 == q * p + r; }
    Remainder(x, 2 * p, q, 2 * r + x % 2);
  }

  lemma Remainder(x: int, p: nat, q: int, r: nat)
    requires x == q * p + r && r < p
    ensures x % p == r && x / p == q
  {
    var d := x / p - q;
    assert d * p == r - x % p by { assert x == (x / p) * p + x % p; }
    Times(d, p);
  }

  lemma Times(d: int, p: nat)
    ensures d > 0 ==> d * p >= p
    ensures d < 0 ==> d * p + p <= 0
  {
    if d > 0 { assert (d - 1) * p >= 0; }
    if d < 0 { assert (-d - 1) * p >= 0; }
  }

  /** Or-ing a value below a power of two with a multiple of it loses nothing. */
  lemma {:induction false} OrIsSum(low: nat, high: nat, k: nat)
    requires low < Pow2(k)
    ensures BitOr(low, high * Pow2(k)) == low + high * Pow2(k)
    decreases k
  {
    if k > 0 && low > 0 && high > 0 {
      var y := high * Pow2(k - 1);
      assert high * Pow2(k) == 2 * y;
      OrIsSum(low / 2, high, k - 1);
    }
  }

  lemma {:induction false} Pow2Divides(j: nat, k: nat)
    requires j <= k
    ensures exists m: nat :: Pow2(k) == m * Pow2(j) && m > 0
    decreases k
  {
    if j == k {
      assert Pow2(k) == 1 * Pow2(j);
    } else {
      Pow2Divides(j, k - 1);
      var m: nat :| Pow2(k - 1) == m * Pow2(j) && m > 0;
      assert Pow2(k) == (2 * m) * Pow2(j);
    }
  }

  /** A counter that wraps at a multiple of `p` keeps its remainder by `p`. */
  lemma WrapKeepsRemainder(x: nat, p: nat, m: nat)
    requires p > 0 && m > 0
    ensures (x % (m * p)) % p == x % p
  {
    var q, r := x / (m * p), x % (m * p);
    assert x == (q * m) * p + r;
    Remainder(x, p, q * m + r / p, r % p) by {
      assert r == (r / p) * p + r % p;
      assert (q * m + r / p) * p == q * m * p + (r / p) * p;
    }
  }

  // ---- user_data ----

  const U64: nat := 0x1_0000_0000_0000_0000
  const U32: nat := 0x1_0000_0000
  const U16: nat := 0x1_0000

  predicate IsI32(x: int) { -0x8000_0000 <= x < 0x8000_0000 }

  function AsU64(x: int): (u: nat)
    ensures u < U64
  {
    x % U64
  }

  function AsI64(u: nat): int {
    if u < U64 / 2 then u else u - U64
  }

  function AsI32(x: int): int {
    var m := x % U32; if m < U32 / 2 then m else m - U32
  }

  /** The low byte is the kind of operation, the rest the sign-extended descriptor. */
  function Pack(op: nat, fd: int): nat {
    BitOr(BitAnd(op, 0xff), (AsU64(fd) * 256) % U64)
  }

  function Unpack(ud: nat): (nat, int) {
    (BitAnd(ud, 0xff), AsI32(AsI64(ud) / 256))
  }

  /** Every descriptor and every kind of operation comes back from a completion's user_data. */
  lemma PackUnpack(op: nat, fd: int)
    requires op < 256 && IsI32(fd)
    ensures Pack(op, fd) < U64
    ensures Unpack(Pack(op, fd)) == (op, fd)
  {
    hide *;
    var high := if fd < 0 then fd + U64 / 256 else fd;
    PackIsSum(op, fd, high);
    UnpackSum(op, fd, high);
  }

  lemma PackIsSum(op: nat, fd: int, high: int)
    requires op < 256 && IsI32(fd) && high == if fd < 0 then fd + U64 / 256 else fd
    ensures high >= 0 && Pack(op, fd) == op + high * 256
  {
    hide BitAnd, BitOr;
    assert Pow2(8) == 256;
    MaskIsRemainder(op, 8);
    ShiftUp(fd, high);
    OrIsSum(op, high, 8);
  }

  lemma ShiftUp(fd: int, high: int)
    requires IsI32(fd) && high == if fd < 0 then fd + U64 / 256 else fd
    ensures (AsU64(fd) * 256) % U64 == high * 256
  {
    if fd < 0 { Remainder(AsU64(fd) * 256, U64, 255, high * 256); }
  }

  lemma UnpackSum(op: nat, fd: int, high: int)
    requires op < 256 && IsI32(fd) && high == if fd < 0 then fd + U64 / 256 else fd
    ensures high >= 0 && op + high * 256 < U64 && Unpack(op + high * 256) == (op, fd)
  {
    hide BitAnd;
    assert Pow2(8) == 256;
    MaskIsRemainder(op + high * 256, 8);
    assert AsI64(op + high * 256) == fd * 256 + op;
  }

  /** Distinct keys never meet in one user_data. */
  lemma PackInjective(op: nat, fd: int, op2: nat, fd2: int)
    requires op < 256 && IsI32(fd) && op2 < 256 && IsI32(fd2)
    ensures Pack(op, fd) == Pack(op2, fd2) <==> op == op2 && fd == fd2
  {
    PackUnpack(op, fd);
    PackUnpack(op2, fd2);
  }
}
