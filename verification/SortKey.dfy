/**
  Order-preserving scalar keys: a byte codec whose lexical order, with any
  suffix appended, is the order of the values.
 */
module SortKey {
  import opened Prelude

  type Byte = b: int | 0 <= b < 256
  type Bytes = seq<Byte>

  const SIGN: int := 0x8000_0000_0000_0000
  const WORD: int := 0x1_0000_0000_0000_0000

  type U64 = n: int | 0 <= n < WORD
  type I64 = n: int | -SIGN <= n < SIGN

  datatype Scalar =
    | Null
    | Boolean(flag: bool)
    | Signed(i: I64)
    | Number(bits: U64)
    | Unsigned(u: U64)
    | Str(utf8: Bytes)

  datatype KeyError = UnexpectedEof | InvalidFormat | NotFinite

  // ---- IEEE 754 binary64 and UTF-8

  predicate Finite(bits: U64) {
    bits % SIGN / 0x10_0000_0000_0000 != 2047
  }

  predicate IsZero(bits: U64) {
    bits % SIGN == 0
  }

  predicate Continuation(b: Byte) {
    0x80 <= b <= 0xBF
  }

  /** Length of the well-formed sequence at the start, zero if there is none. */
  function Utf8Length(s: Bytes): nat {
    if |s| >= 1 && s[0] < 0x80 then 1
    else if |s| >= 2 && 0xC2 <= s[0] <= 0xDF && Continuation(s[1]) then 2
    else if |s| >= 3 && 0xE0 <= s[0] <= 0xEF && Continuation(s[1]) && Continuation(s[2])
            && (s[0] == 0xE0 ==> s[1] >= 0xA0) && (s[0] == 0xED ==> s[1] <= 0x9F) then 3
    else if |s| >= 4 && 0xF0 <= s[0] <= 0xF4 && Continuation(s[1]) && Continuation(s[2]) && Continuation(s[3])
            && (s[0] == 0xF0 ==> s[1] >= 0x90) && (s[0] == 0xF4 ==> s[1] <= 0x8F) then 4
    else 0
  }

  predicate ValidUtf8(s: Bytes) {
    s == [] || (0 < Utf8Length(s) <= |s| && ValidUtf8(s[Utf8Length(s)..]))
  }

  /** Values a key can stand for: finite numbers without negative zero, and text. */
  predicate Canonical(v: Scalar) {
    match v
    case Number(bits) => Finite(bits) && (IsZero(bits) ==> bits == 0)
    case Str(utf8) => ValidUtf8(utf8)
    case _ => true
  }

  // ---- The value order

  function Tag(v: Scalar): Byte {
    match v
    case Null => 0
    case Boolean(_) => 1
    case Signed(_) => 2
    case Number(_) => 3
    case Unsigned(_) => 4
    case Str(_) => 5
  }

  predicate LexLess(x: Bytes, y: Bytes) {
    y != [] && (x == [] || x[0] < y[0] || (x[0] == y[0] && LexLess(x[1..], y[1..])))
  }

  /** The integer that `f64::total_cmp` compares. */
  function TotalKey(bits: U64): int {
    if bits < SIGN then bits else SIGN - 1 - bits
  }

  predicate Less(a: Scalar, b: Scalar) {
    Tag(a) < Tag(b) ||
    match (a, b)
    case (Boolean(x), Boolean(y)) => !x && y
    case (Signed(x), Signed(y)) => x < y
    case (Number(x), Number(y)) => TotalKey(x) < TotalKey(y)
    case (Unsigned(x), Unsigned(y)) => x < y
    case (Str(x), Str(y)) => LexLess(x, y)
    case _ => false
  }

  function Pow2(n: nat): nat {
    if n == 0 then 1 else 2 * Pow2(n - 1)
  }

  const FRACTION: int := 0x10_0000_0000_0000

  /** An exponent and a fraction below 2^52 as a multiple of the smallest subnormal, 2^-1074. */
  function Magnitude(exponent: nat, fraction: nat): nat {
    if exponent == 0 then fraction else (FRACTION + fraction) * Pow2(exponent - 1)
  }

  /** The number a binary64 pattern stands for, times 2^1074. */
  function Scaled(bits: U64): int {
    var scaled: int := Unsigned63(bits % SIGN);
    if bits < SIGN then scaled else -scaled
  }

  function Unsigned63(magnitude: nat): nat {
    Magnitude(magnitude / FRACTION, magnitude % FRACTION)
  }

  lemma {:induction false} Pow2Grows(m: nat, n: nat)
    requires m <= n
    ensures 1 <= Pow2(m) <= Pow2(n)
    ensures m < n ==> 2 * Pow2(m) <= Pow2(n)
    decreases n
  {
    if m < n {
      Pow2Grows(m, n - 1);
    } else if n > 0 {
      Pow2Grows(n - 1, n - 1);
    }
  }

  lemma ScaleOrder(x: int, y: int, k: int)
    requires k >= 1
    ensures x < y ==> x * k < y * k
    ensures x <= y ==> x * k <= y * k
  {
  }

  lemma MagnitudeGrows(e: nat, f: nat, e': nat, f': nat)
    requires f < FRACTION && f' < FRACTION
    requires e < e' || (e == e' && f < f')
    ensures Magnitude(e, f) < Magnitude(e', f')
  {
    if e == e' {
      if e > 0 {
        Pow2Grows(e - 1, e - 1);
        ScaleOrder(FRACTION + f, FRACTION + f', Pow2(e - 1));
      }
    } else {
      Pow2Grows(e' - 1, e' - 1);
      ScaleOrder(FRACTION, FRACTION + f', Pow2(e' - 1));
      if e == 0 {
        assert FRACTION * 1 <= FRACTION * Pow2(e' - 1);
      } else {
        Pow2Grows(e - 1, e' - 1);
        ScaleOrder(FRACTION + f, 2 * FRACTION, Pow2(e - 1));
        assert 2 * FRACTION * Pow2(e - 1) <= FRACTION * Pow2(e' - 1);
      }
    }
  }

  lemma MagnitudesOrder(m: nat, n: nat)
    requires m < n
    ensures Unsigned63(m) < Unsigned63(n)
  {
    var (e, f) := (m / FRACTION, m % FRACTION);
    var (e', f') := (n / FRACTION, n % FRACTION);
    assert m == e * FRACTION + f && n == e' * FRACTION + f';
    MagnitudeGrows(e, f, e', f');
  }

  lemma MagnitudesCompare(m: nat, n: nat)
    ensures m < n <==> Unsigned63(m) < Unsigned63(n)
    ensures Unsigned63(m) == 0 <==> m == 0
  {
    if m < n {
      MagnitudesOrder(m, n);
    } else if n < m {
      MagnitudesOrder(n, m);
    }
    if m > 0 {
      MagnitudesOrder(0, m);
    }
  }

  lemma SignSplit(bits: U64)
    ensures bits % SIGN == if bits < SIGN then bits else bits - SIGN
  {
  }

  /** The canonical order of numbers is their numeric order. */
  lemma NumbersOrderNumerically(a: U64, b: U64)
    requires Canonical(Number(a)) && Canonical(Number(b))
    ensures Less(Number(a), Number(b)) <==> Scaled(a) < Scaled(b)
  {
    SignSplit(a);
    SignSplit(b);
    MagnitudesCompare(a % SIGN, b % SIGN);
    MagnitudesCompare(b % SIGN, a % SIGN);
    assert Less(Number(a), Number(b)) <==> TotalKey(a) < TotalKey(b);
  }

  // ---- Keys

  function BigEndian(n: nat, width: nat): (r: Bytes)
    ensures |r| == width
  {
    if width == 0 then [] else BigEndian(n / 256, width - 1) + [n % 256]
  }

  /** A 64-bit word with its top bit flipped. */
  function FlipSign(n: U64): U64 {
    if n < SIGN then n + SIGN else n - SIGN
  }

  function AsWord(i: I64): U64 {
    if i < 0 then i + WORD else i
  }

  function Sortable(bits: U64): U64 {
    if bits >= SIGN then WORD - 1 - bits else FlipSign(bits)
  }

  function Escape(s: Bytes): Bytes {
    if s == [] then [] else (if s[0] == 0 then [0, 1] else [s[0]]) + Escape(s[1..])
  }

  /** The key of a canonical value. */
  function Key(v: Scalar): Bytes {
    match v
    case Null => [0]
    case Boolean(flag) => [1, if flag then 1 else 0]
    case Signed(i) => [2] + BigEndian(FlipSign(AsWord(i)), 8)
    case Number(bits) => [3] + BigEndian(Sortable(bits), 8)
    case Unsigned(u) => [4] + BigEndian(u, 8)
    case Str(utf8) => [5] + Escape(utf8) + [0, 0]
  }

  /** Negative zero is encoded as zero. */
  function Normalized(v: Scalar): Scalar {
    if v.Number? && IsZero(v.bits) then Number(0) else v
  }

  method PushWord(out: Bytes, n: U64) returns (r: Bytes)
    ensures r == out + BigEndian(n, 8)
  {
    var rest: nat, tail: Bytes := n, [];
    for i := 0 to 8
      invariant BigEndian(n, 8) == BigEndian(rest, 8 - i) + tail
    {
      tail := [rest % 256] + tail;
      rest := rest / 256;
    }
    r := out + tail;
  }

  /** Encoding fails exactly on numbers that are not finite. */
  method EncodeScalarSortKey(v: Scalar) returns (r: Result<Bytes, KeyError>)
    ensures r == if v.Number? && !Finite(v.bits) then Err(NotFinite) else Ok(Key(Normalized(v)))
  {
    var out: Bytes := [];
    match v {
      case Null => out := [0];
      case Boolean(flag) => out := [1, if flag then 1 else 0];
      case Signed(i) =>
        out := [2];
        out := PushWord(out, FlipSign(AsWord(i)));
      case Number(bits) =>
        if !Finite(bits) {
          return Err(NotFinite);
        }
        out := [3];
        var normalized := if IsZero(bits) then 0 else bits;
        out := PushWord(out, if normalized >= SIGN then WORD - 1 - normalized else FlipSign(normalized));
      case Unsigned(u) =>
        out := [4];
        out := PushWord(out, u);
      case Str(utf8) =>
        out := [5];
        assert utf8[..0] == [];
        for k := 0 to |utf8|
          invariant out == [5] + Escape(utf8[..k])
        {
          EscapeSnoc(utf8[..k], utf8[k]);
          assert utf8[..k + 1] == utf8[..k] + [utf8[k]];
          out := out + if utf8[k] == 0 then [0, 1] else [utf8[k]];
        }
        assert utf8[..|utf8|] == utf8;
        out := out + [0, 0];
    }
    return Ok(out);
  }

  lemma {:induction false} EscapeSnoc(s: Bytes, b: Byte)
    ensures Escape(s + [b]) == Escape(s) + if b == 0 then [0, 1] else [b]
    decreases |s|
  {
    if s != [] {
      assert (s + [b])[1..] == s[1..] + [b];
      EscapeSnoc(s[1..], b);
    } else {
      assert s + [b] == [b] && Escape([b][1..]) == [];
    }
  }

  // ---- Keys sort like values

  lemma {:induction false} LexPrefix(p: Bytes, x: Bytes, y: Bytes)
    ensures LexLess(p + x, p + y) <==> LexLess(x, y)
  {
    if p == [] {
      assert p + x == x && p + y == y;
    } else {
      assert (p + x)[1..] == p[1..] + x && (p + y)[1..] == p[1..] + y;
      LexPrefix(p[1..], x, y);
    }
  }

  lemma {:induction false} BigEndianOrder(a: nat, b: nat, width: nat, s: Bytes, t: Bytes)
    requires Fits(a, width) && Fits(b, width)
    ensures a != b ==> (LexLess(BigEndian(a, width) + s, BigEndian(b, width) + t) <==> a < b)
    ensures BigEndian(a, width) == BigEndian(b, width) ==> a == b
    decreases width
  {
    if width > 0 {
      var sa, tb := [a % 256] + s, [b % 256] + t;
      assert BigEndian(a, width) + s == BigEndian(a / 256, width - 1) + sa;
      assert BigEndian(b, width) + t == BigEndian(b / 256, width - 1) + tb;
      if a / 256 == b / 256 {
        LexPrefix(BigEndian(a / 256, width - 1), sa, tb);
      } else {
        BigEndianOrder(a / 256, b / 256, width - 1, sa, tb);
        assert BigEndian(a, width)[..width - 1] == BigEndian(a / 256, width - 1);
        assert BigEndian(b, width)[..width - 1] == BigEndian(b / 256, width - 1);
      }
      assert BigEndian(a, width)[width - 1] == a % 256 && BigEndian(b, width)[width - 1] == b % 256;
    }
  }

  /** The number has no more than `width` bytes. */
  predicate Fits(n: nat, width: nat) {
    if width == 0 then n == 0 else Fits(n / 256, width - 1)
  }

  lemma EscapeHead(a: Bytes, s: Bytes)
    requires a != []
    ensures Escape(a) + [0, 0] + s == (if a[0] == 0 then [0, 1] else [a[0]]) + (Escape(a[1..]) + [0, 0] + s)
  {
  }

  /** The terminator sorts before everything that an escaped byte starts with. */
  lemma TerminatorFirst(b: Bytes, s: Bytes, t: Bytes)
    requires b != []
    ensures LexLess([0, 0] + s, Escape(b) + [0, 0] + t) && !LexLess(Escape(b) + [0, 0] + t, [0, 0] + s)
  {
    EscapeHead(b, t);
    var left, right := [0, 0] + s, Escape(b) + [0, 0] + t;
    assert left[1..] == [0] + s;
    assert b[0] == 0 ==> right[1..] == [1] + (Escape(b[1..]) + [0, 0] + t);
  }

  lemma {:induction false} EscapeOrder(a: Bytes, b: Bytes, s: Bytes, t: Bytes)
    requires a != b
    ensures LexLess(Escape(a) + [0, 0] + s, Escape(b) + [0, 0] + t) <==> LexLess(a, b)
    decreases |a|
  {
    if a == [] {
      assert Escape(a) + [0, 0] + s == [0, 0] + s;
      TerminatorFirst(b, s, t);
    } else if b == [] {
      assert Escape(b) + [0, 0] + t == [0, 0] + t;
      TerminatorFirst(a, t, s);
    } else {
      EscapeHead(a, s);
      EscapeHead(b, t);
      if a[0] == b[0] {
        var head: Bytes := if a[0] == 0 then [0, 1] else [a[0]];
        LexPrefix(head, Escape(a[1..]) + [0, 0] + s, Escape(b[1..]) + [0, 0] + t);
        EscapeOrder(a[1..], b[1..], s, t);
      }
    }
  }

  function Pow256(width: nat): nat {
    if width == 0 then 1 else 256 * Pow256(width - 1)
  }

  lemma {:induction false} BelowFits(n: nat, width: nat)
    requires n < Pow256(width)
    ensures Fits(n, width)
  {
    if width > 0 {
      BelowFits(n / 256, width - 1);
    }
  }

  lemma WordFits(n: U64)
    ensures Fits(n, 8)
  {
    assert Pow256(2) == 0x1_0000 && Pow256(4) == 0x1_0000_0000 && Pow256(6) == 0x1_0000_0000_0000;
    assert Pow256(8) == WORD;
    BelowFits(n, 8);
  }

  lemma WordOrder(tag: Byte, a: U64, b: U64, s: Bytes, t: Bytes)
    requires a != b
    ensures LexLess([tag] + BigEndian(a, 8) + s, [tag] + BigEndian(b, 8) + t) <==> a < b
  {
    WordFits(a);
    WordFits(b);
    BigEndianOrder(a, b, 8, s, t);
    assert [tag] + BigEndian(a, 8) + s == [tag] + (BigEndian(a, 8) + s);
    assert [tag] + BigEndian(b, 8) + t == [tag] + (BigEndian(b, 8) + t);
    LexPrefix([tag], BigEndian(a, 8) + s, BigEndian(b, 8) + t);
  }

  lemma SortableOrder(a: U64, b: U64)
    requires a != b
    ensures Sortable(a) != Sortable(b) && (Sortable(a) < Sortable(b) <==> TotalKey(a) < TotalKey(b))
  {
  }

  lemma SignedOrder(a: I64, b: I64)
    requires a != b
    ensures FlipSign(AsWord(a)) != FlipSign(AsWord(b))
    ensures FlipSign(AsWord(a)) < FlipSign(AsWord(b)) <==> a < b
  {
  }

  lemma StringOrder(a: Bytes, b: Bytes, s: Bytes, t: Bytes)
    requires a != b
    ensures LexLess([5] + Escape(a) + [0, 0] + s, [5] + Escape(b) + [0, 0] + t) <==> LexLess(a, b)
  {
    var left, right := Escape(a) + [0, 0] + s, Escape(b) + [0, 0] + t;
    EscapeOrder(a, b, s, t);
    assert [5] + Escape(a) + [0, 0] + s == [5] + left;
    assert [5] + Escape(b) + [0, 0] + t == [5] + right;
    LexPrefix([5], left, right);
  }

  lemma TagsSort(a: Scalar, b: Scalar, s: Bytes, t: Bytes)
    requires Tag(a) != Tag(b)
    ensures LexLess(Key(a) + s, Key(b) + t) <==> Tag(a) < Tag(b)
  {
    assert (Key(a) + s)[0] == Tag(a) && (Key(b) + t)[0] == Tag(b);
  }

  /**
    For distinct canonical values, and whatever follows the keys, the keys sort
    as the values do; so no key is a prefix of another.
   */
  lemma KeysSortLikeValues(a: Scalar, b: Scalar, s: Bytes, t: Bytes)
    requires Canonical(a) && Canonical(b) && a != b
    ensures LexLess(Key(a) + s, Key(b) + t) <==> Less(a, b)
  {
    match (a, b)
    case (Boolean(x), Boolean(y)) =>
      assert Key(a) + s == [1] + ([Key(a)[1]] + s) && Key(b) + t == [1] + ([Key(b)[1]] + t);
      LexPrefix([1], [Key(a)[1]] + s, [Key(b)[1]] + t);
    case (Signed(x), Signed(y)) =>
      SignedOrder(x, y);
      WordOrder(2, FlipSign(AsWord(x)), FlipSign(AsWord(y)), s, t);
    case (Number(x), Number(y)) =>
      SortableOrder(x, y);
      WordOrder(3, Sortable(x), Sortable(y), s, t);
    case (Unsigned(x), Unsigned(y)) => WordOrder(4, x, y, s, t);
    case (Str(x), Str(y)) => StringOrder(x, y, s, t);
    case _ => TagsSort(a, b, s, t);
  }

  lemma {:induction false} LexIrreflexive(x: Bytes)
    ensures !LexLess(x, x)
  {
    if x != [] {
      LexIrreflexive(x[1..]);
    }
  }

  lemma {:induction false} LessIsTotal(a: Scalar, b: Scalar)
    requires Canonical(a) && Canonical(b) && a != b
    ensures Less(a, b) || Less(b, a)
  {
    if a.Str? && b.Str? {
      LexTotal(a.utf8, b.utf8);
    }
  }

  lemma {:induction false} LexTotal(x: Bytes, y: Bytes)
    requires x != y
    ensures LexLess(x, y) || LexLess(y, x)
  {
    if x != [] && y != [] && x[0] == y[0] {
      LexTotal(x[1..], y[1..]);
    }
  }

  lemma PrefixAndRest(prefix: Bytes, bytes: Bytes)
    requires prefix <= bytes
    ensures prefix + bytes[|prefix|..] == bytes
  {
  }

  /** Keys that start the same bytes are keys of the same value. */
  lemma KeysArePrefixFree(a: Scalar, b: Scalar, bytes: Bytes)
    requires Canonical(a) && Canonical(b) && Key(a) <= bytes && Key(b) <= bytes
    ensures a == b
  {
    if a != b {
      var s, t := bytes[|Key(a)|..], bytes[|Key(b)|..];
      PrefixAndRest(Key(a), bytes);
      PrefixAndRest(Key(b), bytes);
      KeysSortLikeValues(a, b, s, t);
      KeysSortLikeValues(b, a, t, s);
      LessIsTotal(a, b);
      LexIrreflexive(bytes);
    }
  }

  // ---- Decoding

  function FromBigEndian(s: Bytes): nat {
    if s == [] then 0 else FromBigEndian(s[..|s| - 1]) * 256 + s[|s| - 1]
  }

  lemma {:induction false} BigEndianRoundTrip(s: Bytes)
    ensures BigEndian(FromBigEndian(s), |s|) == s && Fits(FromBigEndian(s), |s|)
  {
    if s != [] {
      BigEndianRoundTrip(s[..|s| - 1]);
      assert s == s[..|s| - 1] + [s[|s| - 1]];
    }
  }

  lemma {:induction false} FitsBound(n: nat, width: nat)
    requires width == 8 && Fits(n, width)
    ensures n < WORD
  {
    assert Fits(n / 256, 7) && Fits(n / 0x1_0000, 6) && Fits(n / 0x100_0000, 5) && Fits(n / 0x1_0000_0000, 4)
        && Fits(n / 0x100_0000_0000, 3) && Fits(n / 0x1_0000_0000_0000, 2) && Fits(n / 0x100_0000_0000_0000, 1);
    assert Fits(n / 0x100_0000_0000_0000 / 256, 0);
  }

  method TakeWord(bytes: Bytes) returns (r: Result<U64, KeyError>)
    requires bytes != []
    ensures r.Ok? <==> |bytes| >= 9
    ensures r.Ok? ==> BigEndian(r.value, 8) == bytes[1..9]
  {
    if |bytes| < 9 {
      return Err(UnexpectedEof);
    }
    BigEndianRoundTrip(bytes[1..9]);
    FitsBound(FromBigEndian(bytes[1..9]), 8);
    return Ok(FromBigEndian(bytes[1..9]));
  }

  ghost predicate StartsWithKey(bytes: Bytes, v: Scalar) {
    Canonical(v) && Key(v) <= bytes
  }

  /**
    Decoding accepts exactly the bytes that start with a key. Whatever follows the key, it
    returns that value and the key's length, and what it accepts re-encodes to the bytes used.
   */
  method DecodeScalarSortKey(bytes: Bytes) returns (r: Result<(Scalar, nat), KeyError>)
    ensures forall v :: StartsWithKey(bytes, v) ==> r == Ok((v, |Key(v)|))
    ensures r.Ok? ==> Canonical(r.value.0) && r.value.1 <= |bytes| && Key(r.value.0) == bytes[..r.value.1]
  {
    r := DecodeByTag(bytes);
    forall v | StartsWithKey(bytes, v)
      ensures r == Ok((v, |Key(v)|))
    {
      KeysArePrefixFree(v, r.value.0, bytes);
    }
  }

  method DecodeByTag(bytes: Bytes) returns (r: Result<(Scalar, nat), KeyError>)
    ensures r.Ok? ==> StartsWithKey(bytes, r.value.0) && r.value.1 == |Key(r.value.0)|
    ensures r.Err? ==> forall v :: !StartsWithKey(bytes, v)
  {
    if bytes == [] {
      return Err(UnexpectedEof);
    }
    match bytes[0]
    case 0 =>
      assert Key(Null) <= bytes;
      return Ok((Null, 1));
    case 1 =>
      if |bytes| > 1 && bytes[1] == 0 {
        return Ok((Boolean(false), 2));
      } else if |bytes| > 1 && bytes[1] == 1 {
        return Ok((Boolean(true), 2));
      }
      return Err(InvalidFormat);
    case 2 =>
      var word := TakeWord(bytes);
      if word.Err? {
        return Err(word.error);
      }
      var flipped := FlipSign(word.value);
      var v := Signed(if flipped < SIGN then flipped else flipped - WORD);
      assert Key(v) == bytes[..9];
      return Ok((v, 9));
    case 3 =>
      r := DecodeNumber(bytes);
    case 4 =>
      var word := TakeWord(bytes);
      if word.Err? {
        return Err(word.error);
      }
      assert Key(Unsigned(word.value)) == bytes[..9];
      return Ok((Unsigned(word.value), 9));
    case 5 =>
      r := DecodeString(bytes);
    case _ =>
      return Err(InvalidFormat);
  }

  method DecodeNumber(bytes: Bytes) returns (r: Result<(Scalar, nat), KeyError>)
    requires bytes != [] && bytes[0] == 3
    ensures r.Ok? ==> StartsWithKey(bytes, r.value.0) && r.value.1 == |Key(r.value.0)|
    ensures r.Err? ==> forall v :: !StartsWithKey(bytes, v)
  {
    var word := TakeWord(bytes);
    if word.Err? {
      return Err(word.error);
    }
    var sortable := word.value;
    var bits := if sortable >= SIGN then FlipSign(sortable) else WORD - 1 - sortable;
    assert Sortable(bits) == sortable;
    assert Key(Number(bits)) == bytes[..9];
    forall v | StartsWithKey(bytes, v)
      ensures v == Number(bits)
    {
      WordFits(Sortable(v.bits));
      WordFits(sortable);
      assert Key(v)[1..9] == bytes[1..9];
      BigEndianOrder(Sortable(v.bits), sortable, 8, [], []);
    }
    if IsZero(bits) && bits != 0 {
      return Err(InvalidFormat);
    }
    if !Finite(bits) {
      return Err(NotFinite);
    }
    return Ok((Number(bits), 9));
  }

  /** The string before the first terminator and the bytes used, if every escape up to it is valid. */
  function Unescape(s: Bytes): Option<(Bytes, nat)> {
    if s == [] then None
    else if s[0] != 0 then Prepend([s[0]], 1, Unescape(s[1..]))
    else if |s| == 1 then None
    else if s[1] == 0 then Some(([], 2))
    else if s[1] == 1 then Prepend([0], 2, Unescape(s[2..]))
    else None
  }

  function Prepend(value: Bytes, used: nat, r: Option<(Bytes, nat)>): Option<(Bytes, nat)> {
    if r.None? then None else Some((value + r.value.0, used + r.value.1))
  }

  lemma {:induction false} UnescapeSound(s: Bytes)
    requires Unescape(s).Some?
    ensures Unescape(s).value.1 <= |s| && s[..Unescape(s).value.1] == Escape(Unescape(s).value.0) + [0, 0]
    decreases |s|
  {
    if s[0] != 0 {
      UnescapeSound(s[1..]);
      var (x, n) := Unescape(s[1..]).value;
      assert s[..n + 1] == [s[0]] + s[1..][..n];
      assert ([s[0]] + x)[1..] == x;
    } else if s[1] == 1 {
      UnescapeSound(s[2..]);
      var (x, n) := Unescape(s[2..]).value;
      assert s[..n + 2] == [0, 1] + s[2..][..n];
      assert ([0] + x)[1..] == x;
    }
  }

  lemma {:induction false} UnescapeComplete(x: Bytes, t: Bytes)
    ensures Unescape(Escape(x) + [0, 0] + t) == Some((x, |Escape(x)| + 2))
    decreases |x|
  {
    var s := Escape(x) + [0, 0] + t;
    if x != [] {
      var rest := Escape(x[1..]) + [0, 0] + t;
      UnescapeComplete(x[1..], t);
      if x[0] == 0 {
        assert s == [0, 1] + rest;
        assert s[2..] == rest;
      } else {
        assert s == [x[0]] + rest;
        assert s[1..] == rest;
      }
      assert [x[0]] + x[1..] == x;
    }
  }

  method DecodeString(bytes: Bytes) returns (r: Result<(Scalar, nat), KeyError>)
    requires bytes != [] && bytes[0] == 5
    ensures r.Ok? ==> StartsWithKey(bytes, r.value.0) && r.value.1 == |Key(r.value.0)|
    ensures r.Err? ==> forall v :: !StartsWithKey(bytes, v)
  {
    StringKeys(bytes);
    var text := DecodeText(bytes);
    if text.Err? {
      return Err(text.error);
    }
    if !ValidUtf8(text.value.0) {
      return Err(InvalidFormat);
    }
    return Ok((Str(text.value.0), text.value.1));
  }

  /** One pass over the escaped text behind the tag, up to its terminator. */
  method DecodeText(bytes: Bytes) returns (r: Result<(Bytes, nat), KeyError>)
    requires bytes != []
    ensures r.Ok? <==> Unescape(bytes[1..]).Some?
    ensures r.Ok? ==> Unescape(bytes[1..]) == Some((r.value.0, r.value.1 - 1))
  {
    ghost var whole := Unescape(bytes[1..]);
    var cursor := 1;
    var value: Bytes := [];
    assert whole.Some? ==> value + whole.value.0 == whole.value.0;
    while cursor < |bytes|
      invariant 1 <= cursor <= |bytes| && whole == Prepend(value, cursor - 1, Unescape(bytes[cursor..]))
      decreases |bytes| - cursor
    {
      var byte := bytes[cursor];
      ghost var s := bytes[cursor..];
      cursor := cursor + 1;
      if byte == 0 {
        if cursor < |bytes| && bytes[cursor] == 0 {
          cursor := cursor + 1;
          assert value + [] == value;
          return Ok((value, cursor));
        } else if cursor < |bytes| && bytes[cursor] == 1 {
          assert s[2..] == bytes[cursor + 1..];
          PrependTwice(value, cursor - 2, [0], 2, Unescape(bytes[cursor + 1..]));
          value := value + [0];
          cursor := cursor + 1;
        } else {
          return Err(InvalidFormat);
        }
      } else {
        assert s[1..] == bytes[cursor..];
        PrependTwice(value, cursor - 2, [byte], 1, Unescape(bytes[cursor..]));
        value := value + [byte];
      }
    }
    return Err(UnexpectedEof);
  }

  lemma PrependTwice(a: Bytes, m: nat, b: Bytes, n: nat, r: Option<(Bytes, nat)>)
    ensures Prepend(a, m, Prepend(b, n, r)) == Prepend(a + b, m + n, r)
  {
    if r.Some? {
      assert a + (b + r.value.0) == a + b + r.value.0;
    }
  }

  /** Bytes tagged as a string start with a key exactly when they unescape to text. */
  lemma StringKeys(bytes: Bytes)
    requires bytes != [] && bytes[0] == 5
    ensures var u := Unescape(bytes[1..]);
            && (u.Some? && ValidUtf8(u.value.0) ==>
                  StartsWithKey(bytes, Str(u.value.0)) && |Key(Str(u.value.0))| == u.value.1 + 1)
            && (u.None? || !ValidUtf8(u.value.0) ==> forall v :: !StartsWithKey(bytes, v))
  {
    var u := Unescape(bytes[1..]);
    if u.Some? {
      UnescapeSound(bytes[1..]);
      assert Key(Str(u.value.0)) == [5] + bytes[1..][..u.value.1] == bytes[..u.value.1 + 1];
    }
    forall v | StartsWithKey(bytes, v)
      ensures u.Some? && ValidUtf8(u.value.0)
    {
      TextBehindKey(bytes, v);
    }
  }

  lemma TextBehindKey(bytes: Bytes, v: Scalar)
    requires bytes != [] && bytes[0] == 5 && StartsWithKey(bytes, v)
    ensures v.Str? && ValidUtf8(v.utf8) && Unescape(bytes[1..]) == Some((v.utf8, |Escape(v.utf8)| + 2))
  {
    assert Key(v)[0] == 5;
    var t := bytes[|Key(v)|..];
    assert bytes[1..] == Escape(v.utf8) + [0, 0] + t;
    UnescapeComplete(v.utf8, t);
  }
}
