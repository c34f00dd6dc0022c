/** The identifier source: what each call returns and leaves, and when a later identifier sorts later. */
module Ulids {
  import opened Bytes
  import opened Words

  const SIZE: nat := 26

  /** Crockford's base32 alphabet, in ASCII: no I, L, O or U. */
  function Letter(i: nat): byte
    requires i < 32
  {
    if i < 10 then 48 + i
    else if i < 18 then 55 + i
    else if i < 20 then 56 + i
    else if i < 22 then 57 + i
    else if i < 27 then 58 + i
    else 59 + i
  }

  lemma LettersRise(i: nat, j: nat)
    requires i < 32 && j < 32
    ensures Letter(i) < Letter(j) <==> i < j
    ensures Letter(i) == Letter(j) <==> i == j
  {
  }

  // ---- powers of two ----

  lemma TwoNone()
    ensures Two(0) == 1
  {
  }

  lemma TwoFive(n: nat)
    ensures Two(n + 5) == 32 * Two(n) && Two(n + 8) == 256 * Two(n)
  {
    TwoAdds(5, n);
    TwoAdds(8, n);
    assert Two(5) == 32 && Two(8) == 256;
  }

  lemma {:induction false} PowerIsTwo(n: nat)
    ensures Power(n) == Two(8 * n)
  {
    if n > 0 {
      PowerIsTwo(n - 1);
      TwoFive(8 * (n - 1));
    }
  }

  lemma AtLeast(k: nat, d: nat)
    requires k >= 1
    ensures k * d >= d
  {
    assert k * d == (k - 1) * d + d;
  }

  lemma Difference(a: nat, b: nat, d: nat)
    requires a <= b
    ensures (b - a) * d == b * d - a * d
  {
  }

  lemma DivUnique(x: nat, d: nat, q: nat, r: nat)
    requires d >= 1 && x == q * d + r && r < d
    ensures x / d == q
  {
    var q1, r1 := x / d, x % d;
    assert x == q1 * d + r1;
    if q1 < q {
      AtLeast(q - q1, d);
      Difference(q1, q, d);
    } else if q < q1 {
      AtLeast(q1 - q, d);
      Difference(q, q1, d);
    }
  }

  lemma Triple(a: nat, b: nat)
    ensures a * (32 * b) == 32 * (a * b)
  {
  }

  /** Dropping a digit and then some is dropping them all. */
  lemma DropDigits(x: nat, t: nat)
    requires t >= 1
    ensures (x / 32) / t == x / (32 * t)
  {
    var y := x / 32;
    var q, r := y / t, y % t;
    assert y == q * t + r;
    Triple(q, t);
    DivUnique(x, 32 * t, q, 32 * r + x % 32);
  }

  // ---- base32 ----

  /** The low `k` digits of a number, most significant first. */
  function Digits(x: nat, k: nat): Bytes {
    if k == 0 then [] else Digits(x / 32, k - 1) + [Letter(x % 32)]
  }

  lemma {:induction false} DigitsLength(x: nat, k: nat)
    ensures |Digits(x, k)| == k
  {
    if k > 0 { DigitsLength(x / 32, k - 1); }
  }

  /** One more digit goes in front. */
  lemma {:induction false} DigitsFront(x: nat, k: nat)
    ensures Two(5 * k) >= 1 && Digits(x, k + 1) == [Letter((x / Two(5 * k)) % 32)] + Digits(x, k)
  {
    TwoPositive(5 * k);
    if k > 0 {
      DigitsFront(x / 32, k - 1);
      TwoFive(5 * (k - 1));
      TwoPositive(5 * (k - 1));
      DropDigits(x, Two(5 * (k - 1)));
    }
  }

  /** What is a multiple of 32^k does not show in the low `k` digits. */
  lemma {:induction false} DigitsIgnore(x: nat, y: nat, k: nat)
    ensures Digits(x + y * Two(5 * k), k) == Digits(x, k)
  {
    if k > 0 {
      TwoFive(5 * (k - 1));
      var t := Two(5 * (k - 1));
      assert y * (32 * t) == 32 * (y * t);
      assert (x + 32 * (y * t)) / 32 == x / 32 + y * t && (x + 32 * (y * t)) % 32 == x % 32;
      DigitsIgnore(x / 32, y, k - 1);
    }
  }

  /** Digits are in the order of the numbers. */
  lemma {:induction false} DigitsDiverge(x: nat, y: nat, k: nat)
    requires x < y < Two(5 * k)
    ensures Diverges(Digits(x, k), Digits(y, k))
  {
    if k > 0 {
      TwoFive(5 * (k - 1));
      var a, b := Digits(x / 32, k - 1), Digits(y / 32, k - 1);
      if x / 32 < y / 32 {
        DigitsDiverge(x / 32, y / 32, k - 1);
        DivergesIsLess(a, b, [Letter(x % 32)], [Letter(y % 32)]);
      } else {
        assert x / 32 == y / 32 && x % 32 < y % 32;
        LettersRise(x % 32, y % 32);
        DivergesAfter(a, [Letter(x % 32)], [Letter(y % 32)]);
      }
    }
  }

  // ---- laying the 128 bits out ----

  lemma FromWordPush(b: Bytes, x: byte)
    ensures FromWord(b + [x]) == FromWord(b) * 256 + x
  {
    assert (b + [x])[..|b|] == b;
  }

  lemma Scale(x: nat, t: nat, u: nat, v: nat)
    requires u == x * t + v
    ensures u * 256 == x * (256 * t) + v * 256
  {
    assert x * (256 * t) == 256 * (x * t);
  }

  lemma {:induction false} FromWordConcat(a: Bytes, b: Bytes)
    ensures FromWord(a + b) == FromWord(a) * Two(8 * |b|) + FromWord(b)
  {
    if b == [] {
      assert a + b == a;
    } else {
      hide FromWord;
      hide Two;
      var before, last := b[..|b| - 1], b[|b| - 1];
      FromWordConcat(a, before);
      assert b == before + [last] && a + b == (a + before) + [last];
      FromWordPush(a + before, last);
      FromWordPush(before, last);
      TwoFive(8 * |before|);
      Scale(FromWord(a), Two(8 * |before|), FromWord(a + before), FromWord(before));
    }
  }

  /** The value of an identifier: 48 bits of time, then 80 bits that tell identifiers of one millisecond apart. */
  function Number(stamp: nat, seed: Bytes): nat { stamp * Two(80) + FromWord(seed) }

  /** The time part of the value. */
  function StampOf(x: nat): nat { x / 0x1_0000_0000_0000_0000_0000 }

  lemma TwoTo80()
    ensures Two(80) == 0x1_0000_0000_0000_0000_0000
  {
    TwoNone();
    hide Two;
    TwoFive(0);
    TwoFive(8);
    TwoFive(16);
    TwoFive(24);
    TwoFive(32);
    TwoFive(40);
    TwoFive(48);
    TwoFive(56);
    TwoFive(64);
    TwoFive(72);
  }

  /**
   How far the packing has come: bytes from `i` on are in, `k` digits are out, and
   `bits` holds the `held` bits in between.
   */
  ghost predicate Packed(raw: Bytes, i: nat, k: nat, bits: nat, held: int, out: Bytes) {
    && |raw| == 16 && i <= 16 && k <= 26 == |out| && held == 8 * (16 - i) - 5 * k >= 0
    && Two(5 * k) >= 1 && bits == FromWord(raw[i..]) / Two(5 * k) && bits < Two(held)
    && out[26 - k..] == Digits(FromWord(raw[i..]), k)
  }

  lemma PackBegins(raw: Bytes, out: Bytes)
    requires |raw| == 16 && |out| == 26
    ensures Packed(raw, 16, 0, 0, 0, out)
  {
    assert raw[16..] == [] && out[26..] == [];
  }

  lemma ShiftIn(u: nat, x: nat, t: nat, h: nat)
    requires t >= 1
    ensures (x * (h * t) + u) / t == x * h + u / t
  {
    var q, r := u / t, u % t;
    assert u == q * t + r;
    calc {
      x * (h * t) + u;
      (x * h) * t + q * t + r;
      (x * h + q) * t + r;
    }
    DivUnique(x * (h * t) + u, t, x * h + q, r);
  }

  lemma Absorb(u: nat, x: nat, h: nat, t: nat)
    requires t >= 1 && u / t < h && x <= 255
    ensures (x * (h * t) + u) / t == u / t + x * h && u / t + x * h < 256 * h && x * (h * t) + u == u + (x * h) * t
  {
    ShiftIn(u, x, t, h);
    Regroup(x, h, t);
    Difference(x, 255, h);
    assert (255 - x) * h >= 0;
  }

  /** A byte goes in above the bits that are held. */
  lemma PackByte(raw: Bytes, i: nat, k: nat, bits: nat, held: nat, out: Bytes)
    requires i > 0 && Packed(raw, i, k, bits, held, out)
    ensures Packed(raw, i - 1, k, bits + raw[i - 1] * Two(held), held + 8, out)
  {
    hide Two;
    hide Digits;
    hide FromWord;
    var u, x, t, h := FromWord(raw[i..]), raw[i - 1], Two(5 * k), Two(held);
    assert raw[i - 1..] == [x] + raw[i..];
    FromWordConcat([x], raw[i..]);
    FromOne(x);
    TwoAdds(held, 5 * k);
    TwoFive(held);
    Absorb(u, x, h, t);
    DigitsIgnore(u, x * h, k);
  }

  lemma FromOne(x: byte)
    ensures FromWord([x]) == x
  {
    assert [x][..0] == [];
  }

  /** Five bits come out as a digit. */
  lemma PackDigit(raw: Bytes, i: nat, k: nat, bits: nat, held: int, out: Bytes)
    requires k < 26 && held >= 5 && Packed(raw, i, k, bits, held, out)
    ensures Packed(raw, i, k + 1, bits / 32, held - 5, out[25 - k := Letter(bits % 32)])
  {
    hide Two;
    hide Digits;
    hide FromWord;
    var u := FromWord(raw[i..]);
    DigitsFront(u, k);
    TwoFive(5 * k);
    TwoPositive(5 * (k + 1));
    DropMore(u, Two(5 * k));
    TwoFive(held - 5);
    var out1 := out[25 - k := Letter(bits % 32)];
    assert out1[25 - k..] == [Letter(bits % 32)] + out[26 - k..];
  }

  lemma Distribute(q: nat, r: nat, t: nat)
    ensures (32 * q + r) * t == q * (32 * t) + r * t
  {
    assert (32 * q + r) * t == (32 * q) * t + r * t;
    Triple(q, t);
  }

  lemma StaysBelow(r: nat, t: nat, s: nat)
    requires r <= 31 && s < t
    ensures r * t + s < 32 * t
  {
    Difference(r, 31, t);
    assert (31 - r) * t >= 0;
  }

  lemma DropMore(u: nat, t: nat)
    requires t >= 1
    ensures (u / t) / 32 == u / (32 * t)
  {
    var y, s := u / t, u % t;
    assert u == y * t + s;
    var q, r := y / 32, y % 32;
    assert y == 32 * q + r;
    Distribute(q, r, t);
    StaysBelow(r, t, s);
    assert u == q * (32 * t) + (r * t + s);
    DivUnique(u, 32 * t, q, r * t + s);
  }

  /** write: 26 base32 characters, most significant first. */
  method Write(stamp: nat, seed: Bytes) returns (out: Bytes)
    requires stamp < Power(6) && |seed| == 10
    ensures out == Digits(Number(stamp, seed), SIZE)
  {
    hide Two;
    hide Digits;
    hide FromWord;
    hide Packed;
    hide Power;
    var raw: Bytes := seq(16, _ => 0);
    var n := 0;
    WordRoundTrip(stamp, 6);
    while n < 6
      invariant 0 <= n <= 6 && |raw| == 16 && forall j | 0 <= j < n :: raw[j] == Word(stamp, 6)[j]
    {
      TwoPositive(40 - 8 * n);
      WordAt(stamp, 6, n);
      raw := raw[n := (stamp / Two(40 - 8 * n)) % 256];
      n := n + 1;
    }
    raw := raw[..6] + seed;
    assert raw[..6] == Word(stamp, 6) && raw == Word(stamp, 6) + seed;
    FromWordConcat(Word(stamp, 6), seed);

    out := seq(SIZE, _ => 0);
    var bits: nat, held: int, at: int, i: nat := 0, 0, SIZE - 1, 16;
    PackBegins(raw, out);
    while i > 0
      invariant 0 <= i <= 16 && -1 <= at < 26 && |out| == 26 && |raw| == 16 && 0 <= held < 5
      invariant Packed(raw, i, 25 - at, bits, held, out) && held == 8 * (16 - i) - 5 * (25 - at)
    {
      i := i - 1;
      PackByte(raw, i + 1, 25 - at, bits, held, out);
      // The bits held are below 2^held, so this is the bitwise or.
      bits := bits + raw[i] * Two(held);
      held := held + 8;
      while held >= 5
        invariant 0 <= i <= 16 && -1 <= at < 26 && |out| == 26 && |raw| == 16 && 0 <= held
        invariant Packed(raw, i, 25 - at, bits, held, out) && held == 8 * (16 - i) - 5 * (25 - at)
        decreases held
      {
        PackDigit(raw, i, 25 - at, bits, held, out);
        out := out[at := Letter(bits % 32)];
        at := at - 1;
        bits := bits / 32;
        held := held - 5;
      }
    }
    assert at == 0;
    PackTop(raw, bits, out);
    out := out[0 := Letter(bits % 32)];
  }

  lemma WordAt(x: nat, width: nat, i: nat)
    requires i < width && x < Power(width) && |Word(x, width)| == width
    ensures Two(8 * (width - 1 - i)) >= 1 && Word(x, width)[i] == (x / Two(8 * (width - 1 - i))) % 256
  {
    WordByte(x, width, width - 1 - i);
  }

  lemma {:induction false} WordByte(x: nat, width: nat, k: nat)
    requires k < width
    ensures |Word(x, width)| == width && Two(8 * k) >= 1 && Word(x, width)[width - 1 - k] == (x / Two(8 * k)) % 256
    decreases width
  {
    TwoPositive(8 * k);
    WordLength(x, width);
    if k > 0 {
      WordByte(x / 256, width - 1, k - 1);
      TwoFive(8 * (k - 1));
      DropBytes(x, Two(8 * (k - 1)));
    }
  }

  lemma {:induction false} WordLength(x: nat, width: nat)
    ensures |Word(x, width)| == width
  {
    if width > 0 { WordLength(x / 256, width - 1); }
  }

  lemma DropBytes(x: nat, t: nat)
    requires t >= 1
    ensures (x / 256) / t == x / (256 * t)
  {
    var y := x / 256;
    var q, r := y / t, y % t;
    assert y == q * t + r;
    assert q * (256 * t) == 256 * (q * t);
    DivUnique(x, 256 * t, q, 256 * r + x % 256);
  }

  /** The three bits that are left are the first character. */
  lemma PackTop(raw: Bytes, bits: nat, out: Bytes)
    requires Packed(raw, 0, 25, bits, 3, out)
    ensures out[0 := Letter(bits % 32)] == Digits(FromWord(raw), 26)
  {
    hide Two;
    hide Digits;
    hide FromWord;
    assert raw[0..] == raw;
    DigitsFront(FromWord(raw), 25);
    assert out[0 := Letter(bits % 32)] == [Letter(bits % 32)] + out[1..];
  }

  // ---- stepping the seed ----

  function Zeros(n: nat): (r: Bytes)
    ensures |r| == n && forall i | 0 <= i < n :: r[i] == 0
  {
    seq(n, _ => 0)
  }

  function Full(n: nat): (r: Bytes)
    ensures |r| == n && forall i | 0 <= i < n :: r[i] == 255
  {
    seq(n, _ => 255)
  }

  lemma {:induction false} ZerosAndFull(n: nat)
    ensures FromWord(Zeros(n)) == 0 && FromWord(Full(n)) == Two(8 * n) - 1
  {
    if n > 0 {
      hide FromWord;
      hide Two;
      ZerosAndFull(n - 1);
      assert Zeros(n) == Zeros(n - 1) + [0] && Full(n) == Full(n - 1) + [255];
      FromWordPush(Zeros(n - 1), 0);
      FromWordPush(Full(n - 1), 255);
      TwoFive(8 * (n - 1));
    }
  }

  lemma Steps(a: Bytes, x: byte, n: nat)
    requires x < 255
    ensures FromWord(a + [x + 1] + Zeros(n)) == FromWord(a + [x] + Full(n)) + 1
  {
    hide FromWord;
    hide Two;
    ZerosAndFull(n);
    FromWordConcat(a + [x + 1], Zeros(n));
    FromWordConcat(a + [x], Full(n));
    FromWordPush(a, x);
    FromWordPush(a, x + 1);
    var y, t := FromWord(a) * 256 + x, Two(8 * n);
    assert (y + 1) * t == y * t + t;
  }

  lemma Stepped(was: Bytes, now: Bytes, i: nat)
    requires |was| == |now| == 10 && i < 10 && was[i] < 255 && now[i] == was[i] + 1
    requires (forall j | 0 <= j < i :: now[j] == was[j]) && (forall j | i < j < 10 :: now[j] == 0 && was[j] == 255)
    ensures FromWord(now) == FromWord(was) + 1 < Two(80)
  {
    hide FromWord;
    hide Two;
    assert was == was[..i] + [was[i]] + Full(9 - i);
    assert now == was[..i] + [was[i] + 1] + Zeros(9 - i);
    Steps(was[..i], was[i], 9 - i);
    FromWordBound(now);
    PowerIsTwo(10);
  }

  lemma FullIsLast()
    ensures FromWord(Full(10)) == Two(80) - 1
  {
    ZerosAndFull(10);
  }

  /** increment: one more, or exhausted and back to zero when every byte was full. */
  method Increment(seed: array<byte>) returns (ok: bool)
    requires seed.Length == 10
    modifies seed
    ensures ok <==> FromWord(old(seed[..])) + 1 < Two(80)
    ensures ok ==> FromWord(seed[..]) == FromWord(old(seed[..])) + 1
    ensures !ok ==> seed[..] == Zeros(10)
  {
    hide FromWord;
    hide Two;
    ghost var was := seed[..];
    FullIsLast();
    var i := 9;
    while i >= 0
      invariant -1 <= i <= 9 && seed.Length == 10
      invariant forall j | 0 <= j <= i :: seed[j] == was[j]
      invariant forall j | i < j < 10 :: seed[j] == 0 && was[j] == 255
    {
      var x: int := seed[i];
      seed[i] := (x + 1) % 256;
      if seed[i] != 0 {
        Stepped(was, seed[..], i);
        return true;
      }
      i := i - 1;
    }
    assert was == Full(10) && seed[..] == Zeros(10);
    return false;
  }

  // ---- the source ----

  datatype Made = Id(text: Bytes) | ClockTooFar | NoRandomness | Exhausted

  /** What the clock says, and what the randomness gives: fewer than ten bytes when it fails. */
  datatype Call = Call(stamp: nat, drawn: Bytes)

  /** What a source remembers: the time it last used and the ten bytes it steps. */
  datatype State = State(last: nat, seed: Bytes)

  ghost function NumberOf(s: State): nat { Number(s.last, s.seed) }

  /**
   What one call makes of a source. A millisecond that has not been seen starts
   from what is drawn; the same one, or a clock that went backwards, steps the
   last. A short read leaves the bytes it got in front of the old ones, and the
   time as it was.
   */
  ghost predicate Moves(s: State, c: Call, t: State, r: Made) {
    && |s.seed| == |t.seed| == 10 && |c.drawn| <= 10 && s.last < Power(6) && t.last < Power(6)
    && match r {
         case ClockTooFar => c.stamp >= Power(6) && t == s
         case NoRandomness => s.last < c.stamp < Power(6) && |c.drawn| < 10 && t == State(s.last, c.drawn + s.seed[|c.drawn|..])
         case Exhausted => c.stamp <= s.last && FromWord(s.seed) + 1 == Two(80) && t == State(s.last, Zeros(10))
         case Id(text) =>
           && text == Digits(NumberOf(t), SIZE)
           && (if c.stamp > s.last then |c.drawn| == 10 && t == State(c.stamp, c.drawn)
               else t.last == s.last && FromWord(t.seed) == FromWord(s.seed) + 1 < Two(80))
       }
  }

  /** A call has one outcome. */
  lemma MovesOnce(s: State, c: Call, t: State, r: Made, t1: State, r1: Made)
    requires Moves(s, c, t, r) && Moves(s, c, t1, r1)
    ensures t == t1 && r == r1
  {
    hide Digits;
    hide FromWord;
    hide Two;
    hide Power;
    WordOrder(t.seed, t1.seed);
  }

  class Source {
    var last: nat
    const seed: array<byte>

    ghost predicate Valid()
      reads this
    {
      seed.Length == 10 && last < Power(6)
    }

    ghost function Now(): State
      reads this, seed
    {
      State(last, seed[..])
    }

    constructor ()
      ensures Valid() && fresh(seed) && Now() == State(0, Zeros(10))
    {
      last := 0;
      seed := new byte[10](_ => 0);
      new;
      PowerIsTwo(6);
      TwoPositive(48);
      assert seed[..] == Zeros(10);
    }

    /** Next: the next identifier. */
    method Next(stamp: nat, drawn: Bytes) returns (r: Made)
      requires Valid() && |drawn| <= 10
      modifies this`last, seed
      ensures Valid() && Moves(old(Now()), Call(stamp, drawn), Now(), r)
      ensures r.ClockTooFar? <==> stamp >= Power(6)
      ensures r.NoRandomness? <==> old(last) < stamp < Power(6) && |drawn| < 10
      ensures r.Exhausted? <==> stamp <= old(last) && FromWord(old(seed[..])) == Two(80) - 1
      ensures r.Id? ==> r.text == Digits(last * Two(80) + FromWord(seed[..]), 26)
      ensures r.Id? && stamp > old(last) ==> last == stamp && seed[..] == drawn
      ensures r.Id? && stamp <= old(last) ==> last == old(last) && FromWord(seed[..]) == FromWord(old(seed[..])) + 1
      ensures !r.Id? ==> last == old(last)
      ensures r.ClockTooFar? ==> seed[..] == old(seed[..])
      ensures r.NoRandomness? ==> seed[..] == drawn + old(seed[..])[|drawn|..]
      ensures r.Exhausted? ==> forall j | 0 <= j < 10 :: seed[j] == 0
    {
      hide Digits;
      hide Two;
      hide FromWord;
      hide Power;
      PowerIsTwo(10);
      FromWordBound(seed[..]);
      if stamp >= Power(6) {
        return ClockTooFar;
      }
      var at := stamp;
      if stamp > last {
        var i := 0;
        while i < |drawn|
          invariant 0 <= i <= |drawn| && last == old(last) && forall j | 0 <= j < i :: seed[j] == drawn[j]
          invariant seed[i..] == old(seed[..])[i..]
        {
          seed[i] := drawn[i];
          i := i + 1;
        }
        assert seed[..] == drawn + old(seed[..])[|drawn|..];
        if |drawn| < 10 {
          return NoRandomness;
        }
        assert seed[..] == drawn;
        last := stamp;
      } else {
        var ok := Increment(seed);
        if !ok {
          return Exhausted;
        }
        at := last;
      }
      var text := Write(at, seed[..]);
      return Id(text);
    }
  }

  lemma NumberBound(stamp: nat, seed: Bytes)
    requires stamp < Power(6) && |seed| == 10
    ensures Number(stamp, seed) < Two(128) && Two(128) <= Two(130)
  {
    hide Two;
    hide FromWord;
    PowerIsTwo(6);
    PowerIsTwo(10);
    FromWordBound(seed);
    hide Power;
    TwoAdds(48, 80);
    TwoAdds(2, 128);
    TwoTwo();
    Difference(stamp, Two(48), Two(80));
    AtLeast(Two(48) - stamp, Two(80));
  }

  lemma TwoTwo()
    ensures Two(2) == 4
  {
  }

  /** Later numbers are later strings, and the other way round. */
  lemma TextOrder(x: nat, y: nat)
    requires x < Two(128) && y < Two(128)
    ensures Less(Digits(x, SIZE), Digits(y, SIZE)) <==> x < y
    ensures Digits(x, SIZE) == Digits(y, SIZE) <==> x == y
  {
    hide Two;
    hide Digits;
    TwoAdds(2, 128);
    TwoTwo();
    TwoPositive(128);
    var a, b := Digits(x, SIZE), Digits(y, SIZE);
    assert a + [] == a && b + [] == b;
    Irreflexive(a);
    if x < y {
      DigitsDiverge(x, y, SIZE);
      DivergesIsLess(a, b, [], []);
    } else if y < x {
      DigitsDiverge(y, x, SIZE);
      DivergesIsLess(b, a, [], []);
      if Less(a, b) { Transitive(a, b, a); }
    }
  }

  /** Stepping moves up, and so does a newer time. */
  lemma NumberRises(s: State, t: State)
    requires |s.seed| == |t.seed| == 10
    requires t.last > s.last || (t.last == s.last && FromWord(s.seed) < FromWord(t.seed))
    ensures NumberOf(s) < NumberOf(t)
  {
    PowerIsTwo(10);
    FromWordBound(s.seed);
    hide FromWord;
    hide Power;
    if t.last > s.last {
      Difference(s.last, t.last, Two(80));
      AtLeast(t.last - s.last, Two(80));
    }
    hide Two;
  }

  /** Whether a call sets the source back: it exhausts the millisecond, or its short read is below the bytes it overwrites. */
  ghost predicate SetsBack(s: State, c: Call) {
    if c.stamp > s.last then c.stamp < Power(6) && |c.drawn| < 10 <= |s.seed| && Less(c.drawn, s.seed[..|c.drawn|])
    else FromWord(s.seed) + 1 == Two(80)
  }

  /** A call makes the number smaller exactly when it sets the source back, and an identifier is always of a larger number. */
  lemma SetBackExactly(s: State, c: Call, t: State, r: Made)
    requires Moves(s, c, t, r)
    ensures NumberOf(t) < NumberOf(s) <==> SetsBack(s, c)
    ensures r.Id? ==> NumberOf(s) < NumberOf(t)
  {
    hide FromWord;
    hide Two;
    hide Power;
    hide Digits;
    hide Less;
    PowerIsTwo(10);
    FromWordBound(s.seed);
    match r {
      case ClockTooFar =>
      case NoRandomness =>
        ShortRead(s.seed, c.drawn);
        if Less(c.drawn, s.seed[..|c.drawn|]) { NumberRises(t, s); }
      case Exhausted =>
        ZerosAndFull(10);
        TwoBig();
        NumberRises(t, s);
      case Id(_) =>
        NumberRises(s, t);
    }
  }

  lemma TwoBig()
    ensures Two(80) > 1
  {
    TwoTo80();
  }

  /** A short read moves the number the way its bytes differ from those they overwrite. */
  lemma ShortRead(seed: Bytes, drawn: Bytes)
    requires |drawn| <= |seed|
    ensures FromWord(drawn + seed[|drawn|..]) < FromWord(seed) <==> Less(drawn, seed[..|drawn|])
  {
    hide FromWord;
    hide Two;
    hide Less;
    var front, rest := seed[..|drawn|], seed[|drawn|..];
    assert seed == front + rest;
    FromWordConcat(drawn, rest);
    FromWordConcat(front, rest);
    WordOrder(drawn, front);
    TwoPositive(8 * |rest|);
    var x, y, t := FromWord(drawn), FromWord(front), Two(8 * |rest|);
    if x < y {
      Difference(x, y, t);
      AtLeast(y - x, t);
    } else {
      Difference(y, x, t);
    }
  }

  /** A run of calls from one state to another. */
  ghost predicate Walks(states: seq<State>, calls: seq<Call>, made: seq<Made>) {
    |made| == |calls| && |states| == |calls| + 1 && forall i: nat | i < |calls| :: Moves(states[i], calls[i], states[i + 1], made[i])
  }

  /** Over a stretch of a run that nothing sets back, the number only grows. */
  lemma {:induction false} GrowsBetween(states: seq<State>, calls: seq<Call>, made: seq<Made>, i: nat, j: nat)
    requires Walks(states, calls, made) && i <= j <= |calls|
    requires forall k: nat | i <= k < j :: !SetsBack(states[k], calls[k])
    ensures NumberOf(states[i]) <= NumberOf(states[j])
    decreases j - i
  {
    hide Moves;
    hide SetsBack;
    if i < j {
      GrowsBetween(states, calls, made, i, j - 1);
      SetBackExactly(states[j - 1], calls[j - 1], states[j], made[j - 1]);
    }
  }

  /** Two identifiers of one run, with nothing between them that sets the source back: the later one sorts after. */
  lemma LaterSortsLater(states: seq<State>, calls: seq<Call>, made: seq<Made>, i: nat, j: nat)
    requires Walks(states, calls, made) && i < j < |calls| && made[i].Id? && made[j].Id?
    requires forall k: nat | i < k < j :: !SetsBack(states[k], calls[k])
    ensures Less(made[i].text, made[j].text)
  {
    hide SetsBack;
    hide Less;
    hide Power;
    hide Two;
    hide FromWord;
    hide Digits;
    GrowsBetween(states, calls, made, i + 1, j);
    SetBackExactly(states[j], calls[j], states[j + 1], made[j]);
    NumberBound(states[i + 1].last, states[i + 1].seed);
    NumberBound(states[j + 1].last, states[j + 1].seed);
    TextOrder(NumberOf(states[i + 1]), NumberOf(states[j + 1]));
  }

  /** Calls that fail leave the time alone. */
  lemma {:induction false} FailuresKeepTime(states: seq<State>, calls: seq<Call>, made: seq<Made>, i: nat, j: nat)
    requires Walks(states, calls, made) && i <= j <= |calls| && forall k: nat | i <= k < j :: !made[k].Id?
    ensures states[j].last == states[i].last
    decreases j - i
  {
    hide Power;
    hide Two;
    hide FromWord;
    hide Digits;
    if i < j { FailuresKeepTime(states, calls, made, i, j - 1); }
  }

  /**
   Two identifiers with only failures between them: the second sorts after the
   first if and only if its call comes with a newer time, or the failures have
   left the seed at least where the first identifier put it.
   */
  lemma NextSortsLater(states: seq<State>, calls: seq<Call>, made: seq<Made>, i: nat, j: nat)
    requires Walks(states, calls, made) && i < j < |calls| && made[i].Id? && made[j].Id?
    requires forall k: nat | i < k < j :: !made[k].Id?
    ensures Less(made[i].text, made[j].text) <==> calls[j].stamp > states[i + 1].last || AtMost(states[i + 1].seed, states[j].seed)
  {
    hide Less;
    hide Power;
    hide Two;
    hide FromWord;
    hide Digits;
    FailuresKeepTime(states, calls, made, i + 1, j);
    var s, t := states[i + 1], states[j + 1];
    assert Moves(states[i], calls[i], s, made[i]) && Moves(states[j], calls[j], t, made[j]);
    NumberBound(s.last, s.seed);
    NumberBound(t.last, t.seed);
    TextOrder(NumberOf(s), NumberOf(t));
    WordOrder(states[j].seed, s.seed);
    if calls[j].stamp > s.last || AtMost(s.seed, states[j].seed) {
      NumberRises(s, t);
    } else if FromWord(t.seed) < FromWord(s.seed) {
      NumberRises(t, s);
    } else {
      WordOrder(s.seed, t.seed);
    }
  }

  /** The latest time a source has taken up. */
  ghost function Latest(start: nat, calls: seq<Call>): nat {
    if calls == [] then start
    else
      var before, c := Latest(start, calls[..|calls| - 1]), calls[|calls| - 1];
      if before < c.stamp < Power(6) && |c.drawn| == 10 then c.stamp else before
  }

  /**
   Any run of a source, whatever its clock and its randomness do. Every call has
   the outcome it must have; identifiers rise as long as nothing sets the source
   back, so up to the first exhaustion when every read of randomness is whole;
   and each carries the latest time taken up so far.
   */
  method Run(source: Source, calls: seq<Call>) returns (made: seq<Made>, ghost states: seq<State>)
    requires source.Valid() && forall c | c in calls :: |c.drawn| <= 10
    modifies source, source.seed
    ensures source.Valid() && Walks(states, calls, made) && states[0] == old(source.Now()) && states[|calls|] == source.Now()
    ensures forall i: nat, j: nat | i < j < |calls| && made[i].Id? && made[j].Id? &&
        Undisturbed(states, calls, i, j) :: Less(made[i].text, made[j].text)
    ensures forall i: nat | i < |calls| && made[i].Id? ::
      Stamped(NumberOf(states[i + 1]), Latest(old(source.last), calls[..i + 1])) && made[i].text == Digits(NumberOf(states[i + 1]), SIZE)
  {
    hide Two;
    hide Digits;
    hide FromWord;
    hide Less;
    hide Power;
    hide Latest;
    hide Stamped;
    hide Number;
    hide SetsBack;
    ghost var start := source.last;
    made, states := [], [source.Now()];
    var i := 0;
    LatestPush(start, calls, 0);
    while i < |calls|
      invariant 0 <= i <= |calls| && |made| == i && |states| == i + 1 && source.Valid()
      invariant states[0] == old(source.Now()) && states[i] == source.Now()
      invariant source.last == Latest(start, calls[..i])
      invariant forall k: nat | k < i :: Moves(states[k], calls[k], states[k + 1], made[k])
      invariant forall k: nat | k <= i :: states[k].last == Latest(start, calls[..k])
    {
      LatestPush(start, calls, i);
      assert calls[i] in calls;
      var r := source.Next(calls[i].stamp, calls[i].drawn);
      made, states := made + [r], states + [source.Now()];
      i := i + 1;
    }
    forall i: nat, j: nat | i < j < |calls| && made[i].Id? && made[j].Id? &&
      Undisturbed(states, calls, i, j) ensures Less(made[i].text, made[j].text) {
      LaterSortsLater(states, calls, made, i, j);
    }
    forall i: nat | i < |calls| && made[i].Id?
      ensures Stamped(NumberOf(states[i + 1]), Latest(start, calls[..i + 1])) && made[i].text == Digits(NumberOf(states[i + 1]), SIZE)
    {
      assert Moves(states[i], calls[i], states[i + 1], made[i]);
      CurrentStamped(states[i + 1].last, states[i + 1].seed);
    }
  }

  /** Nothing sets the source back between two calls. */
  ghost predicate Undisturbed(states: seq<State>, calls: seq<Call>, i: nat, j: nat)
    requires i < j < |calls| < |states|
  {
    forall k: nat | i < k < j :: !SetsBack(states[k], calls[k])
  }

  /** Up to the first exhaustion, when every read of randomness is whole, nothing sets the source back. */
  lemma WholeReadsRise(states: seq<State>, calls: seq<Call>, made: seq<Made>, i: nat, j: nat)
    requires Walks(states, calls, made) && i < j < |calls|
    requires forall k: nat | i < k < j :: |calls[k].drawn| == 10 && !made[k].Exhausted?
    ensures Undisturbed(states, calls, i, j)
  {
    hide Two;
    hide FromWord;
    hide Digits;
    hide Less;
    hide Power;
    forall k: nat | i < k < j ensures !SetsBack(states[k], calls[k]) {
      assert Moves(states[k], calls[k], states[k + 1], made[k]);
    }
  }

  /** A 128-bit value that carries this time. */
  ghost predicate Stamped(x: nat, stamp: nat) { x < Two(128) && StampOf(x) == stamp }

  lemma CurrentStamped(stamp: nat, seed: Bytes)
    requires stamp < Power(6) && |seed| == 10
    ensures Stamped(Number(stamp, seed), stamp)
  {
    hide Two;
    hide Power;
    hide FromWord;
    NumberBound(stamp, seed);
    TimeOf(stamp, seed);
  }

  lemma LatestPush(start: nat, calls: seq<Call>, i: nat)
    ensures Latest(start, calls[..0]) == start
    requires i <= |calls|
    ensures i < |calls| ==>
      Latest(start, calls[..i + 1]) ==
      if Latest(start, calls[..i]) < calls[i].stamp < Power(6) && |calls[i].drawn| == 10 then calls[i].stamp else Latest(start, calls[..i])
  {
    if i < |calls| { assert calls[..i + 1][..i] == calls[..i]; }
  }

  lemma TimeOf(stamp: nat, seed: Bytes)
    requires |seed| == 10
    ensures Two(80) >= 1 && Number(stamp, seed) / Two(80) == stamp == StampOf(Number(stamp, seed))
  {
    PowerIsTwo(10);
    FromWordBound(seed);
    hide FromWord;
    hide Power;
    TwoPositive(80);
    TwoTo80();
    hide Two;
    DivUnique(Number(stamp, seed), Two(80), stamp, FromWord(seed));
  }

  /**
   After an exhausted millisecond the source starts over and goes back: whatever it
   was, a call at or below its last time.
   */
  lemma ExhaustedGoesBack(s: State, gone: Call, zero: State, c: Call, t: State, r: Made)
    requires Moves(s, gone, zero, Exhausted) && Moves(zero, c, t, r)
    ensures c.stamp <= s.last ==> r.Id? && Less(r.text, Digits(NumberOf(s), SIZE))
    ensures r.Id? ==> (Less(Digits(NumberOf(s), SIZE), r.text) <==> c.stamp > s.last)
  {
    hide Digits;
    hide FromWord;
    hide Two;
    hide Power;
    hide Less;
    ZerosAndFull(10);
    TwoBig();
    TwoTo80();
    NumberBound(s.last, s.seed);
    if r.Id? {
      NumberBound(t.last, t.seed);
      TextOrder(NumberOf(s), NumberOf(t));
      TextOrder(NumberOf(t), NumberOf(s));
      if c.stamp > s.last { NumberRises(s, t); } else { NumberRises(t, s); }
    }
  }

  /**
   A short read of randomness in a newer millisecond, and then a clock that has
   gone back to the one before: the second identifier sorts before the first.
   */
  method ShortReadGoesBack() returns (first: Made, failed: Made, second: Made)
    ensures first.Id? && failed == NoRandomness && second.Id? && Less(second.text, first.text)
  {
    hide Digits;
    hide Two;
    hide FromWord;
    hide Less;
    hide Power;
    var source := new Source();
    SixBytes();
    var drawn := [1] + Zeros(9);
    first := source.Next(5, drawn);
    ghost var s1 := source.Now();
    failed := source.Next(6, [0]);
    assert source.Now() == State(5, Zeros(10));
    ZerosAndFull(10);
    TwoTo80();
    second := source.Next(5, []);
    ghost var s3 := source.Now();
    OneAndZeros();
    NumberRises(s3, s1);
    NumberBound(5, s1.seed);
    NumberBound(5, s3.seed);
    TextOrder(NumberOf(s3), NumberOf(s1));
  }

  lemma SixBytes()
    ensures Power(6) > 6
  {
    assert Power(6) == 256 * Power(5) && Power(5) == 256 * Power(4) && Power(4) == 256 * Power(3);
    assert Power(3) == 256 * Power(2);
  }

  lemma OneAndZeros()
    ensures FromWord([1] + Zeros(9)) > 1
  {
    FromOne(1);
    hide FromWord;
    hide Two;
    FromWordConcat([1], Zeros(9));
    ZerosAndFull(9);
    TwoFive(67);
    TwoPositive(67);
    TwoFive(64);
  }

  // ---- the time of an identifier ----

  method Index(c: byte) returns (i: int)
    ensures i == -1 <==> forall j: nat | j < 32 :: Letter(j) != c
    ensures i != -1 ==> 0 <= i < 32 && Letter(i) == c
  {
    i := 0;
    while i < 32
      invariant 0 <= i <= 32 && forall j: nat | j < i :: Letter(j) != c
    {
      if Letter(i) == c {
        return;
      }
      i := i + 1;
    }
    i := -1;
  }

  lemma {:induction false} DigitAt(x: nat, k: nat, i: nat)
    requires i < k
    ensures |Digits(x, k)| == k && Two(5 * (k - 1 - i)) >= 1 && Digits(x, k)[i] == Letter((x / Two(5 * (k - 1 - i))) % 32)
    decreases k - i
  {
    DigitsLength(x, k);
    DigitsFront(x, k - 1);
    TwoPositive(5 * (k - 1 - i));
    if i > 0 {
      DigitsLength(x, k - 1);
      DigitAtShift(x, k, i);
    }
  }

  lemma {:induction false} DigitAtShift(x: nat, k: nat, i: nat)
    requires 0 < i < k
    ensures |Digits(x, k)| == k && Two(5 * (k - 1 - i)) >= 1 && Digits(x, k)[i] == Letter((x / Two(5 * (k - 1 - i))) % 32)
    decreases i
  {
    hide Digits;
    hide Two;
    DigitsLength(x, k);
    DigitsLength(x, k - 1);
    DigitsFront(x, k - 1);
    TwoPositive(5 * (k - 1 - i));
    assert Digits(x, k)[i] == Digits(x, k - 1)[i - 1];
    if i == 1 {
      DigitsFront(x, k - 2);
      DigitsLength(x, k - 2);
    } else {
      DigitAtShift(x, k - 1, i - 1);
    }
  }

  /** Time: when an identifier was made. */
  method Time(id: Bytes, ghost stamp: nat, ghost seed: Bytes) returns (ok: bool, at: nat)
    ensures |id| != SIZE ==> !ok
    ensures stamp < Power(6) && |seed| == 10 && id == Digits(Number(stamp, seed), SIZE) ==> ok && at == stamp
  {
    hide Digits;
    hide Two;
    hide FromWord;
    ghost var good := stamp < Power(6) && |seed| == 10 && id == Digits(Number(stamp, seed), SIZE);
    at := 0;
    if good { DigitsLength(Number(stamp, seed), SIZE); }
    if |id| != SIZE {
      return false, 0;
    }
    ghost var x := Number(stamp, seed);
    if good { NumberBound(stamp, seed); TwoPositive(130); DivUnique(x, Two(130), 0, x); }
    hide Power;
    var i := 0;
    while i < 10
      invariant 0 <= i <= 10
      invariant good ==> Two(5 * (26 - i)) >= 1 && at == x / Two(5 * (26 - i))
    {
      if good {
        DigitAt(x, SIZE, i);
        TwoFive(5 * (25 - i));
        DropMore(x, Two(5 * (25 - i)));
      }
      var value := Index(id[i]);
      if good { LetterOnce(id[i], (x / Two(5 * (25 - i))) % 32, value); }
      if value < 0 {
        return false, 0;
      }
      at := at * 32 + value;
      i := i + 1;
    }
    if good { TimeOf(stamp, seed); Below48(stamp); }
    return true, at % 0x1_0000_0000_0000;
  }

  lemma LetterOnce(c: byte, j: nat, i: int)
    requires j < 32 && c == Letter(j) && (i == -1 ==> forall k: nat | k < 32 :: Letter(k) != c) && (i != -1 ==> 0 <= i < 32 && Letter(i) == c)
    ensures i == j
  {
    if i != -1 { LettersRise(i, j); }
  }

  lemma Below48(stamp: nat)
    requires stamp < Power(6)
    ensures stamp % 0x1_0000_0000_0000 == stamp
  {
    assert Power(6) == 0x1_0000_0000_0000;
  }
}
