/** Lists of values as byte strings in the declared order, each component knowing its own end. */
module Keys {
  import opened Bytes
  import opened Words

  const MISSING_FIRST: byte := 0x01
  const NULL: byte := 0x10
  const FALSE: byte := 0x20
  const TRUE: byte := 0x21
  const NUMBER: byte := 0x30
  const STRING: byte := 0x40
  const MISSING_LAST: byte := 0xfe
  const ESCAPE: byte := 0x00
  const ESCAPED: byte := 0xff
  const TERMINATOR: byte := 0x01

  datatype Missing = Skip | First | Last

  datatype Field = Field(descending: bool, missing: Missing)

  /** 64 bits, laid out as section 3.4 of IEEE 754-2008 lays out binary64. */
  type Bits = x: nat | x < 0x1_0000_0000_0000_0000

  const SIGN: nat := 0x8000_0000_0000_0000
  const FRACTION: nat := 0x10_0000_0000_0000
  const INFINITY: nat := 0x7ff0_0000_0000_0000

  datatype Value = Absent | Null | Bool(b: bool) | Number(bits: Bits) | Integer(n: int) | Text(bytes: Bytes) | Other

  datatype Error = Skipped | NotANumber | TooLarge | NotIndexable | Truncated | BadTag | Mismatch

  datatype Result<T> = Ok(value: T) | Fail(error: Error)

  // ---- numbers ----

  predicate IsNaN(bits: Bits) { bits % SIGN > INFINITY }

  /** What a magnitude stands for, in units of 2^-1074; infinity is the next step above every finite number. */
  function Magnitude(m: nat): nat {
    if m < FRACTION then m else (FRACTION + m % FRACTION) * Two(m / FRACTION - 1)
  }

  /** The number itself, exactly. */
  function Numeric(bits: Bits): int {
    if bits < SIGN then Magnitude(bits) else var m: int := Magnitude(bits - SIGN); -m
  }

  /** One step up in the bits is a step up in the number. */
  lemma MagnitudeStep(m: nat)
    ensures Magnitude(m) < Magnitude(m + 1)
  {
    var q, r := m / FRACTION, m % FRACTION;
    if m + 1 < FRACTION {
    } else if m + 1 == FRACTION {
      assert Magnitude(m + 1) == FRACTION;
    } else if r + 1 < FRACTION {
      assert (m + 1) / FRACTION == q && (m + 1) % FRACTION == r + 1;
      TwoPositive(q - 1);
      Grows(FRACTION + r, Two(q - 1));
    } else {
      assert (m + 1) / FRACTION == q + 1 && (m + 1) % FRACTION == 0;
      TwoPositive(q - 1);
      Doubles(FRACTION + r, FRACTION, Two(q - 1));
    }
  }

  lemma Grows(a: nat, t: nat)
    requires t >= 1
    ensures a * t < (a + 1) * t
  {
  }

  lemma Doubles(a: nat, f: nat, t: nat)
    requires t >= 1 && a < 2 * f
    ensures a * t < f * (2 * t)
  {
    assert f * (2 * t) == (2 * f) * t;
    assert (2 * f - a) * t >= 1;
  }

  lemma {:induction false} MagnitudeRises(a: nat, b: nat)
    requires a < b
    ensures Magnitude(a) < Magnitude(b)
    decreases b - a
  {
    hide Magnitude;
    MagnitudeStep(b - 1);
    if a < b - 1 { MagnitudeRises(a, b - 1); }
  }

  /** The place of the highest bit. */
  function Log(n: nat): nat
    requires n >= 1
  {
    if n == 1 then 0 else 1 + Log(n / 2)
  }

  lemma {:induction false} LogBounds(n: nat)
    requires n >= 1
    ensures Two(Log(n)) <= n < 2 * Two(Log(n))
  {
    if n > 1 { LogBounds(n / 2); }
  }

  lemma {:induction false} TwoRises(a: nat, b: nat)
    requires a <= b
    ensures Two(a) <= Two(b)
  {
    if a < b { TwoRises(a, b - 1); }
  }

  lemma TwoTo52()
    ensures Two(52) == FRACTION && Two(53) == 2 * FRACTION
  {
    assert Two(10) == 1024;
    TwoAdds(10, 10);
    TwoAdds(20, 20);
    TwoAdds(40, 10);
    assert Two(52) == 2 * (2 * Two(50));
  }

  /** The binary64 of a small integer: its highest bit is the hidden one, the rest follow it. */
  function MagnitudeBits(n: nat): nat
    requires n <= 2 * FRACTION
  {
    if n == 0 then 0
    else if n == 2 * FRACTION then (1023 + 53) * FRACTION
    else
      var k := Log(n);
      if k > 52 then 0 else (1022 + k) * FRACTION + n * Two(52 - k)
  }

  function FloatBits(n: int): Bits
    requires -0x20_0000_0000_0000 <= n <= 0x20_0000_0000_0000
  {
    if n >= 0 then MagnitudeExact(n); MagnitudeBits(n) else MagnitudeExact(-n); SIGN + MagnitudeBits(-n)
  }

  lemma MagnitudeExact(n: nat)
    requires n <= 2 * FRACTION
    ensures MagnitudeBits(n) < INFINITY && Magnitude(MagnitudeBits(n)) == n * Two(1074)
  {
    hide Two;
    TwoTo52();
    if n == 0 {
      assert 0 * Two(1074) == 0;
    } else if n == 2 * FRACTION {
      var m := MagnitudeBits(n);
      assert m / FRACTION == 1076 && m % FRACTION == 0;
      TwoAdds(1, 1074);
      TwoOne();
      assert Magnitude(m) == FRACTION * Two(1075);
      assert FRACTION * (2 * Two(1074)) == n * Two(1074);
    } else {
      LogBounds(n);
      var k := Log(n);
      if k > 52 { TwoRises(53, k); }
      assert k <= 52;
      ShiftFits(n, k);
      var f := n * Two(52 - k);
      var m := (1022 + k) * FRACTION + f;
      assert m == (1023 + k) * FRACTION + (f - FRACTION);
      assert m / FRACTION == 1023 + k && m % FRACTION == f - FRACTION;
      assert Magnitude(m) == f * Two(1022 + k);
      TwoAdds(52 - k, 1022 + k);
      Regroup(n, Two(52 - k), Two(1022 + k));
    }
  }

  lemma TwoOne()
    ensures Two(1) == 2
  {
  }

  lemma ShiftFits(n: nat, k: nat)
    requires k <= 52 && Two(k) <= n < 2 * Two(k)
    ensures FRACTION <= n * Two(52 - k) < 2 * FRACTION
  {
    hide Two;
    TwoTo52();
    TwoAdds(k, 52 - k);
    TwoPositive(52 - k);
    var t := Two(52 - k);
    assert (n - Two(k)) * t >= 0;
    assert (2 * Two(k) - n) * t >= 1;
    assert (2 * Two(k)) * t == 2 * (Two(k) * t);
  }

  /** Converting an integer within 2^53 to a float loses nothing. */
  lemma FloatExact(n: int)
    requires -0x20_0000_0000_0000 <= n <= 0x20_0000_0000_0000
    ensures !IsNaN(FloatBits(n)) && Numeric(FloatBits(n)) == n * Two(1074)
  {
    hide Two;
    hide Magnitude;
    hide MagnitudeBits;
    if n >= 0 {
      MagnitudeExact(n);
    } else {
      MagnitudeExact(-n);
      assert -(-n * Two(1074)) == n * Two(1074);
    }
  }

  /** The bits with the sign folded in; both zeros are one. */
  function SortBits(bits: Bits): nat {
    if bits == SIGN then SIGN else if bits >= SIGN then 0xffff_ffff_ffff_ffff - bits else SIGN + bits
  }

  /** Sorting the folded bits is sorting the numbers. */
  lemma SortBitsOrder(a: Bits, b: Bits)
    ensures SortBits(a) < SortBits(b) <==> Numeric(a) < Numeric(b)
    ensures SortBits(a) == SortBits(b) <==> Numeric(a) == Numeric(b)
    ensures SortBits(a) < 0x1_0000_0000_0000_0000
  {
    hide Magnitude;
    var m, n := if a < SIGN then a else a - SIGN, if b < SIGN then b else b - SIGN;
    if m < n { MagnitudeRises(m, n); }
    if n < m { MagnitudeRises(n, m); }
    MagnitudeZero();
    if m > 0 { MagnitudeRises(0, m); }
    if n > 0 { MagnitudeRises(0, n); }
  }

  lemma MagnitudeZero()
    ensures Magnitude(0) == 0
  {
  }

  // ---- one component ----

  /** Every zero byte is written as two, so the end of a string cannot be mistaken for a byte of it. */
  function Escaped(b: Bytes): Bytes {
    if b == [] then []
    else Escaped(b[..|b| - 1]) + (if b[|b| - 1] == ESCAPE then [ESCAPE, ESCAPED] else [b[|b| - 1]])
  }

  function StringCode(b: Bytes): Bytes { [STRING] + Escaped(b) + [ESCAPE, TERMINATOR] }

  function NumberCode(bits: Bits): Bytes { [NUMBER] + Word(SortBits(bits), 8) }

  function Plain(v: Value, missing: Missing): Result<Bytes> {
    match v
    case Absent => (match missing case First => Ok([MISSING_FIRST]) case Last => Ok([MISSING_LAST]) case Skip => Fail(Skipped))
    case Null => Ok([NULL])
    case Bool(b) => Ok([if b then TRUE else FALSE])
    case Number(bits) => if IsNaN(bits) then Fail(NotANumber) else Ok(NumberCode(bits))
    case Integer(n) =>
      if n > 0x20_0000_0000_0000 || n < -0x20_0000_0000_0000 then Fail(TooLarge) else Ok(NumberCode(FloatBits(n)))
    case Text(b) => Ok(StringCode(b))
    case Other => Fail(NotIndexable)
  }

  function Complement(b: Bytes): (r: Bytes)
    ensures |r| == |b| && forall i | 0 <= i < |b| :: r[i] == 255 - b[i]
  {
    seq(|b|, i requires 0 <= i < |b| => var x: byte := 255 - b[i]; x)
  }

  function Code(v: Value, field: Field): Result<Bytes> {
    match Plain(v, field.missing)
    case Ok(b) => Ok(if field.descending then Complement(b) else b)
    case Fail(e) => Fail(e)
  }

  // ---- the order the fields declare ----

  function Rank(v: Value, missing: Missing): int {
    match v
    case Absent => if missing == Last then 9 else 0
    case Null => 1
    case Bool(b) => if b then 3 else 2
    case Number(_) => 4
    case Integer(_) => 4
    case Text(_) => 5
    case Other => 6
  }

  /** The number a value is, in units of 2^-1074. */
  function Quantity(v: Value): int {
    match v
    case Number(bits) => Numeric(bits)
    case Integer(n) => n * Two(1074)
    case _ => 0
  }

  predicate Before(a: Value, b: Value, missing: Missing) {
    || Rank(a, missing) < Rank(b, missing)
    || (Rank(a, missing) == Rank(b, missing) == 4 && Quantity(a) < Quantity(b))
    || (a.Text? && b.Text? && Less(a.bytes, b.bytes))
  }

  /** One place in the order: the same number counts as the same however it is written. */
  predicate Alike(a: Value, b: Value, missing: Missing) {
    && Rank(a, missing) == Rank(b, missing)
    && Quantity(a) == Quantity(b)
    && (a.Text? && b.Text? ==> a.bytes == b.bytes)
  }

  predicate FieldBefore(a: Value, b: Value, field: Field) {
    if field.descending then Before(b, a, field.missing) else Before(a, b, field.missing)
  }

  lemma ValuesCompare(a: Value, b: Value, missing: Missing)
    requires Plain(a, missing).Ok? && Plain(b, missing).Ok?
    ensures Before(a, b, missing) || Before(b, a, missing) || Alike(a, b, missing)
  {
    if a.Text? && b.Text? { Trichotomy(a.bytes, b.bytes); }
  }

  // ---- the codes are in that order ----

  lemma EscapedPush(b: Bytes, x: byte)
    ensures Escaped(b + [x]) == Escaped(b) + (if x == ESCAPE then [ESCAPE, ESCAPED] else [x])
  {
    assert (b + [x])[..|b|] == b;
  }

  /** Read from the front. */
  lemma EscapedFirst(b: Bytes)
    requires b != []
    ensures Escaped(b) == (if b[0] == ESCAPE then [ESCAPE, ESCAPED] else [b[0]]) + Escaped(b[1..])
  {
    assert b == [b[0]] + b[1..] && [b[0]] == [] + [b[0]];
    EscapedConcat([b[0]], b[1..]);
    EscapedPush([], b[0]);
    EscapedNone();
    hide Escaped;
  }

  /** The terminator is smaller than any escaped byte, so a string sorts before everything it begins. */
  lemma {:induction false} StringsDiverge(a: Bytes, b: Bytes)
    requires Less(a, b)
    ensures Diverges(Escaped(a) + [ESCAPE, TERMINATOR], Escaped(b) + [ESCAPE, TERMINATOR])
    decreases |a|
  {
    var x, y := Escaped(a) + [ESCAPE, TERMINATOR], Escaped(b) + [ESCAPE, TERMINATOR];
    EscapedFirst(b);
    if a == [] {
      assert x == [ESCAPE, TERMINATOR];
      assert y[0] == b[0] && (b[0] == ESCAPE ==> y[1] == ESCAPED);
      assert x[1..][0] == TERMINATOR && (b[0] == ESCAPE ==> y[1..][0] == ESCAPED);
    } else {
      EscapedFirst(a);
      if a[0] == b[0] {
        StringsDiverge(a[1..], b[1..]);
        var p := if a[0] == ESCAPE then [ESCAPE, ESCAPED] else [a[0]];
        DivergesAfter(p, Escaped(a[1..]) + [ESCAPE, TERMINATOR], Escaped(b[1..]) + [ESCAPE, TERMINATOR]);
        assert x == p + (Escaped(a[1..]) + [ESCAPE, TERMINATOR]) && y == p + (Escaped(b[1..]) + [ESCAPE, TERMINATOR]);
      } else {
        assert x[0] == a[0] && y[0] == b[0];
      }
    }
  }

  lemma {:induction false} ComplementReverses(a: Bytes, b: Bytes)
    requires Diverges(a, b)
    ensures Diverges(Complement(b), Complement(a))
  {
    if a[0] == b[0] {
      ComplementReverses(a[1..], b[1..]);
      assert Complement(a)[1..] == Complement(a[1..]) && Complement(b)[1..] == Complement(b[1..]);
    }
  }

  lemma NumberBits(v: Value, missing: Missing) returns (bits: Bits)
    requires Plain(v, missing).Ok? && Rank(v, missing) == 4
    ensures Plain(v, missing) == Ok(NumberCode(bits)) && Numeric(bits) == Quantity(v) && !IsNaN(bits)
    ensures Canonical(v) == Number(OneZero(bits))
  {
    hide Two;
    hide Magnitude;
    hide FloatBits;
    match v
    case Number(b) => bits := b;
    case Integer(n) => FloatExact(n); bits := FloatBits(n);
  }

  lemma PowerOf8()
    ensures Power(8) == 0x1_0000_0000_0000_0000
  {
    assert Power(4) == 0x1_0000_0000;
  }

  lemma NumbersDiverge(a: Bits, b: Bits)
    requires Numeric(a) < Numeric(b)
    ensures Diverges(NumberCode(a), NumberCode(b))
  {
    hide Numeric;
    SortBitsOrder(a, b);
    SortBitsOrder(b, a);
    PowerOf8();
    hide Power;
    WordsDiverge(SortBits(a), SortBits(b), 8);
    hide Word;
    DivergesAfter([NUMBER], Word(SortBits(a), 8), Word(SortBits(b), 8));
  }

  /** Earlier values have lower codes, and codes part before either ends; values alike have one code. */
  lemma PlainOrders(a: Value, b: Value, missing: Missing)
    requires Plain(a, missing).Ok? && Plain(b, missing).Ok?
    ensures Before(a, b, missing) ==> Diverges(Plain(a, missing).value, Plain(b, missing).value)
    ensures Alike(a, b, missing) ==> Plain(a, missing) == Plain(b, missing)
  {
    hide Two;
    hide Numeric;
    hide FloatBits;
    hide Less;
    if Rank(a, missing) == 4 && Rank(b, missing) == 4 {
      var x := NumberBits(a, missing);
      var y := NumberBits(b, missing);
      SortBitsOrder(x, y);
      if Before(a, b, missing) { NumbersDiverge(x, y); }
      hide Word;
    } else if a.Text? && b.Text? {
      if Less(a.bytes, b.bytes) {
        StringsDiverge(a.bytes, b.bytes);
        DivergesAfter([STRING], Escaped(a.bytes) + [ESCAPE, TERMINATOR], Escaped(b.bytes) + [ESCAPE, TERMINATOR]);
        Assoc(a.bytes);
        Assoc(b.bytes);
      }
    } else {
      TagFirst(a, missing);
      TagFirst(b, missing);
      hide Plain;
    }
  }

  lemma Assoc(b: Bytes)
    ensures StringCode(b) == [STRING] + (Escaped(b) + [ESCAPE, TERMINATOR])
  {
  }

  function Tag(rank: int): byte {
    if rank == 0 then MISSING_FIRST else if rank == 1 then NULL else if rank == 2 then FALSE else if rank == 3 then TRUE
    else if rank == 4 then NUMBER else if rank == 5 then STRING else MISSING_LAST
  }

  lemma TagFirst(v: Value, missing: Missing)
    requires Plain(v, missing).Ok?
    ensures Plain(v, missing).value != [] && Plain(v, missing).value[0] == Tag(Rank(v, missing))
    ensures Rank(v, missing) < 4 || Rank(v, missing) == 9 ==> Plain(v, missing).value == [Tag(Rank(v, missing))]
    ensures Rank(v, missing) in {0, 1, 2, 3, 4, 5, 9} && (Rank(v, missing) == 5 <==> v.Text?)
  {
    hide Word;
    hide Escaped;
    hide FloatBits;
  }

  /** The same for a field, ascending or descending. */
  lemma CodeOrders(a: Value, b: Value, field: Field)
    requires Code(a, field).Ok? && Code(b, field).Ok?
    ensures FieldBefore(a, b, field) ==> Diverges(Code(a, field).value, Code(b, field).value)
    ensures Alike(a, b, field.missing) ==> Code(a, field) == Code(b, field)
    ensures FieldBefore(a, b, field) || FieldBefore(b, a, field) || Alike(a, b, field.missing)
  {
    hide Before;
    hide Alike;
    hide Plain;
    PlainOrders(a, b, field.missing);
    PlainOrders(b, a, field.missing);
    ValuesCompare(a, b, field.missing);
    if field.descending && Before(b, a, field.missing) {
      ComplementReverses(Plain(b, field.missing).value, Plain(a, field.missing).value);
    }
  }

  /** No component is the beginning of another: two codes are equal or part before either ends. */
  lemma NoComponentPrefix(a: Value, b: Value, field: Field)
    requires Code(a, field).Ok? && Code(b, field).Ok? && Code(a, field).value <= Code(b, field).value
    ensures Code(a, field) == Code(b, field) && Alike(a, b, field.missing)
  {
    hide Before;
    hide Alike;
    hide Code;
    CodeOrders(a, b, field);
    CodeOrders(b, a, field);
    if FieldBefore(a, b, field) {
      DivergesNotPrefix(Code(a, field).value, Code(b, field).value);
    } else if FieldBefore(b, a, field) {
      DivergesNotPrefix(Code(b, field).value, Code(a, field).value);
    }
  }

  // ---- whole keys ----

  function KeyCode(values: seq<Value>, fields: seq<Field>): Result<Bytes>
    requires |values| == |fields|
  {
    if values == [] then Ok([])
    else
      match KeyCode(values[..|values| - 1], fields[..|fields| - 1])
      case Fail(e) => Fail(e)
      case Ok(before) =>
        match Code(values[|values| - 1], fields[|fields| - 1])
        case Fail(e) => Fail(e)
        case Ok(last) => Ok(before + last)
  }

  /** Lexicographic order, each component in the order its field declares. */
  predicate KeyBefore(a: seq<Value>, b: seq<Value>, fields: seq<Field>)
    requires |a| == |b| == |fields|
  {
    a != [] && (
      var n := |a| - 1;
      || KeyBefore(a[..n], b[..n], fields[..n])
      || (KeyAlike(a[..n], b[..n], fields[..n]) && FieldBefore(a[n], b[n], fields[n])))
  }

  predicate KeyAlike(a: seq<Value>, b: seq<Value>, fields: seq<Field>)
    requires |a| == |b| == |fields|
  {
    forall i | 0 <= i < |a| :: Alike(a[i], b[i], fields[i].missing)
  }

  lemma {:induction false} KeyCodeOrders(a: seq<Value>, b: seq<Value>, fields: seq<Field>)
    requires |a| == |b| == |fields| && KeyCode(a, fields).Ok? && KeyCode(b, fields).Ok?
    ensures KeyBefore(a, b, fields) ==> Diverges(KeyCode(a, fields).value, KeyCode(b, fields).value)
    ensures KeyAlike(a, b, fields) ==> KeyCode(a, fields) == KeyCode(b, fields)
    ensures KeyBefore(a, b, fields) || KeyBefore(b, a, fields) || KeyAlike(a, b, fields)
    decreases |a|
  {
    hide FieldBefore;
    hide Alike;
    hide Code;
    hide Diverges;
    if a != [] {
      var n := |a| - 1;
      KeyCodeOrders(a[..n], b[..n], fields[..n]);
      KeyCodeOrders(b[..n], a[..n], fields[..n]);
      CodeOrders(a[n], b[n], fields[n]);
      CodeOrders(b[n], a[n], fields[n]);
      AlikeFlips(a[..n], b[..n], fields[..n]);
      var p, q, x, y := KeyCode(a[..n], fields[..n]).value, KeyCode(b[..n], fields[..n]).value, Code(a[n], fields[n]).value, Code(b[n], fields[n]).value;
      if KeyBefore(a[..n], b[..n], fields[..n]) {
        DivergesIsLess(p, q, x, y);
      } else if KeyAlike(a[..n], b[..n], fields[..n]) && FieldBefore(a[n], b[n], fields[n]) {
        DivergesAfter(p, x, y);
      }
    }
  }

  lemma AlikeFlips(a: seq<Value>, b: seq<Value>, fields: seq<Field>)
    requires |a| == |b| == |fields|
    ensures KeyAlike(a, b, fields) ==> KeyAlike(b, a, fields)
  {
    hide Quantity;
    hide Rank;
    if KeyAlike(a, b, fields) {
      forall i | 0 <= i < |a| ensures Alike(b[i], a[i], fields[i].missing) { assert Alike(a[i], b[i], fields[i].missing); }
    }
  }

  /**
   For any values under any mix of ascending and descending, missing-first and
   missing-last fields, byte order is the declared order, and one key is one place in it.
   */
  lemma KeyOrder(a: seq<Value>, b: seq<Value>, fields: seq<Field>)
    requires |a| == |b| == |fields| && KeyCode(a, fields).Ok? && KeyCode(b, fields).Ok?
    ensures Less(KeyCode(a, fields).value, KeyCode(b, fields).value) <==> KeyBefore(a, b, fields)
    ensures KeyCode(a, fields) == KeyCode(b, fields) <==> KeyAlike(a, b, fields)
    ensures KeyCode(a, fields).value <= KeyCode(b, fields).value ==> KeyCode(a, fields) == KeyCode(b, fields)
  {
    hide KeyBefore;
    hide KeyAlike;
    hide KeyCode;
    KeyCodeOrders(a, b, fields);
    KeyCodeOrders(b, a, fields);
    var x, y := KeyCode(a, fields).value, KeyCode(b, fields).value;
    assert x + [] == x && y + [] == y;
    Irreflexive(x);
    if KeyBefore(a, b, fields) {
      DivergesIsLess(x, y, [], []);
      DivergesNotPrefix(x, y);
    } else if KeyBefore(b, a, fields) {
      DivergesIsLess(y, x, [], []);
      DivergesNotPrefix(y, x);
      NotBoth(y, x);
    }
  }

  lemma NotBoth(a: Bytes, b: Bytes)
    requires Less(a, b)
    ensures !Less(b, a) && a != b
  {
    Irreflexive(a);
    if Less(b, a) { Transitive(a, b, a); }
  }

  // ---- the loops ----

  /** encodeString */
  method EncodeString(dst: Bytes, value: Bytes) returns (r: Bytes)
    ensures r == dst + StringCode(value)
  {
    hide Escaped;
    r := dst + [STRING];
    var i := 0;
    assert Escaped(value[..0]) == [] by { EscapedNone(); assert value[..0] == []; }
    while i < |value|
      invariant 0 <= i <= |value| && r == dst + [STRING] + Escaped(value[..i])
    {
      EscapedPush(value[..i], value[i]);
      assert value[..i + 1] == value[..i] + [value[i]];
      if value[i] == ESCAPE {
        r := r + [ESCAPE, ESCAPED];
      } else {
        r := r + [value[i]];
      }
      i := i + 1;
    }
    assert value[..i] == value;
    r := r + [ESCAPE, TERMINATOR];
  }

  lemma EscapedNone()
    ensures Escaped([]) == []
  {
  }

  /** A value a key can hold: what is missing only where the field says so, no number but one that is one, no integer a float cannot hold. */
  predicate Holdable(v: Value, field: Field) {
    match v
    case Absent => field.missing != Skip
    case Number(bits) => !(bits % SIGN > INFINITY)
    case Integer(n) => -0x20_0000_0000_0000 <= n <= 0x20_0000_0000_0000
    case Other => false
    case _ => true
  }

  function Refusal(v: Value): Error {
    match v
    case Absent => Skipped
    case Number(_) => NotANumber
    case Integer(_) => TooLarge
    case _ => NotIndexable
  }

  /** Encode appends one value to a key, complementing it in place for a descending field. */
  method Encode(dst: Bytes, value: Value, field: Field) returns (r: Result<Bytes>)
    ensures match Code(value, field)
            case Ok(b) => r == Ok(dst + b)
            case Fail(e) => r == Fail(e)
    ensures r.Ok? <==> Holdable(value, field)
    ensures r.Fail? ==> r.error == Refusal(value)
  {
    hide Escaped;
    hide Word;
    hide FloatBits;
    var start := |dst|;
    var out: Bytes;
    if value.Text? {
      out := EncodeString(dst, value.bytes);
    } else {
      var plain := Plain(value, field.missing);
      if plain.Fail? {
        return Fail(plain.error);
      }
      out := dst + plain.value;
    }
    ghost var b := Plain(value, field.missing).value;
    if field.descending {
      var i := start;
      while i < |out|
        invariant start <= i <= |out| == start + |b|
        invariant forall j | 0 <= j < start :: out[j] == dst[j]
        invariant forall j | start <= j < i :: out[j] == 255 - b[j - start]
        invariant forall j | i <= j < |out| :: out[j] == b[j - start]
      {
        out := out[i := 255 - out[i]];
        i := i + 1;
      }
      assert out == dst + Complement(b);
    }
    return Ok(out);
  }

  /** EncodeKey appends one component per field, in order. */
  method EncodeKey(dst: Bytes, values: seq<Value>, fields: seq<Field>) returns (r: Result<Bytes>)
    ensures |values| != |fields| ==> r == Fail(Mismatch)
    ensures |values| == |fields| ==>
              match KeyCode(values, fields)
              case Ok(b) => r == Ok(dst + b)
              case Fail(e) => r.Fail?
    ensures r.Ok? <==> |values| == |fields| && forall i | 0 <= i < |values| :: Holdable(values[i], fields[i])
  {
    hide Code;
    hide Holdable;
    if |values| != |fields| {
      return Fail(Mismatch);
    }
    var out, i := dst, 0;
    while i < |values|
      invariant 0 <= i <= |values|
      invariant KeyCode(values[..i], fields[..i]).Ok? && out == dst + KeyCode(values[..i], fields[..i]).value
      invariant forall j | 0 <= j < i :: Holdable(values[j], fields[j])
    {
      KeyCodePush(values, fields, i);
      var one := Encode(out, values[i], fields[i]);
      if one.Fail? {
        KeyCodeFails(values, fields, i);
        return one;
      }
      out := one.value;
      i := i + 1;
    }
    assert values[..i] == values && fields[..i] == fields;
    return Ok(out);
  }

  lemma KeyCodePush(values: seq<Value>, fields: seq<Field>, i: nat)
    requires i < |values| == |fields| && KeyCode(values[..i], fields[..i]).Ok?
    ensures KeyCode(values[..i + 1], fields[..i + 1]) ==
      match Code(values[i], fields[i])
      case Fail(e) => Fail(e)
      case Ok(last) => Ok(KeyCode(values[..i], fields[..i]).value + last)
  {
    hide Code;
    assert values[..i + 1][..i] == values[..i] && fields[..i + 1][..i] == fields[..i];
  }

  lemma {:induction false} KeyCodeFails(values: seq<Value>, fields: seq<Field>, i: nat)
    requires i < |values| == |fields| && KeyCode(values[..i + 1], fields[..i + 1]).Fail?
    ensures KeyCode(values, fields).Fail?
    decreases |values|
  {
    hide Code;
    var n := |values| - 1;
    if i < n {
      assert values[..n][..i + 1] == values[..i + 1] && fields[..n][..i + 1] == fields[..i + 1];
      KeyCodeFails(values[..n], fields[..n], i);
    } else {
      assert values[..i + 1] == values && fields[..i + 1] == fields;
    }
  }

  function OneZero(bits: Bits): Bits { if bits == SIGN then 0 else bits }

  /** What a value reads back as: numbers come back as floats, and both zeros as one. */
  function Canonical(v: Value): Value {
    match v
    case Number(bits) => Number(OneZero(bits))
    case Integer(n) => if -0x20_0000_0000_0000 <= n <= 0x20_0000_0000_0000 then Number(OneZero(FloatBits(n))) else v
    case _ => v
  }

  // ---- reading back ----

  function Flip(x: byte, descending: bool): byte { if descending then 255 - x else x }

  /** The bytes of a component as they were before a descending field complemented them. */
  lemma CodeBytes(v: Value, field: Field, src: Bytes, rest: Bytes)
    requires Code(v, field).Ok? && src == Code(v, field).value + rest
    ensures
      var plain := Plain(v, field.missing).value;
      && |plain| <= |src| && src[|plain|..] == rest
      && forall i | 0 <= i < |plain| :: Flip(src[i], field.descending) == plain[i]
  {
    hide Plain;
  }

  lemma {:induction false} EscapedConcat(a: Bytes, b: Bytes)
    ensures Escaped(a + b) == Escaped(a) + Escaped(b)
  {
    if b == [] {
      assert a + b == a && Escaped(b) == [];
    } else {
      var before, last := b[..|b| - 1], b[|b| - 1];
      EscapedConcat(a, before);
      EscapedPush(a + before, last);
      EscapedPush(before, last);
      hide Escaped;
      assert b == before + [last] && a + b == (a + before) + [last];
    }
  }

  /** What stands in the code of a string where its byte `k` goes. */
  lemma EscapedAt(b: Bytes, k: nat)
    requires k <= |b|
    ensures
      var code, i := StringCode(b), 1 + |Escaped(b[..k])|;
      && i + 1 < |code|
      && (k == |b| ==> code[i] == ESCAPE && code[i + 1] == TERMINATOR && i + 2 == |code|)
      && (k < |b| ==> if b[k] == ESCAPE then code[i] == ESCAPE && code[i + 1] == ESCAPED else code[i] == b[k])
      && (k < |b| ==> |Escaped(b[..k + 1])| == |Escaped(b[..k])| + if b[k] == ESCAPE then 2 else 1)
  {
    assert b == b[..k] + b[k..];
    EscapedConcat(b[..k], b[k..]);
    if k < |b| {
      EscapedFirst(b[k..]);
      assert b[..k + 1] == b[..k] + [b[k]];
      EscapedPush(b[..k], b[k]);
    } else {
      assert b[..k] == b;
    }
    hide Escaped;
  }

  /** How far the reading of a string has come. */
  ghost predicate ReadTo(b: Bytes, k: nat, i: int, value: Bytes) {
    k <= |b| && value == b[..k] && i == 1 + |Escaped(b[..k])|
  }

  method DecodeString(src: Bytes, descending: bool, ghost b: Bytes) returns (r: Result<(Value, Bytes)>)
    requires |src| >= 1
    ensures |StringCode(b)| <= |src| && (forall i | 0 <= i < |StringCode(b)| :: Flip(src[i], descending) == StringCode(b)[i]) ==>
              r == Ok((Text(b), src[|StringCode(b)|..]))
  {
    hide StringCode;
    ghost var good := |StringCode(b)| <= |src| && (forall i | 0 <= i < |StringCode(b)| :: Flip(src[i], descending) == StringCode(b)[i]);
    var value: Bytes, i := [], 1;
    ghost var k: nat := 0;
    assert ReadTo(b, 0, 1, []) by { assert b[..0] == []; EscapedNone(); }
    EscapedAt(b, 0);
    hide ReadTo;
    while i < |src|
      invariant 1 <= i
      invariant good ==> k <= |b| && ReadTo(b, k, i, value) && i < |src|
      decreases |src| - i
    {
      if good { EscapedAt(b, k); ReadIs(b, k, i, value); ReadOn(b, k, i, value); }
      var x := Flip(src[i], descending);
      if x != ESCAPE {
        value := value + [x];
        i := i + 1;
      } else {
        if i + 1 >= |src| {
          return Fail(Truncated);
        }
        var y := Flip(src[i + 1], descending);
        if y == TERMINATOR {
          return Ok((Text(value), src[i + 2..]));
        }
        if y != ESCAPED {
          return Fail(BadTag);
        }
        value := value + [ESCAPE];
        i := i + 2;
      }
      k := k + 1;
      if good { EscapedAt(b, k); ReadIs(b, k, i, value); }
    }
    return Fail(Truncated);
  }

  lemma ReadIs(b: Bytes, k: nat, i: int, value: Bytes)
    requires ReadTo(b, k, i, value)
    ensures k <= |b| && i == 1 + |Escaped(b[..k])| && value == b[..k] && (k == |b| ==> value == b)
  {
    assert k == |b| ==> b[..k] == b;
  }

  lemma ReadOn(b: Bytes, k: nat, i: int, value: Bytes)
    requires ReadTo(b, k, i, value)
    ensures k < |b| ==> ReadTo(b, k + 1, if b[k] == ESCAPE then i + 2 else i + 1, value + [b[k]])
  {
    if k < |b| {
      EscapedAt(b, k);
      assert b[..k + 1] == b[..k] + [b[k]];
    }
  }

  /** Undoing the fold of the sign. */
  function UnsortBits(x: Bits): Bits { if x >= SIGN then x - SIGN else 0xffff_ffff_ffff_ffff - x }

  lemma SortBitsRoundTrip(bits: Bits)
    ensures SortBits(bits) < 0x1_0000_0000_0000_0000 && UnsortBits(SortBits(bits)) == OneZero(bits)
  {
  }

  /** Decode: undoes Encode on one component and hands over the untouched rest. */
  method Decode(src: Bytes, field: Field, ghost v: Value, ghost rest: Bytes) returns (r: Result<(Value, Bytes)>)
    ensures src == [] ==> r == Fail(Truncated)
    ensures Code(v, field).Ok? && src == Code(v, field).value + rest ==> r == Ok((Canonical(v), rest))
  {
    hide FloatBits;
    hide Escaped;
    hide Word;
    hide FromWord;
    hide SortBits;
    ghost var good := Code(v, field).Ok? && src == Code(v, field).value + rest;
    if good { CodeBytes(v, field, src, rest); TagFirst(v, field.missing); }
    hide Code;
    if |src| == 0 {
      return Fail(Truncated);
    }
    var tag := Flip(src[0], field.descending);
    if tag == MISSING_FIRST || tag == MISSING_LAST {
      return Ok((Absent, src[1..]));
    } else if tag == NULL {
      return Ok((Null, src[1..]));
    } else if tag == FALSE {
      return Ok((Bool(false), src[1..]));
    } else if tag == TRUE {
      return Ok((Bool(true), src[1..]));
    } else if tag == NUMBER {
      ghost var bits := 0;
      if good { bits := NumberBits(v, field.missing); NumberCodeLength(bits); }
      r := DecodeNumber(src, field.descending, bits);
    } else if tag == STRING {
      r := DecodeString(src, field.descending, if v.Text? then v.bytes else []);
    } else {
      return Fail(BadTag);
    }
  }

  lemma NumberCodeLength(bits: Bits)
    ensures |NumberCode(bits)| == 9
  {
    PowerOf8();
    SortBitsRoundTrip(bits);
    WordRoundTrip(SortBits(bits), 8);
  }

  lemma RawIs(src: Bytes, descending: bool, bits: Bits, raw: Bytes)
    requires |src| >= 9 && |raw| == 8 && |NumberCode(bits)| == 9
    requires forall j | 0 <= j < 8 :: raw[j] == Flip(src[1 + j], descending)
    ensures (forall j | 0 <= j < 9 :: Flip(src[j], descending) == NumberCode(bits)[j]) ==> raw == NumberCode(bits)[1..]
    ensures NumberCode(bits)[1..] == Word(SortBits(bits), 8)
  {
    hide Word;
    hide SortBits;
  }

  method DecodeNumber(src: Bytes, descending: bool, ghost bits: Bits) returns (r: Result<(Value, Bytes)>)
    requires |src| >= 1
    ensures |NumberCode(bits)| == 9 <= |src| && (forall i | 0 <= i < 9 :: Flip(src[i], descending) == NumberCode(bits)[i]) ==>
              r == Ok((Number(OneZero(bits)), src[9..]))
  {
    hide Word;
    hide FromWord;
    if |src| < 9 {
      return Fail(Truncated);
    }
    var raw: Bytes, i := [], 0;
    while i < 8
      invariant 0 <= i <= 8 && |raw| == i && forall j | 0 <= j < i :: raw[j] == Flip(src[1 + j], descending)
    {
      raw := raw + [Flip(src[1 + i], descending)];
      i := i + 1;
    }
    PowerOf8();
    FromWordBound(raw);
    hide Power;
    SortBitsRoundTrip(bits);
    WordRoundTrip(SortBits(bits), 8);
    assert |NumberCode(bits)| == 9;
    assert (forall j | 0 <= j < 9 :: Flip(src[j], descending) == NumberCode(bits)[j]) ==> raw == Word(SortBits(bits), 8) by {
      RawIs(src, descending, bits, raw);
    }
    return Ok((Number(UnsortBits(FromWord(raw))), src[9..]));
  }

  /** DecodeKey reads a whole key back: the values, and the untouched rest. */
  method DecodeKey(src: Bytes, fields: seq<Field>, ghost values: seq<Value>, ghost rest: Bytes) returns (r: Result<(seq<Value>, Bytes)>)
    ensures |values| == |fields| && KeyCode(values, fields).Ok? && src == KeyCode(values, fields).value + rest ==>
              r.Ok? && r.value.1 == rest && |r.value.0| == |values|
              && forall i | 0 <= i < |values| :: r.value.0[i] == Canonical(values[i])
  {
    hide Code;
    hide Canonical;
    hide KeyCode;
    ghost var good := |values| == |fields| && KeyCode(values, fields).Ok? && src == KeyCode(values, fields).value + rest;
    var left, out, i := src, [], 0;
    if good { TailBegins(values, fields); }
    while i < |fields|
      invariant 0 <= i <= |fields| && |out| == i
      invariant good ==> TailCode(values, fields, i).Ok? && left == TailCode(values, fields, i).value + rest
      invariant good ==> forall j | 0 <= j < i :: out[j] == Canonical(values[j])
    {
      ghost var v, after := if good then values[i] else Null, [];
      if good {
        TailStep(values, fields, i);
        after := TailCode(values, fields, i + 1).value + rest;
        Regroup3(Code(v, fields[i]).value, TailCode(values, fields, i + 1).value, rest);
      }
      var one := Decode(left, fields[i], v, after);
      if one.Fail? {
        return Fail(one.error);
      }
      out := out + [one.value.0];
      left := one.value.1;
      i := i + 1;
    }
    if good { TailEnds(values, fields); assert [] + rest == rest; }
    return Ok((out, left));
  }

  lemma Regroup3(a: Bytes, b: Bytes, c: Bytes)
    ensures (a + b) + c == a + (b + c)
  {
  }

  /** The components from `i` on. */
  ghost function TailCode(values: seq<Value>, fields: seq<Field>, i: nat): Result<Bytes>
    requires i <= |values| == |fields|
    decreases |values| - i
  {
    if i == |values| then Ok([])
    else
      match (Code(values[i], fields[i]), TailCode(values, fields, i + 1))
      case (Ok(a), Ok(b)) => Ok(a + b)
      case _ => Fail(Truncated)
  }

  lemma TailStep(values: seq<Value>, fields: seq<Field>, i: nat)
    requires i < |values| == |fields| && TailCode(values, fields, i).Ok?
    ensures Code(values[i], fields[i]).Ok? && TailCode(values, fields, i + 1).Ok?
    ensures TailCode(values, fields, i).value == Code(values[i], fields[i]).value + TailCode(values, fields, i + 1).value
  {
    hide Code;
  }

  lemma TailEnds(values: seq<Value>, fields: seq<Field>)
    requires |values| == |fields|
    ensures TailCode(values, fields, |values|) == Ok([])
  {
  }

  lemma TailBegins(values: seq<Value>, fields: seq<Field>)
    requires |values| == |fields| && KeyCode(values, fields).Ok?
    ensures TailCode(values, fields, 0).Ok? && TailCode(values, fields, 0).value == KeyCode(values, fields).value
  {
    hide KeyCode;
    hide TailCode;
    assert values[..0] == [] && fields[..0] == [];
    KeyCodeNone();
    SplitAt(values, fields, 0);
  }

  lemma KeyCodeNone()
    ensures KeyCode([], []) == Ok([])
  {
  }

  lemma {:induction false} SplitAt(values: seq<Value>, fields: seq<Field>, i: nat)
    requires i <= |values| == |fields| && KeyCode(values, fields).Ok?
    ensures KeyCode(values[..i], fields[..i]).Ok? && TailCode(values, fields, i).Ok?
    ensures KeyCode(values, fields).value == KeyCode(values[..i], fields[..i]).value + TailCode(values, fields, i).value
    decreases |values| - i
  {
    hide Code;
    if i == |values| {
      assert values[..i] == values && fields[..i] == fields;
    } else {
      SplitAt(values, fields, i + 1);
      assert values[..i + 1][..i] == values[..i] && fields[..i + 1][..i] == fields[..i];
      assert KeyCode(values[..i], fields[..i]).Ok? && Code(values[i], fields[i]).Ok?;
      KeyCodePush(values, fields, i);
      hide KeyCode;
      Regroup3(KeyCode(values[..i], fields[..i]).value, Code(values[i], fields[i]).value, TailCode(values, fields, i + 1).value);
    }
  }
}
