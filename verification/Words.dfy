/** Numbers as bytes, most significant first. */
module Words {
  import opened Bytes

  function Word(x: nat, width: nat): Bytes {
    if width == 0 then [] else Word(x / 256, width - 1) + [x % 256]
  }

  function FromWord(b: Bytes): nat {
    if b == [] then 0 else FromWord(b[..|b| - 1]) * 256 + b[|b| - 1]
  }

  /** How many numbers `width` bytes can hold. */
  function Power(width: nat): nat { if width == 0 then 1 else 256 * Power(width - 1) }

  lemma Regroup(a: nat, b: nat, c: nat)
    ensures (a * b) * c == a * (b * c)
  {
  }

  lemma {:induction false} WordRoundTrip(x: nat, width: nat)
    requires x < Power(width)
    ensures |Word(x, width)| == width && FromWord(Word(x, width)) == x
  {
    if width > 0 {
      WordRoundTrip(x / 256, width - 1);
      assert Word(x, width)[..width - 1] == Word(x / 256, width - 1);
    }
  }

  lemma {:induction false} FromWordBound(b: Bytes)
    ensures FromWord(b) < Power(|b|)
  {
    if b != [] { FromWordBound(b[..|b| - 1]); }
  }

  /** Two strings that part ways before either ends: the first is below the second, whatever follows them. */
  predicate Diverges(a: Bytes, b: Bytes) {
    a != [] && b != [] && (a[0] < b[0] || (a[0] == b[0] && Diverges(a[1..], b[1..])))
  }

  lemma {:induction false} DivergesIsLess(a: Bytes, b: Bytes, x: Bytes, y: Bytes)
    requires Diverges(a, b)
    ensures Diverges(a + x, b + y) && Less(a + x, b + y)
  {
    assert (a + x)[1..] == a[1..] + x && (b + y)[1..] == b[1..] + y;
    if a[0] == b[0] { DivergesIsLess(a[1..], b[1..], x, y); }
  }

  lemma {:induction false} DivergesAfter(p: Bytes, a: Bytes, b: Bytes)
    requires Diverges(a, b)
    ensures Diverges(p + a, p + b)
  {
    if p == [] {
      assert p + a == a && p + b == b;
    } else {
      DivergesAfter(p[1..], a, b);
      assert (p + a)[1..] == p[1..] + a && (p + b)[1..] == p[1..] + b;
    }
  }

  /** Neither of two strings that part is the beginning of the other. */
  lemma {:induction false} DivergesNotPrefix(a: Bytes, b: Bytes)
    requires Diverges(a, b)
    ensures !(a <= b) && !(b <= a)
  {
    if a[0] == b[0] { DivergesNotPrefix(a[1..], b[1..]); }
  }

  /** Big-endian words of one width are in the order of the numbers. */
  lemma {:induction false} WordsDiverge(x: nat, y: nat, width: nat)
    requires x < y < Power(width)
    ensures Diverges(Word(x, width), Word(y, width))
  {
    if width > 0 {
      var a, b := Word(x / 256, width - 1), Word(y / 256, width - 1);
      if x / 256 < y / 256 {
        WordsDiverge(x / 256, y / 256, width - 1);
        DivergesIsLess(a, b, [x % 256], [y % 256]);
      } else {
        assert x / 256 == y / 256 && x % 256 < y % 256;
        DivergesAfter(a, [x % 256], [y % 256]);
      }
    }
  }

  lemma {:induction false} WordAgain(b: Bytes)
    ensures FromWord(b) < Power(|b|) && Word(FromWord(b), |b|) == b
  {
    FromWordBound(b);
    if b != [] {
      WordAgain(b[..|b| - 1]);
      assert b == b[..|b| - 1] + [b[|b| - 1]];
    }
  }

  /** Words of one width compare as the numbers they spell. */
  lemma WordOrder(a: Bytes, b: Bytes)
    requires |a| == |b|
    ensures Less(a, b) <==> FromWord(a) < FromWord(b)
    ensures a == b <==> FromWord(a) == FromWord(b)
  {
    hide FromWord;
    hide Word;
    hide Power;
    WordAgain(a);
    WordAgain(b);
    assert a + [] == a && b + [] == b;
    Irreflexive(a);
    if FromWord(a) < FromWord(b) {
      WordsDiverge(FromWord(a), FromWord(b), |a|);
      DivergesIsLess(a, b, [], []);
    } else if FromWord(b) < FromWord(a) {
      WordsDiverge(FromWord(b), FromWord(a), |a|);
      DivergesIsLess(b, a, [], []);
      if Less(a, b) { Transitive(a, b, a); }
    }
  }

  // ---- powers of two ----

  function Two(n: nat): nat { if n == 0 then 1 else 2 * Two(n - 1) }

  lemma {:induction false} TwoPositive(n: nat)
    ensures Two(n) >= 1
  {
    if n > 0 { TwoPositive(n - 1); }
  }

  lemma {:induction false} TwoAdds(a: nat, b: nat)
    ensures Two(a) * Two(b) == Two(a + b)
  {
    if a > 0 {
      TwoAdds(a - 1, b);
      calc {
        Two(a) * Two(b);
        (2 * Two(a - 1)) * Two(b);
        2 * (Two(a - 1) * Two(b));
      }
    }
  }
}
