/** JavaScript's 32-bit bitwise operators on non-negative operands, bit by bit. */
module JsInt32 {
  function Pow2(n: nat): (r: nat)
    ensures r >= 1
  {
    if n == 0 then 1 else 2 * Pow2(n - 1)
  }

  /** a | b */
  function Or(a: nat, b: nat): nat {
    if a == 0 && b == 0 then 0
    else 2 * Or(a / 2, b / 2) + (if a % 2 == 1 || b % 2 == 1 then 1 else 0)
  }

  /** a & b */
  function And(a: nat, b: nat): nat
    decreases a + b
  {
    if a == 0 || b == 0 then 0
    else 2 * And(a / 2, b / 2) + (if a % 2 == 1 && b % 2 == 1 then 1 else 0)
  }

  /** The n low bits of a. */
  function Low(a: nat, n: nat): (r: nat)
    ensures r < Pow2(n)
    decreases n, a
  {
    if n == 0 then 0 else 2 * Low(a / 2, n - 1) + a % 2
  }

  /** a moved n places up, before any bit is lost. */
  function Scaled(a: nat, n: nat): nat
    decreases n, a
  {
    if n == 0 then a else 2 * Scaled(a, n - 1)
  }

  /** a << n, which keeps only 32 bits */
  function Shl(a: nat, n: nat): nat { Low(Scaled(a, n), 32) }

  /** a >>> n */
  function Ushr(a: nat, n: nat): nat
    decreases n, a
  {
    if n == 0 then a else Ushr(a / 2, n - 1)
  }

  lemma {:induction false} OrZero(b: nat)
    ensures Or(0, b) == b
  {
    if b != 0 { OrZero(b / 2); }
  }

  /** Or-ing into freed low bits is addition. */
  lemma {:induction false} OrIsSum(hi: nat, n: nat, lo: nat)
    requires lo < Pow2(n)
    ensures Or(Scaled(hi, n), lo) == Scaled(hi, n) + lo
    decreases n
  {
    if n == 0 {
      OrZero(hi);
      OrCommutes(hi, 0);
    } else {
      var a := Scaled(hi, n);
      assert a / 2 == Scaled(hi, n - 1) && a % 2 == 0;
      if a != 0 || lo != 0 { OrIsSum(hi, n - 1, lo / 2); }
    }
  }

  lemma {:induction false} OrCommutes(a: nat, b: nat)
    ensures Or(a, b) == Or(b, a)
    decreases a + b
  {
    if a != 0 || b != 0 { OrCommutes(a / 2, b / 2); }
  }

  /** Masking with n ones keeps the n low bits. */
  lemma {:induction false} AndIsLow(a: nat, n: nat)
    ensures And(a, Pow2(n) - 1) == Low(a, n)
    decreases n
  {
    if n == 0 {
    } else if a == 0 {
      LowOfSmall(0, n);
    } else {
      AndIsLow(a / 2, n - 1);
      assert (Pow2(n) - 1) / 2 == Pow2(n - 1) - 1 && (Pow2(n) - 1) % 2 == 1;
    }
  }

  lemma {:induction false} LowOfSmall(a: nat, n: nat)
    requires a < Pow2(n)
    ensures Low(a, n) == a
    decreases n
  {
    if n > 0 { LowOfSmall(a / 2, n - 1); }
  }

  /** What `a << n` keeps when only n + m bits survive. */
  lemma {:induction false} LowOfScaled(a: nat, n: nat, m: nat)
    ensures Low(Scaled(a, n), n + m) == Scaled(Low(a, m), n)
    decreases n
  {
    if n > 0 { LowOfScaled(a, n - 1, m); }
  }

  /** Two windows laid side by side come apart again. */
  lemma {:induction false} Join(hi: nat, n: nat, lo: nat)
    requires lo < Pow2(n)
    ensures Ushr(Scaled(hi, n) + lo, n) == hi && Low(Scaled(hi, n) + lo, n) == lo
    decreases n
  {
    if n > 0 {
      var v := Scaled(hi, n) + lo;
      assert v / 2 == Scaled(hi, n - 1) + lo / 2 && v % 2 == lo % 2;
      Join(hi, n - 1, lo / 2);
    }
  }

  lemma SmallPowers()
    ensures Pow2(4) == 16 && Pow2(5) == 32 && Pow2(7) == 128 && Pow2(8) == 256
    ensures Pow2(16) == 0x1_0000 && Pow2(24) == 0x100_0000
  {
    assert Pow2(4) == 16;
    assert Pow2(8) == 16 * Pow2(4);
    assert Pow2(12) == 16 * Pow2(8);
    assert Pow2(16) == 16 * Pow2(12);
    assert Pow2(20) == 16 * Pow2(16);
    assert Pow2(24) == 16 * Pow2(20);
  }
}

/**
 * The base32 codec of backend/src/auth/totp.service.ts, against the unpadded grouping of
 * section 6 of RFC 4648, and the truncation of section 5.3 of RFC 4226.
 */
module Base32 {
  import opened Common
  import opened Arithmetic
  import opened JsInt32

  const ALPHABET: string := "ABCDEFGHIJKLMNOPQRSTUVWXYZ234567"

  /** alphabet[k] */
  function Letter(k: nat): char
    requires k < 32
  {
    if k < 26 then ('A' as int + k) as char else ('2' as int + k - 26) as char
  }

  lemma LetterIsAlphabet(k: nat)
    requires k < 32
    ensures Letter(k) == ALPHABET[k]
  {
  }

  type Bits = seq<bool>

  // ---------------------------------------------------------------- RFC 4648, bit by bit

  /** The w low bits of x, most significant first. */
  function BitsOf(x: nat, w: nat): (r: Bits)
    ensures |r| == w
    decreases w, x
  {
    if w == 0 then [] else BitsOf(x / 2, w - 1) + [x % 2 == 1]
  }

  function ValueOf(bs: Bits): nat {
    if bs == [] then 0 else 2 * ValueOf(bs[..|bs| - 1]) + (if bs[|bs| - 1] then 1 else 0)
  }

  /** The bit stream of a list of w-bit values. */
  function Stream(xs: seq<nat>, w: nat): Bits {
    if xs == [] then [] else Stream(xs[..|xs| - 1], w) + BitsOf(xs[|xs| - 1], w)
  }

  lemma {:induction false} StreamLength(xs: seq<nat>, w: nat)
    ensures |Stream(xs, w)| == w * |xs|
  {
    if xs != [] {
      StreamLength(xs[..|xs| - 1], w);
      Distribute(w, |xs| - 1, 1);
    }
  }

  /** Cut a stream into 5-bit groups, the last one filled up with zero bits on the right. */
  function Groups(bs: Bits): seq<nat>
    decreases |bs|
  {
    if bs == [] then []
    else if |bs| <= 5 then [ValueOf(bs + Zeros(5 - |bs|))]
    else [ValueOf(bs[..5])] + Groups(bs[5..])
  }

  /** Cut a stream into octets, dropping what is left over. */
  function Octets(bs: Bits): seq<nat>
    decreases |bs|
  {
    if |bs| < 8 then [] else [ValueOf(bs[..8])] + Octets(bs[8..])
  }

  function Zeros(n: nat): (r: Bits)
    ensures |r| == n
  {
    if n == 0 then [] else Zeros(n - 1) + [false]
  }

  ghost predicate Below(xs: seq<nat>, n: nat) { forall k :: 0 <= k < |xs| ==> xs[k] < n }

  function Letters(xs: seq<nat>): (r: string)
    requires Below(xs, 32)
    ensures |r| == |xs|
  {
    if xs == [] then "" else Letters(xs[..|xs| - 1]) + [Letter(xs[|xs| - 1])]
  }

  lemma {:induction false} ValueBelow(bs: Bits)
    ensures ValueOf(bs) < Pow2(|bs|)
  {
    if bs != [] { ValueBelow(bs[..|bs| - 1]); }
  }

  lemma {:induction false} ValueOfBits(x: nat, w: nat)
    ensures ValueOf(BitsOf(x, w)) == Low(x, w)
    decreases w
  {
    if w > 0 {
      var front := BitsOf(x / 2, w - 1);
      assert BitsOf(x, w)[..w - 1] == front;
      ValueOfBits(x / 2, w - 1);
    }
  }

  lemma {:induction false} BitsOfValue(bs: Bits)
    ensures BitsOf(ValueOf(bs), |bs|) == bs
  {
    if bs != [] {
      var n := |bs| - 1;
      BitsOfValue(bs[..n]);
      var v := ValueOf(bs[..n]);
      assert ValueOf(bs) / 2 == v && (ValueOf(bs) % 2 == 1 <==> bs[n]);
      assert bs == bs[..n] + [bs[n]];
    }
  }

  /** Bit i of the w low bits of x, counted from the most significant. */
  lemma {:induction false} BitAt(x: nat, w: nat, i: nat)
    requires i < w
    ensures BitsOf(x, w)[i] <==> (x / Pow2(w - 1 - i)) % 2 == 1
    decreases w
  {
    if i < w - 1 {
      BitAt(x / 2, w - 1, i);
      DivTwice(x, 2, Pow2(w - 2 - i));
    }
  }

  /** Splitting a window: the high part, then the low part. */
  lemma {:induction false} BitsSplit(x: nat, a: nat, b: nat)
    ensures BitsOf(x, a + b) == BitsOf(Ushr(x, b), a) + BitsOf(Low(x, b), b)
    decreases b
  {
    if b == 0 {
      assert BitsOf(Low(x, 0), 0) == [];
    } else {
      BitsSplit(x / 2, a, b - 1);
      var hi, lo := BitsOf(Ushr(x, b), a), BitsOf(Low(x / 2, b - 1), b - 1);
      assert BitsOf(x, a + b) == BitsOf(x / 2, a + b - 1) + [x % 2 == 1];
      assert BitsOf(Low(x, b), b) == lo + [x % 2 == 1];
      assert (hi + lo) + [x % 2 == 1] == hi + (lo + [x % 2 == 1]);
    }
  }

  /** Only the low w bits matter, so masking a wider window first changes nothing. */
  lemma {:induction false} BitsOfLow(x: nat, w: nat, m: nat)
    requires w <= m
    ensures BitsOf(Low(x, m), w) == BitsOf(x, w)
    decreases w
  {
    if w > 0 { BitsOfLow(x / 2, w - 1, m - 1); }
  }

  lemma BitsInjective(x: nat, y: nat, w: nat)
    requires x < Pow2(w) && y < Pow2(w) && BitsOf(x, w) == BitsOf(y, w)
    ensures x == y
  {
    ValueOfBits(x, w);
    ValueOfBits(y, w);
    LowOfSmall(x, w);
    LowOfSmall(y, w);
  }

  lemma StreamSnoc(xs: seq<nat>, x: nat, w: nat)
    ensures Stream(xs + [x], w) == Stream(xs, w) + BitsOf(x, w)
  {
    assert (xs + [x])[..|xs|] == xs;
  }

  lemma Regroup(a: Bits, b: Bits, c: Bits)
    ensures a + (b + c) == (a + b) + c
  {
  }

  lemma {:induction false} StreamConcat(xs: seq<nat>, ys: seq<nat>, w: nat)
    ensures Stream(xs + ys, w) == Stream(xs, w) + Stream(ys, w)
  {
    if ys == [] {
      assert xs + ys == xs;
    } else {
      var front, last := ys[..|ys| - 1], ys[|ys| - 1];
      StreamConcat(xs, front, w);
      StreamSnoc(xs + front, last, w);
      assert (xs + front) + [last] == xs + ys;
      Regroup(Stream(xs, w), Stream(front, w), BitsOf(last, w));
    }
  }

  lemma StreamOne(x: nat, w: nat)
    ensures Stream([x], w) == BitsOf(x, w)
  {
    assert [x][..0] == [];
  }

  lemma BelowSplits(xs: seq<nat>, n: nat)
    requires Below(xs, n) && xs != []
    ensures Below(xs[..|xs| - 1], n) && xs[|xs| - 1] < n
  {
  }

  lemma SplitEqual(a: Bits, c: Bits, b: Bits, d: Bits)
    requires a + c == b + d && |a| == |b|
    ensures a == b && c == d
  {
    assert a == (a + c)[..|a|] == (b + d)[..|a|] == b;
    assert c == (a + c)[|a|..] == (b + d)[|a|..] == d;
  }

  lemma LastApart(xs: seq<nat>)
    requires xs != []
    ensures xs[..|xs| - 1] + [xs[|xs| - 1]] == xs
  {
  }

  lemma LastEqual(xs: seq<nat>, x: nat, ys: seq<nat>, y: nat, w: nat)
    requires |xs| == |ys| && x < Pow2(w) && y < Pow2(w)
    requires Stream(xs + [x], w) == Stream(ys + [y], w)
    ensures x == y && Stream(xs, w) == Stream(ys, w)
  {
    hide BitsOf, Pow2, Stream;
    StreamSnoc(xs, x, w);
    StreamSnoc(ys, y, w);
    StreamLength(xs, w);
    StreamLength(ys, w);
    SplitEqual(Stream(xs, w), BitsOf(x, w), Stream(ys, w), BitsOf(y, w));
    BitsInjective(x, y, w);
  }

  lemma {:induction false} StreamInjective(xs: seq<nat>, ys: seq<nat>, w: nat)
    requires w > 0 && |xs| == |ys| && Below(xs, Pow2(w)) && Below(ys, Pow2(w))
    requires Stream(xs, w) == Stream(ys, w)
    ensures xs == ys
  {
    if xs != [] {
      hide Pow2, Below, Stream;
      var front, x, front', y := xs[..|xs| - 1], xs[|xs| - 1], ys[..|ys| - 1], ys[|ys| - 1];
      BelowSplits(xs, Pow2(w));
      BelowSplits(ys, Pow2(w));
      LastApart(xs);
      LastApart(ys);
      LastEqual(front, x, front', y, w);
      StreamInjective(front, front', w);
    }
  }

  lemma {:induction false} GroupsCount(bs: Bits)
    ensures |bs| <= 5 * |Groups(bs)| < |bs| + 5
    ensures Below(Groups(bs), 32)
    decreases |bs|
  {
    if bs == [] {
    } else if |bs| <= 5 {
      ValueBelow(bs + Zeros(5 - |bs|));
      assert Pow2(5) == 32;
    } else {
      GroupsCount(bs[5..]);
      ValueBelow(bs[..5]);
      assert Pow2(5) == 32;
    }
  }

  /** One value in front of a stream. */
  lemma StreamCons(v: Bits, rest: seq<nat>, w: nat)
    requires |v| == w
    ensures Stream([ValueOf(v)] + rest, w) == v + Stream(rest, w)
  {
    StreamConcat([ValueOf(v)], rest, w);
    StreamOne(ValueOf(v), w);
    BitsOfValue(v);
  }

  /** One more group in front of a padded stream. */
  lemma GroupInFront(front: Bits, back: Bits, groups: seq<nat>, pad: Bits)
    requires |front| == 5 && Stream(groups, 5) == back + pad
    ensures Stream([ValueOf(front)] + groups, 5) == (front + back) + pad
  {
    StreamCons(front, groups, 5);
    Regroup(front, back, pad);
  }

  lemma LastGroup(bs: Bits)
    requires 0 < |bs| <= 5
    ensures Stream(Groups(bs), 5) == bs + Zeros(5 - |bs|)
  {
    var padded := bs + Zeros(5 - |bs|);
    StreamOne(ValueOf(padded), 5);
    BitsOfValue(padded);
  }

  lemma NothingStreams(w: nat)
    ensures Stream([], w) == [] + Zeros(0)
  {
  }

  /** The groups carry the stream, then fewer than five zero bits, and nothing else. */
  lemma {:induction false} GroupsStream(bs: Bits)
    ensures |bs| <= 5 * |Groups(bs)|
    ensures Stream(Groups(bs), 5) == bs + Zeros(5 * |Groups(bs)| - |bs|)
    decreases |bs|
  {
    hide BitsOf, ValueOf, Zeros, Stream;
    GroupsCount(bs);
    if bs == [] {
      NothingStreams(5);
    } else if |bs| <= 5 {
      LastGroup(bs);
    } else {
      GroupsStream(bs[5..]);
      GroupInFront(bs[..5], bs[5..], Groups(bs[5..]), Zeros(5 * |Groups(bs)| - |bs|));
      assert bs[..5] + bs[5..] == bs;
    }
  }

  lemma {:induction false} OctetsCount(bs: Bits)
    ensures 8 * |Octets(bs)| <= |bs| < 8 * |Octets(bs)| + 8
    ensures Below(Octets(bs), 256)
    decreases |bs|
  {
    if |bs| >= 8 {
      OctetsCount(bs[8..]);
      ValueBelow(bs[..8]);
      SmallPowers();
    }
  }

  lemma {:induction false} OctetsStream(bs: Bits)
    ensures 8 * |Octets(bs)| <= |bs|
    ensures Stream(Octets(bs), 8) == bs[..8 * |Octets(bs)|]
    decreases |bs|
  {
    OctetsCount(bs);
    if |bs| >= 8 {
      var front, back := bs[..8], bs[8..];
      var n := 8 * |Octets(back)|;
      OctetsStream(back);
      StreamCons(front, Octets(back), 8);
      assert front + back[..n] == bs[..8 + n];
    }
  }

  // ---------------------------------------------------------------- the codec's specification

  function Encoded(bytes: seq<nat>): string
    requires Below(bytes, 256)
  {
    GroupsCount(Stream(bytes, 8));
    Letters(Groups(Stream(bytes, 8)))
  }

  /**
   * toUpperCase of one character, as far as it can spell a stretch of the alphabet: besides the ASCII
   * letters these are dotless i, long s, and the two ligatures of s and t; no other result is one.
   */
  function UpperCase(c: char): (u: string)
    ensures |u| > 0
  {
    if 'a' <= c <= 'z' then [c - 32 as char]
    else if c == '\U{0131}' then ['I']
    else if c == '\U{017F}' then ['S']
    else if c == '\U{FB05}' || c == '\U{FB06}' then ['S', 'T']
    else [c]
  }

  /** The alphabet reads u from position k on. */
  predicate SpelledAt(u: string, k: nat) {
    k + |u| <= 32 && forall i :: 0 <= i < |u| ==> Letter(k + i) == u[i]
  }

  /** alphabet.indexOf(u), from a position on. */
  function Find(u: string, from: nat): (r: Option<nat>)
    requires from <= 32 && u != []
    ensures r.Some? ==> r.value < 32 && SpelledAt(u, r.value)
    decreases 32 - from
  {
    if from == 32 then None else if SpelledAt(u, from) then Some(from) else Find(u, from + 1)
  }

  function IndexOf(c: char): (r: Option<nat>)
    ensures r.Some? ==> r.value < 32 && SpelledAt(UpperCase(c), r.value)
  {
    Find(UpperCase(c), 0)
  }

  lemma LettersDiffer(j: nat, k: nat)
    requires j < 32 && k < 32 && Letter(j) == Letter(k)
    ensures j == k
  {
  }

  /** A stretch of the alphabet occurs at one position only, and that is where it is found. */
  lemma {:induction false} FoundWhereSpelled(u: string, from: nat, k: nat)
    requires u != [] && from <= k < 32 && SpelledAt(u, k)
    ensures Find(u, from) == Some(k)
    decreases k - from
  {
    if from < k {
      if SpelledAt(u, from) {
        assert Letter(from + 0) == u[0] && Letter(k + 0) == u[0];
        LettersDiffer(from, k);
      }
      FoundWhereSpelled(u, from + 1, k);
    }
  }

  lemma FoundIffSpelled(c: char, k: nat)
    requires k < 32
    ensures IndexOf(c) == Some(k) <==> SpelledAt(UpperCase(c), k)
  {
    if SpelledAt(UpperCase(c), k) { FoundWhereSpelled(UpperCase(c), 0, k); }
  }

  lemma CharactersForLetter(c: char, k: nat)
    requires k < 32
    ensures IndexOf(c) == Some(k) <==>
            || c == Letter(k)
            || (k < 26 && c == ('a' as int + k) as char)
            || (k == 8 && c == '\U{0131}')
            || (k == 18 && c in {'\U{017F}', '\U{FB05}', '\U{FB06}'})
  {
    FoundIffSpelled(c, k);
    hide IndexOf, Find, SpelledAt;
    var u := UpperCase(c);
    if |u| == 1 { SpelledOne(u, k); } else { SpelledLigature(k); }
  }

  /** Exactly which characters stand for the k-th letter of the alphabet. */
  lemma CharactersFor(c: char, k: nat)
    requires k < 32
    ensures IndexOf(c) == Some(k) <==>
            || c == ALPHABET[k]
            || (k < 26 && c == ('a' as int + k) as char)
            || (k == 8 && c == '\U{0131}')
            || (k == 18 && c in {'\U{017F}', '\U{FB05}', '\U{FB06}'})
  {
    LetterIsAlphabet(k);
    hide IndexOf, Letter;
    CharactersForLetter(c, k);
  }

  lemma SpelledOne(u: string, k: nat)
    requires |u| == 1 && k < 32
    ensures SpelledAt(u, k) <==> Letter(k) == u[0]
  {
  }

  lemma SpelledLigature(k: nat)
    requires k < 32
    ensures SpelledAt(['S', 'T'], k) <==> k == 18
  {
    var u: string := ['S', 'T'];
    assert Letter(18) == u[0] && Letter(19) == u[1];
    if SpelledAt(u, k) {
      assert Letter(k + 0) == u[0];
      LettersDiffer(k, 18);
    }
  }

  datatype Error = InvalidCharacter(c: char)

  function Indices(s: string): Result<seq<nat>, Error> {
    if s == [] then Success([])
    else
      var front := Indices(s[..|s| - 1]);
      var last := IndexOf(s[|s| - 1]);
      if front.Failure? then front
      else if last.None? then Failure(InvalidCharacter(s[|s| - 1]))
      else Success(front.value + [last.value])
  }

  function Decoded(s: string): Result<seq<nat>, Error> {
    var indices := Indices(s);
    if indices.Failure? then Failure(indices.error) else Success(Octets(Stream(indices.value, 5)))
  }

  lemma LettersAreUpper(k: nat)
    requires k < 32
    ensures IndexOf(Letter(k)) == Some(k)
  {
    CharactersForLetter(Letter(k), k);
  }

  lemma LettersSnoc(groups: seq<nat>, x: nat)
    requires Below(groups, 32) && x < 32
    ensures Below(groups + [x], 32) && Letters(groups + [x]) == Letters(groups) + [Letter(x)]
  {
    assert (groups + [x])[..|groups|] == groups;
  }

  lemma IndicesSnoc(s: string, c: char)
    ensures Indices(s).Success? && IndexOf(c).Some? ==> Indices(s + [c]) == Success(Indices(s).value + [IndexOf(c).value])
    ensures Indices(s).Success? && IndexOf(c).None? ==> Indices(s + [c]) == Failure(InvalidCharacter(c))
  {
    assert (s + [c])[..|s|] == s;
  }

  lemma OneMoreLetter(front: seq<nat>, last: nat)
    requires Below(front, 32) && last < 32 && Indices(Letters(front)) == Success(front)
    ensures Below(front + [last], 32) && Indices(Letters(front + [last])) == Success(front + [last])
  {
    hide IndexOf, Letter, Letters, Indices;
    LettersAreUpper(last);
    LettersSnoc(front, last);
    IndicesSnoc(Letters(front), Letter(last));
  }

  lemma NoLetters()
    ensures Indices(Letters([])) == Success([])
  {
    assert Letters([]) == "";
  }

  lemma {:induction false} IndicesOfLetters(xs: seq<nat>)
    requires Below(xs, 32)
    ensures Indices(Letters(xs)) == Success(xs)
  {
    hide IndexOf, Letter, Letters, Indices, Below;
    if xs == [] {
      NoLetters();
    } else {
      BelowSplits(xs, 32);
      IndicesOfLetters(xs[..|xs| - 1]);
      OneMoreLetter(xs[..|xs| - 1], xs[|xs| - 1]);
      assert xs[..|xs| - 1] + [xs[|xs| - 1]] == xs;
    }
  }

  /** Octets are the only bytes that carry the stream up to less than an octet. */
  lemma OctetsUnique(octets: seq<nat>, rest: Bits, bits: Bits)
    requires Below(octets, 256) && |rest| < 8 && Stream(octets, 8) + rest == bits
    ensures octets == Octets(bits)
  {
    SmallPowers();
    hide Stream, Octets, BitsOf, Pow2, Below;
    OctetsCount(bits);
    OctetsStream(bits);
    StreamLength(octets, 8);
    assert bits[..8 * |octets|] == Stream(octets, 8);
    StreamInjective(octets, Octets(bits), 8);
  }

  /** Main result: decoding undoes encoding for every byte sequence. */
  lemma RoundTrip(bytes: seq<nat>)
    requires Below(bytes, 256)
    ensures Decoded(Encoded(bytes)) == Success(bytes)
  {
    var bits := Stream(bytes, 8);
    var groups := Groups(bits);
    GroupsCount(bits);
    GroupsStream(bits);
    IndicesOfLetters(groups);
    OctetsUnique(bytes, Zeros(5 * |groups| - |bits|), Stream(groups, 5));
  }

  /** The encoding is injective, and its length is the RFC's: one letter per started 5-bit group. */
  lemma EncodingInjective(a: seq<nat>, b: seq<nat>)
    requires Below(a, 256) && Below(b, 256) && Encoded(a) == Encoded(b)
    ensures a == b
  {
    RoundTrip(a);
    RoundTrip(b);
  }

  lemma ValueSnoc(bs: Bits, b: bool)
    ensures ValueOf(bs + [b]) == 2 * ValueOf(bs) + (if b then 1 else 0)
  {
    assert (bs + [b])[..|bs|] == bs;
  }

  function Bit(b: bool, weight: nat): nat { if b then weight else 0 }

  lemma ValueOfThree(a: bool, b: bool, c: bool)
    ensures ValueOf([a, b, c]) == Bit(a, 4) + Bit(b, 2) + Bit(c, 1)
  {
    assert ValueOf([]) == 0 && [] + [a] == [a] && [a] + [b] == [a, b] && [a, b] + [c] == [a, b, c];
    hide ValueOf;
    ValueSnoc([], a);
    ValueSnoc([a], b);
    ValueSnoc([a, b], c);
  }

  lemma ValueOfFive(a: bool, b: bool, c: bool, d: bool, e: bool)
    ensures ValueOf([a, b, c, d, e]) == 4 * ValueOf([a, b, c]) + Bit(d, 2) + Bit(e, 1)
  {
    hide ValueOf;
    ValueSnoc([a, b, c], d);
    ValueSnoc([a, b, c, d], e);
    assert [a, b, c] + [d] == [a, b, c, d] && [a, b, c, d] + [e] == [a, b, c, d, e];
  }

  lemma GroupsOfEight(a: bool, b: bool, c: bool, d: bool, e: bool, f: bool, g: bool, h: bool)
    ensures Groups([a, b, c, d, e, f, g, h]) == [ValueOf([a, b, c, d, e]), ValueOf([f, g, h, false, false])]
  {
    var bits := [a, b, c, d, e, f, g, h];
    assert bits[..5] == [a, b, c, d, e] && bits[5..] == [f, g, h];
    assert Zeros(0) == [] && Zeros(1) == [false] && Zeros(2) == [false, false];
    assert [f, g, h] + Zeros(2) == [f, g, h, false, false];
    hide ValueOf;
    assert Groups([f, g, h]) == [ValueOf([f, g, h, false, false])];
  }

  lemma BitsSnoc(x: nat, w: nat, b: bool)
    ensures BitsOf(2 * x + Bit(b, 1), w + 1) == BitsOf(x, w) + [b]
  {
  }

  lemma BitsOfF()
    ensures BitsOf(0x66, 8) == [false, true, true, false, false, true, true, false]
  {
    assert BitsOf(0x06, 4) == [false, true, true, false];
    BitsSnoc(0x06, 4, false);
    BitsSnoc(0x0c, 5, true);
    BitsSnoc(0x19, 6, true);
    BitsSnoc(0x33, 7, false);
  }

  /** A test vector of section 10 of RFC 4648, without its padding: "f" is 01100 110(00), letters 12 and 24. */
  lemma TestVector()
    ensures Encoded([0x66]) == ['M', 'Y']
  {
    hide BitsOf, ValueOf, Stream, Groups;
    StreamOne(0x66, 8);
    BitsOfF();
    GroupsOfEight(false, true, true, false, false, true, true, false);
    ValueOfThree(false, true, true);
    ValueOfFive(false, true, true, false, false);
    ValueOfThree(true, true, false);
    ValueOfFive(true, true, false, false, false);
    assert Letters([12, 24]) == [Letter(12), Letter(24)] by { assert [12, 24][..1] == [12]; }
  }

  /** The k-th letter is the alphabet's for the k-th group. */
  lemma EncodedSpellsGroups(bytes: seq<nat>, k: nat)
    requires Below(bytes, 256) && k < |Encoded(bytes)|
    ensures Below(Groups(Stream(bytes, 8)), 32)
    ensures Encoded(bytes)[k] == ALPHABET[Groups(Stream(bytes, 8))[k]]
  {
    var groups := Groups(Stream(bytes, 8));
    GroupsCount(Stream(bytes, 8));
    LettersAt(groups, k);
    LetterIsAlphabet(groups[k]);
  }

  lemma {:induction false} LettersAt(xs: seq<nat>, k: nat)
    requires Below(xs, 32) && k < |xs|
    ensures Letters(xs)[k] == Letter(xs[k])
  {
    if k < |xs| - 1 { LettersAt(xs[..|xs| - 1], k); }
  }

  lemma EncodedLength(bytes: seq<nat>)
    requires Below(bytes, 256)
    ensures |Encoded(bytes)| == (8 * |bytes| + 4) / 5
  {
    StreamLength(bytes, 8);
    GroupsCount(Stream(bytes, 8));
  }

  // ---------------------------------------------------------------- the loops

  /** One turn of the accumulator: the pending bits, then the new ones, whatever wrapped away. */
  lemma ShiftIn(value: nat, bits: nat, x: nat, n: nat)
    requires x < Pow2(n) && bits + n <= 32
    ensures BitsOf(Or(Shl(value, n), x), bits + n) == BitsOf(value, bits) + BitsOf(x, n)
  {
    var m := 32 - n;
    var kept := Low(value, m);
    assert Shl(value, n) == Scaled(kept, n) by { LowOfScaled(value, n, m); }
    var v := Scaled(kept, n) + x;
    assert Or(Shl(value, n), x) == v by { OrIsSum(kept, n, x); }
    assert Ushr(v, n) == kept && Low(v, n) == x by { Join(kept, n, x); }
    assert BitsOf(kept, bits) == BitsOf(value, bits) by { BitsOfLow(value, bits, m); }
    BitsSplit(v, bits, n);
  }

  /** Emitting the n oldest pending bits. */
  lemma TakeTop(value: nat, bits: nat, n: nat)
    requires n <= bits
    ensures BitsOf(value, bits) == BitsOf(And(Ushr(value, bits - n), Pow2(n) - 1), n) + BitsOf(value, bits - n)
    ensures And(Ushr(value, bits - n), Pow2(n) - 1) < Pow2(n)
  {
    var top := Ushr(value, bits - n);
    AndIsLow(top, n);
    BitsOfLow(top, n, n);
    BitsSplit(value, n, bits - n);
    BitsOfLow(value, bits - n, bits - n);
  }

  lemma {:induction false} BitsOfZero(n: nat)
    ensures BitsOf(0, n) == Zeros(n)
  {
    if n > 0 { BitsOfZero(n - 1); }
  }

  /** The last, short group: pending bits, then zeros. */
  lemma PadTop(value: nat, bits: nat, n: nat)
    requires bits <= n <= 32
    ensures BitsOf(And(Shl(value, n - bits), Pow2(n) - 1), n) == BitsOf(value, bits) + Zeros(n - bits)
    ensures And(Shl(value, n - bits), Pow2(n) - 1) < Pow2(n)
  {
    var shifted := Shl(value, n - bits);
    AndIsLow(shifted, n);
    BitsOfLow(shifted, n, n);
    ShiftIn(value, bits, 0, n - bits);
    OrZero(shifted);
    OrCommutes(shifted, 0);
    BitsOfZero(n - bits);
  }

  /** What both loops keep: the values emitted so far, then the pending bits, are the bits read so far. */
  ghost predicate Carries(emitted: seq<nat>, w: nat, value: nat, bits: nat, stream: Bits) {
    Stream(emitted, w) + BitsOf(value, bits) == stream
  }

  lemma Read(emitted: seq<nat>, w: nat, value: nat, bits: nat, xs: seq<nat>, x: nat, n: nat)
    requires Carries(emitted, w, value, bits, Stream(xs, n))
    requires x < Pow2(n) && bits + n <= 32
    ensures Carries(emitted, w, Or(Shl(value, n), x), bits + n, Stream(xs + [x], n))
  {
    var a, b, c := Stream(emitted, w), BitsOf(value, bits), BitsOf(x, n);
    var next := Or(Shl(value, n), x);
    assert BitsOf(next, bits + n) == b + c by { ShiftIn(value, bits, x, n); }
    assert Stream(xs + [x], n) == (a + b) + c by { StreamSnoc(xs, x, n); }
    Regroup(a, b, c);
  }

  lemma Emit(emitted: seq<nat>, w: nat, value: nat, bits: nat, stream: Bits)
    requires Carries(emitted, w, value, bits, stream)
    requires w <= bits
    ensures var next := And(Ushr(value, bits - w), Pow2(w) - 1);
            next < Pow2(w) && Carries(emitted + [next], w, value, bits - w, stream)
  {
    var next := And(Ushr(value, bits - w), Pow2(w) - 1);
    var a, b, c := Stream(emitted, w), BitsOf(next, w), BitsOf(value, bits - w);
    assert next < Pow2(w) && BitsOf(value, bits) == b + c by { TakeTop(value, bits, w); }
    assert Stream(emitted + [next], w) == a + b by { StreamSnoc(emitted, next, w); }
    Regroup(a, b, c);
  }

  /** Groups are the only values below 32 that carry the stream with less than a group of padding. */
  lemma GroupsUnique(groups: seq<nat>, bits: Bits, pad: nat)
    requires Below(groups, 32) && pad < 5 && Stream(groups, 5) == bits + Zeros(pad)
    ensures groups == Groups(bits)
  {
    SmallPowers();
    hide Stream, Groups, Zeros, BitsOf, Pow2, Below;
    GroupsCount(bits);
    GroupsStream(bits);
    StreamLength(groups, 5);
    StreamInjective(groups, Groups(bits), 5);
  }

  lemma Flush(groups: seq<nat>, value: nat, bits: nat, stream: Bits)
    requires Below(groups, 32) && bits < 5 && Carries(groups, 5, value, bits, stream)
    ensures bits == 0 ==> groups == Groups(stream)
    ensures bits > 0 ==> var last := And(Shl(value, 5 - bits), 31);
                         last < 32 && groups + [last] == Groups(stream)
  {
    SmallPowers();
    if bits == 0 {
      assert Stream(groups, 5) == stream + Zeros(0);
      GroupsUnique(groups, stream, 0);
    } else {
      var last := And(Shl(value, 5 - bits), 31);
      var a, b, c := Stream(groups, 5), BitsOf(value, bits), Zeros(5 - bits);
      assert last < 32 && BitsOf(last, 5) == b + c by { PadTop(value, bits, 5); }
      assert Stream(groups + [last], 5) == a + (b + c) by { StreamSnoc(groups, last, 5); }
      Regroup(a, b, c);
      GroupsUnique(groups + [last], stream, 5 - bits);
    }
  }

  /** The encoder's state after some bytes: which groups are out, and what is pending. */
  ghost predicate Encoding(groups: seq<nat>, output: string, value: nat, bits: nat, stream: Bits) {
    Below(groups, 32) && output == Letters(groups) && Carries(groups, 5, value, bits, stream)
  }

  lemma EmitLetter(groups: seq<nat>, output: string, value: nat, bits: nat, stream: Bits)
    requires Encoding(groups, output, value, bits, stream) && bits >= 5
    ensures var letter := And(Ushr(value, bits - 5), 31);
            letter < 32 && Encoding(groups + [letter], output + [Letter(letter)], value, bits - 5, stream)
  {
    SmallPowers();
    Emit(groups, 5, value, bits, stream);
    LettersSnoc(groups, And(Ushr(value, bits - 5), 31));
  }

  lemma FlushLetters(groups: seq<nat>, output: string, value: nat, bits: nat, stream: Bits)
    requires Encoding(groups, output, value, bits, stream) && bits < 5
    ensures Below(Groups(stream), 32)
    ensures bits == 0 ==> output == Letters(Groups(stream))
    ensures bits > 0 ==> var last := And(Shl(value, 5 - bits), 31);
                         last < 32 && output + [Letter(last)] == Letters(Groups(stream))
  {
    GroupsCount(stream);
    Flush(groups, value, bits, stream);
    if bits > 0 { LettersSnoc(groups, And(Shl(value, 5 - bits), 31)); }
  }

  lemma ReadByte(groups: seq<nat>, output: string, value: nat, bits: nat, seen: seq<nat>, b: nat)
    requires Encoding(groups, output, value, bits, Stream(seen, 8)) && bits < 5 && b < 256
    ensures Encoding(groups, output, Or(Shl(value, 8), b), bits + 8, Stream(seen + [b], 8))
  {
    SmallPowers();
    Read(groups, 5, value, bits, seen, b, 8);
  }

  lemma EncodingStarts()
    ensures Encoding([], "", 0, 0, Stream([], 8))
  {
  }

  method Base32Encode(buffer: seq<nat>) returns (output: string)
    requires Below(buffer, 256)
    ensures output == Encoded(buffer)
  {
    EncodingStarts();
    hide Encoding, Stream;
    var bits, value := 0, 0;
    output := "";
    ghost var groups, seen: seq<nat> := [], [];
    for i := 0 to |buffer|
      invariant 0 <= bits < 5 && value >= 0
      invariant |seen| == i && seen <= buffer
      invariant Encoding(groups, output, value, bits, Stream(seen, 8))
    {
      ReadByte(groups, output, value, bits, seen, buffer[i]);
      seen := seen + [buffer[i]];
      value := Or(Shl(value, 8), buffer[i]);
      bits := bits + 8;
      while bits >= 5
        invariant 0 <= bits
        invariant Encoding(groups, output, value, bits, Stream(seen, 8))
      {
        EmitLetter(groups, output, value, bits, Stream(seen, 8));
        var letter := And(Ushr(value, bits - 5), 31);
        output := output + [Letter(letter)];
        groups := groups + [letter];
        bits := bits - 5;
      }
    }
    assert seen == buffer;
    FlushLetters(groups, output, value, bits, Stream(buffer, 8));
    if bits > 0 {
      output := output + [Letter(And(Shl(value, 5 - bits), 31))];
    }
  }

  lemma {:induction false} FirstBadCharacterWins(s: string, read: string)
    requires read <= s && Indices(read).Failure?
    ensures Indices(s) == Indices(read)
    ensures Decoded(s) == Failure(Indices(read).error)
    decreases |s|
  {
    if |read| < |s| {
      FirstBadCharacterWins(s[..|s| - 1], read);
    } else {
      assert read == s;
    }
  }

  /** The decoder's state after some letters. */
  ghost predicate Decoding(octets: seq<nat>, value: nat, bits: nat, read: string, indices: seq<nat>) {
    && Below(octets, 256)
    && Indices(read) == Success(indices)
    && Carries(octets, 8, value, bits, Stream(indices, 5))
  }

  lemma ReadLetter(octets: seq<nat>, value: nat, bits: nat, read: string, indices: seq<nat>, c: char)
    requires Decoding(octets, value, bits, read, indices) && bits < 8
    ensures IndexOf(c).None? ==> Indices(read + [c]) == Failure(InvalidCharacter(c))
    ensures IndexOf(c).Some? ==>
              var index := IndexOf(c).value;
              Decoding(octets, Or(Shl(value, 5), index), bits + 5, read + [c], indices + [index])
  {
    IndicesSnoc(read, c);
    hide Indices, IndexOf;
    if IndexOf(c).Some? {
      SmallPowers();
      Read(octets, 8, value, bits, indices, IndexOf(c).value, 5);
    }
  }

  lemma EmitOctet(octets: seq<nat>, value: nat, bits: nat, read: string, indices: seq<nat>)
    requires Decoding(octets, value, bits, read, indices) && bits >= 8
    ensures Decoding(octets + [And(Ushr(value, bits - 8), 0xff)], value, bits - 8, read, indices)
  {
    hide Indices, Stream;
    SmallPowers();
    Emit(octets, 8, value, bits, Stream(indices, 5));
  }

  lemma DecodingEnds(octets: seq<nat>, value: nat, bits: nat, input: string, indices: seq<nat>)
    requires Decoding(octets, value, bits, input, indices) && bits < 8
    ensures Decoded(input) == Success(octets)
  {
    OctetsUnique(octets, BitsOf(value, bits), Stream(indices, 5));
  }

  lemma DecodingStarts()
    ensures Decoding([], 0, 0, "", [])
  {
  }

  method Base32Decode(input: string) returns (r: Result<seq<nat>, Error>)
    ensures r == Decoded(input)
  {
    DecodingStarts();
    hide Decoding, Stream, Indices;
    var bits, value := 0, 0;
    var output: seq<nat> := [];
    ghost var read, indices: seq<nat> := "", [];
    for i := 0 to |input|
      invariant 0 <= bits < 8 && value >= 0
      invariant |read| == i && read <= input
      invariant Decoding(output, value, bits, read, indices)
    {
      ReadLetter(output, value, bits, read, indices, input[i]);
      read := read + [input[i]];
      var index := IndexOf(input[i]);
      if index.None? {
        FirstBadCharacterWins(input, read);
        return Failure(InvalidCharacter(input[i]));
      }
      value := Or(Shl(value, 5), index.value);
      indices := indices + [index.value];
      bits := bits + 5;
      if bits >= 8 {
        EmitOctet(output, value, bits, read, indices);
        output := output + [And(Ushr(value, bits - 8), 0xff)];
        bits := bits - 8;
      }
    }
    assert read == input;
    DecodingEnds(output, value, bits, input, indices);
    r := Success(output);
  }

  // ---------------------------------------------------------------- HOTP truncation

  /** An unsigned big-endian number. */
  function BigEndian(bytes: seq<nat>): nat {
    if bytes == [] then 0 else 256 * BigEndian(bytes[..|bytes| - 1]) + bytes[|bytes| - 1]
  }

  lemma BigEndianOfFour(b: seq<nat>)
    requires |b| == 4
    ensures BigEndian(b) == 0x100_0000 * b[0] + 0x1_0000 * b[1] + 0x100 * b[2] + b[3]
  {
    assert b[..3][..2] == b[..2] && b[..2][..1] == b[..1] && b[..1][..0] == [];
    assert BigEndian(b[..1]) == b[0] && BigEndian(b[..2]) == 256 * b[0] + b[1];
    assert BigEndian(b[..3]) == 256 * (256 * b[0] + b[1]) + b[2];
  }

  lemma {:induction false} ScaledIsProduct(a: nat, n: nat)
    ensures Scaled(a, n) == a * Pow2(n)
    decreases n
  {
    if n > 0 { ScaledIsProduct(a, n - 1); }
  }

  /** A byte shifted to its place in the word, where nothing is lost. */
  lemma ByteInPlace(a: nat, n: nat, top: nat)
    requires top <= 32 && n <= top && a < Pow2(top - n)
    ensures Shl(a, n) == Scaled(a, n) < Pow2(top)
    decreases n
  {
    LowOfScaled(a, n, 32 - n);
    Wider(a, top - n, 32 - n);
    LowOfSmall(a, 32 - n);
    ScaledBelow(a, n, top - n);
  }

  lemma {:induction false} Wider(a: nat, n: nat, m: nat)
    requires n <= m && a < Pow2(n)
    ensures a < Pow2(m)
    decreases m - n
  {
    if n < m { Wider(a, n, m - 1); }
  }

  lemma {:induction false} ScaledBelow(a: nat, n: nat, m: nat)
    requires a < Pow2(m)
    ensures Scaled(a, n) < Pow2(n + m)
    decreases n
  {
    if n > 0 { ScaledBelow(a, n - 1, m); }
  }

  lemma {:induction false} ScaledSum(a: nat, b: nat, n: nat, m: nat)
    ensures Scaled(a, n + m) + Scaled(b, m) == Scaled(Scaled(a, n) + b, m)
    decreases m
  {
    if m > 0 { ScaledSum(a, b, n, m - 1); }
  }

  lemma OrOfLowBytes(high: nat, c: nat, d: nat)
    requires c < 256 && d < 256 && Scaled(c, 8) < Pow2(16)
    ensures Or(Or(Scaled(high, 16), Scaled(c, 8)), d) == Scaled(high, 16) + Scaled(c, 8) + d
  {
    SmallPowers();
    OrIsSum(high, 16, Scaled(c, 8));
    var all := Scaled(high, 8) + c;
    ScaledSum(high, c, 8, 8);
    OrIsSum(all, 8, d);
  }

  /** Or-ing a word together from its bytes is adding them at their places. */
  lemma OrOfBytes(a: nat, b: nat, c: nat, d: nat)
    requires a < 128 && b < 256 && c < 256 && d < 256
    ensures Or(Or(Or(Shl(a, 24), Shl(b, 16)), Shl(c, 8)), d) == Scaled(a, 24) + Scaled(b, 16) + Scaled(c, 8) + d
  {
    SmallPowers();
    ByteInPlace(a, 24, 31);
    ByteInPlace(b, 16, 24);
    ByteInPlace(c, 8, 16);
    OrIsSum(a, 24, Scaled(b, 16));
    var ab := Scaled(a, 8) + b;
    ScaledSum(a, b, 8, 16);
    OrOfLowBytes(ab, c, d);
  }

  lemma PlacesAdd(a: nat, b: nat, c: nat, d: nat)
    ensures Scaled(a, 24) + Scaled(b, 16) + Scaled(c, 8) + d == BigEndian([a, b, c, d])
  {
    SmallPowers();
    ScaledIsProduct(a, 24);
    ScaledIsProduct(b, 16);
    ScaledIsProduct(c, 8);
    BigEndianOfFour([a, b, c, d]);
  }

  /** Clearing the top bit of the first byte is taking the low 31 bits of the word. */
  lemma TopBitOff(a: nat, b: nat, c: nat, d: nat)
    requires a < 256 && b < 256 && c < 256 && d < 256
    ensures BigEndian([a % 128, b, c, d]) == BigEndian([a, b, c, d]) % 0x8000_0000
  {
    var q, r := a / 128, a % 128;
    BigEndianOfFour([r, b, c, d]);
    BigEndianOfFour([a, b, c, d]);
    Remainder(0x8000_0000, q, 0x100_0000 * r + 0x1_0000 * b + 0x100 * c + d);
  }

  lemma NibbleMask(b: nat)
    ensures And(b, 0x0f) == b % 16
  {
    SmallPowers();
    ScaledIsProduct(b / 16, 4);
    Join(b / 16, 4, b % 16);
    AndIsLow(b, 4);
  }

  lemma SignMask(b: nat)
    ensures And(b, 0x7f) == b % 128
  {
    SmallPowers();
    ScaledIsProduct(b / 128, 7);
    Join(b / 128, 7, b % 128);
    AndIsLow(b, 7);
  }

  lemma ByteMask(b: nat)
    requires b < 256
    ensures And(b, 0xff) == b
  {
    SmallPowers();
    AndIsLow(b, 8);
    LowOfSmall(b, 8);
  }

  /** The word the four masked bytes are or-ed into. */
  lemma WordOfBytes(a: nat, b: nat, c: nat, d: nat)
    requires a < 256 && b < 256 && c < 256 && d < 256
    ensures Or(Or(Or(Shl(And(a, 0x7f), 24), Shl(And(b, 0xff), 16)), Shl(And(c, 0xff), 8)), And(d, 0xff))
         == BigEndian([a, b, c, d]) % 0x8000_0000
  {
    SignMask(a);
    ByteMask(b);
    ByteMask(c);
    ByteMask(d);
    OrOfBytes(a % 128, b, c, d);
    PlacesAdd(a % 128, b, c, d);
    TopBitOff(a, b, c, d);
  }

  /** The six-digit code: the low 31 bits of the four bytes the digest's last nibble selects. */
  method Truncate(digest: seq<nat>) returns (code: nat)
    requires |digest| == 20 && Below(digest, 256)
    ensures var offset := digest[19] % 16;
            code == BigEndian(digest[offset..offset + 4]) % 0x8000_0000 % 1_000_000
  {
    NibbleMask(digest[19]);
    var offset := And(digest[19], 0x0f);
    var a, b, c, d := digest[offset], digest[offset + 1], digest[offset + 2], digest[offset + 3];
    WordOfBytes(a, b, c, d);
    assert digest[offset..offset + 4] == [a, b, c, d];
    code := Or(Or(Or(Shl(And(a, 0x7f), 24), Shl(And(b, 0xff), 16)), Shl(And(c, 0xff), 8)), And(d, 0xff));
    code := code % 1_000_000;
  }
}
