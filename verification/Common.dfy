/** Failure types and the token ledger shared by every modelled component. */
module Common {

  datatype Option<+T> = None | Some(value: T)

  datatype Result<+T, +E> = Success(value: T) | Failure(error: E)

  function Max(a: int, b: int): int { if a < b then b else a }

  function Min(a: int, b: int): int { if a < b then a else b }

  const U64_MAX := 0xFFFF_FFFF_FFFF_FFFF
}

/** Half-open intervals, instant by instant. */
module Intervals {
  import opened Common

  /** Instant t lies in [start, end). */
  predicate During(t: int, start: int, end: int) { start <= t < end }

  /** The two intervals share an instant. */
  ghost predicate Meet(s: int, e: int, start: int, end: int) {
    exists t :: During(t, s, e) && During(t, start, end)
  }

  lemma MeetIff(s: int, e: int, start: int, end: int)
    requires s < e && start < end
    ensures Meet(s, e, start, end) <==> s < end && start < e
  {
    if s < end && start < e {
      var t := Max(s, start);
      assert During(t, s, e) && During(t, start, end);
    }
  }

  /** The instants of [first, last), as many as it is long. */
  function Seconds(first: int, last: int): (r: set<int>)
    requires first <= last
    ensures |r| == last - first
    ensures forall t :: t in r <==> first <= t < last
    decreases last - first
  {
    if first == last then {} else Seconds(first, last - 1) + {last - 1}
  }

  lemma SizesAdd(front: set<int>, now: set<int>, both: set<int>)
    requires forall t :: t in both <==> t in front || t in now
    requires forall t :: t in front ==> t !in now
    ensures |both| == |front| + |now|
  {
    var all, common := front + now, front * now;
    assert forall t :: t in all <==> t in both;
    assert forall t :: t !in common;
    assert both == all && |all| == |front| + |now| - |common|;
  }
}

/** Floor division and a little multiplication, with every nonlinear step named. */
module Arithmetic {

  lemma DivIs(a: nat, d: nat, q: nat)
    requires d > 0 && d * q <= a < d * q + d
    ensures a / d == q
  {
    var r := a / d;
    assert d * r <= a < d * r + d by { DivBounds(a, d); }
    if r < q {
      assert d * (r + 1) <= d * q by { MulMono(d, r + 1, q); }
    } else if r > q {
      assert d * (q + 1) <= d * r by { MulMono(d, q + 1, r); }
    }
  }

  lemma DivBounds(a: nat, d: nat)
    requires d > 0
    ensures d * (a / d) <= a < d * (a / d) + d
  {
  }

  lemma MulMono(d: nat, x: nat, y: nat)
    requires x <= y
    ensures d * x <= d * y
  {
  }

  /** A common factor of numerator and divisor cancels exactly. */
  lemma DivCancel(a: nat, d: nat, k: nat)
    requires d > 0 && k > 0
    ensures d * k > 0 && (a * k) / (d * k) == a / d
  {
    var q := a / d;
    DivBounds(a, d);
    MulMono(k, d * q, a);
    MulMono(k, a + 1, d * q + d);
    Associate(k, d, q);
    Distribute(k, d * q, d);
    assert d * k > 0;
    DivIs(a * k, d * k, q);
  }

  /** Multiplication under a name, for proofs that need its laws and not its arithmetic. */
  function Product(a: nat, b: nat): nat { a * b }

  lemma ProductLaws(d: nat, x: nat, y: nat)
    ensures x <= y ==> Product(d, x) <= Product(d, y)
    ensures Product(d, x + y) == Product(d, x) + Product(d, y)
  {
    if x <= y { MulMono(d, x, y); }
    Distribute(d, x, y);
  }

  lemma ProductAssociates(a: nat, b: nat, c: nat)
    ensures Product(a, Product(b, c)) == Product(Product(a, b), c)
  {
    Associate(a, b, c);
  }

  lemma QuotientBounds(a: nat, d: nat)
    requires d > 0
    ensures Product(d, a / d) <= a < Product(d, a / d) + d && Product(d, 1) == d
  {
    DivBounds(a, d);
  }

  lemma QuotientIs(a: nat, d: nat, q: nat)
    requires d > 0 && Product(d, q) <= a < Product(d, q) + d
    ensures a / d == q
  {
    DivIs(a, d, q);
  }

  lemma QuotientTwice(a: nat, b: nat, c: nat)
    requires b > 0 && c > 0 && Product(b, c) > 0
    ensures a / b / c == a / Product(b, c)
  {
    hide Product;
    var x := a / b;
    var y := x / c;
    QuotientBounds(a, b);
    QuotientBounds(x, c);
    var r := Product(c, y);
    ProductLaws(b, r, x);
    ProductLaws(b, x + 1, r + c);
    ProductLaws(b, x, 1);
    ProductLaws(b, r, c);
    ProductAssociates(b, c, y);
    QuotientIs(a, Product(b, c), y);
  }

  /** Dividing twice is dividing once by the product. */
  lemma DivTwice(a: nat, b: nat, c: nat)
    requires b > 0 && c > 0
    ensures b * c > 0 && a / b / c == a / (b * c)
  {
    assert b * c > 0;
    QuotientTwice(a, b, c);
  }

  lemma DivMono(a: nat, b: nat, d: nat)
    requires d > 0 && a <= b
    ensures a / d <= b / d
  {
    DivBounds(a, d);
    DivBounds(b, d);
    if a / d > b / d { MulMono(d, b / d + 1, a / d); }
  }

  /** Floors are superadditive. */
  lemma DivSuperadditive(a: nat, b: nat, d: nat)
    requires d > 0
    ensures a / d + b / d <= (a + b) / d
  {
    var x, y, z := a / d, b / d, (a + b) / d;
    assert d * x <= a by { DivBounds(a, d); }
    assert d * y <= b by { DivBounds(b, d); }
    assert a + b < d * z + d by { DivBounds(a + b, d); }
    Distribute(d, x, y);
    if x + y > z {
      MulMono(d, z + 1, x + y);
      Distribute(d, z, 1);
    }
  }

  lemma Distribute(k: nat, x: nat, y: nat)
    ensures k * (x + y) == k * x + k * y
  {
  }

  lemma Associate(a: nat, b: nat, c: nat)
    ensures a * (b * c) == (a * b) * c == (b * a) * c
  {
  }

  lemma Shuffle(a: nat, b: nat, c: nat)
    ensures (a * b) * c == a * (c * b) == c * a * b
  {
  }

  /** Quotient and remainder are what they are built from. */
  lemma Remainder(d: nat, q: nat, r: nat)
    requires r < d
    ensures (d * q + r) / d == q && (d * q + r) % d == r
  {
    DivIs(d * q + r, d, q);
  }
}

/** A token contract seen from its callers: one balance per (token, holder). */
module TokenLedger {
  import opened Common

  type Address = nat

  datatype Account = Account(token: Address, holder: Address)

  type Balances = map<Account, nat>

  function BalanceOf(b: Balances, token: Address, holder: Address): nat {
    var a := Account(token, holder);
    if a in b then b[a] else 0
  }

  function Credit(b: Balances, token: Address, holder: Address, amount: nat): Balances {
    b[Account(token, holder) := BalanceOf(b, token, holder) + amount]
  }

  /** `None` is the host trap: a negative amount or an uncovered one. */
  function Transfer(b: Balances, token: Address, from: Address, to: Address, amount: int): (r: Option<Balances>)
    ensures r.Some? <==> 0 <= amount <= BalanceOf(b, token, from)
    ensures r.Some? && from != to ==>
              && BalanceOf(r.value, token, from) == BalanceOf(b, token, from) - amount
              && BalanceOf(r.value, token, to) == BalanceOf(b, token, to) + amount
    ensures r.Some? && from == to ==> BalanceOf(r.value, token, to) == BalanceOf(b, token, to)
    ensures r.Some? ==> forall t, h :: (t != token || (h != from && h != to)) ==>
                                         BalanceOf(r.value, t, h) == BalanceOf(b, t, h)
  {
    if amount < 0 || BalanceOf(b, token, from) < amount then None
    else
      var debited := b[Account(token, from) := BalanceOf(b, token, from) - amount];
      Some(Credit(debited, token, to, amount))
  }

  /** The amount goes from one holder to another in one token, and no other balance changes. */
  ghost predicate MovesTokens(before: Balances, after: Balances, token: Address, from: Address, to: Address, amount: int) {
    forall t, h :: BalanceOf(after, t, h) == BalanceOf(before, t, h)
                     + (if t == token && h == to then amount else 0) - (if t == token && h == from then amount else 0)
  }

  lemma TransferMoves(b: Balances, token: Address, from: Address, to: Address, amount: int)
    ensures Transfer(b, token, from, to, amount).Some? <==> 0 <= amount <= BalanceOf(b, token, from)
    ensures Transfer(b, token, from, to, amount).Some? ==>
              MovesTokens(b, Transfer(b, token, from, to, amount).value, token, from, to, amount)
  {
  }
}
