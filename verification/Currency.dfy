/** Amounts of money: native tokens plus any number of extra currencies. */
module Money {
  import opened Util

  /** `Tokens` is a 120-bit amount, one extra currency holds a 248-bit one. */
  const MAX_TOKENS: nat := 0xff_ffff_ffff_ffff_ffff_ffff_ffff_ffff
  const MAX_EXTRA: nat := 0xff_ffff_ffff_ffff_ffff_ffff_ffff_ffff_ffff_ffff_ffff_ffff_ffff_ffff_ffff_ffff

  /** Extra currencies by id; an absent id is an amount of zero. */
  type Extra = map<nat, nat>

  datatype Currency = Currency(tokens: nat, other: Extra) {
    predicate IsZero() {
      tokens == 0 && other == map[]
    }
  }

  const ZERO := Currency(0, map[])

  function Amount(e: Extra, k: nat): nat {
    if k in e then e[k] else 0
  }

  ghost predicate Covers(a: Extra, b: Extra) {
    forall k :: Amount(b, k) <= Amount(a, k)
  }

  function AddTokens(a: nat, b: nat): Option<nat> {
    if a + b <= MAX_TOKENS then Some(a + b) else None
  }

  function SubTokens(a: nat, b: nat): Option<nat> {
    if b <= a then Some(a - b) else None
  }

  /** Pointwise sum. Ids of the right operand whose sum is zero are dropped. */
  function AddExtra(a: Extra, b: Extra): (r: Option<Extra>)
    ensures r.Some? <==> forall k :: k in b ==> Amount(a, k) + b[k] <= MAX_EXTRA
    ensures r.Some? ==> forall k :: Amount(r.value, k) == Amount(a, k) + Amount(b, k)
    ensures a == map[] && b == map[] ==> r == Some(map[])
  {
    if forall k :: k in b ==> Amount(a, k) + b[k] <= MAX_EXTRA then
      Some(map k | k in a.Keys + b.Keys && (k in b ==> Amount(a, k) + b[k] != 0) :: Amount(a, k) + Amount(b, k))
    else
      None
  }

  /** Pointwise difference. Ids of the right operand that reach zero are dropped. */
  function SubExtra(a: Extra, b: Extra): (r: Option<Extra>)
    ensures r.Some? <==> Covers(a, b)
    ensures r.Some? ==> forall k :: Amount(r.value, k) + Amount(b, k) == Amount(a, k)
    ensures a == b ==> r == Some(map[])
    ensures a == map[] && r.Some? ==> r == Some(map[])
  {
    if forall k :: k in b ==> b[k] <= Amount(a, k) then
      assert forall k :: Amount(b, k) <= Amount(a, k);
      var m: Extra := map k | k in a && (k in b ==> b[k] != a[k]) :: a[k] - Amount(b, k);
      Some(m)
    else
      assert exists k :: k in b && b[k] > Amount(a, k) && Amount(b, k) == b[k];
      None
  }

  function AddCurrency(a: Currency, b: Currency): Option<Currency> {
    var tokens := AddTokens(a.tokens, b.tokens);
    var other := AddExtra(a.other, b.other);
    if tokens.Some? && other.Some? then Some(Currency(tokens.value, other.value)) else None
  }

  function SubCurrency(a: Currency, b: Currency): Option<Currency> {
    var tokens := SubTokens(a.tokens, b.tokens);
    var other := SubExtra(a.other, b.other);
    if tokens.Some? && other.Some? then Some(Currency(tokens.value, other.value)) else None
  }

  /** Lowers every amount of `a` to what `b` holds. */
  function ClampExtra(a: Extra, b: Extra): (r: Extra)
    ensures forall k :: Amount(r, k) == Min(Amount(a, k), Amount(b, k))
    ensures b == map[] ==> forall k :: k in r ==> r[k] == 0
  {
    map k | k in a && (k in b || a[k] == 0) :: if k in b then Min(a[k], b[k]) as nat else a[k]
  }

  function Clamp(a: Currency, b: Currency): Currency {
    Currency(Min(a.tokens, b.tokens), ClampExtra(a.other, b.other))
  }

  /** Removes explicit zero entries. */
  function Normalize(e: Extra): (r: Extra)
    ensures forall k :: Amount(r, k) == Amount(e, k)
    ensures (forall k :: Amount(e, k) == 0) ==> r == map[]
    ensures |r| <= |e|
    ensures forall k :: k in r ==> r[k] != 0
  {
    var r := map k | k in e && e[k] != 0 :: e[k];
    assert (forall k :: Amount(e, k) == 0) ==> r == map[] by {
      if forall k :: Amount(e, k) == 0 {
        forall k | k in e ensures e[k] == 0 { assert Amount(e, k) == 0; }
      }
    }
    assert r.Keys <= e.Keys;
    SubsetSize(r.Keys, e.Keys);
    r
  }

  lemma SubsetSize<T>(a: set<T>, b: set<T>)
    requires a <= b
    ensures |a| <= |b|
  {
    assert b == a + (b - a);
  }
}
