/** Product selection: the filter/map/sort chain of `fetchProductList`, and the affordable
    filter, half-shuffle and try order that `performPurchase` builds from it. */
module Catalog {
  import opened Wrappers
  import opened Text
  import opened JsonValue
  import opened Seqs

  /** NUSD has 18 decimals: a balance of `w` wei is `w / 10^18` NUSD. */
  const WeiPerNusd: nat := 1000000000000000000
  /** At most this many products are tried in one purchase. */
  const MaxTries: nat := 5

  /** A product as the list endpoint returns it; `stockQuantity` is a JSON number. */
  datatype RawProduct = RawProduct(id: Value, name: string, status: Value, stockQuantity: int, originalPrice: Value)

  /** A product as the bot keeps it, with its parsed price. */
  datatype Product = Product(id: Value, name: string, price: int, stock: int)

  /** `parseInt(s)` in base 10: leading white space, an optional sign, then the leading run
      of digits; `None` (NaN) when there is no digit. */
  function ParseInt(s: string): (r: Option<int>)
    ensures r.Some? <==> StartsWithInteger(TrimStart(s))
  {
    ParseSigned(TrimStart(s))
  }

  /** `parseInt` once the leading white space is gone. */
  function ParseSigned(t: string): (r: Option<int>)
    ensures r.Some? <==> StartsWithInteger(t)
  {
    var negative := |t| > 0 && t[0] == '-';
    var body := if |t| > 0 && (t[0] == '-' || t[0] == '+') then t[1..] else t;
    var n := LeadingDigits(body);
    assert n > 0 ==> body[..n][0] == body[0];
    if n == 0 then None
    else
      var magnitude: int := DecimalValue(body[..n]);
      Some(if negative then -magnitude else magnitude)
  }

  /** The text starts with an optional sign followed by a digit. */
  predicate StartsWithInteger(t: string) {
    (|t| > 0 && IsDigit(t[0])) || (|t| > 1 && (t[0] == '-' || t[0] == '+') && IsDigit(t[1]))
  }

  /** Length of the leading run of digits. */
  function LeadingDigits(s: string): (n: nat)
    ensures n <= |s| && AllDigits(s[..n])
    ensures n < |s| ==> !IsDigit(s[n])
    decreases |s|
  {
    if |s| > 0 && IsDigit(s[0]) then
      var m := LeadingDigits(s[1..]);
      assert s[..1 + m] == [s[0]] + s[1..][..m];
      1 + m
    else 0
  }

  lemma {:induction false} TrimStartOfDigits(s: string)
    requires |s| > 0 && IsDigit(s[0])
    ensures TrimStart(s) == s
  {
    assert !IsSpace(s[0]);
  }

  /** Reading back the decimal text of a number gives the number. */
  lemma ParseIntRoundTrip(n: nat)
    ensures ParseInt(NatToString(n)) == Some(n)
  {
    var s := NatToString(n);
    TrimStartOfDigits(s);
    assert LeadingDigits(s) == |s|;
    assert s[..|s|] == s;
    DecimalRoundTrip(n);
  }

  /** White space before text that does not start with white space is what `TrimStart`
      removes. */
  lemma {:induction false} TrimStartSpaces(w: string, t: string)
    requires forall i :: 0 <= i < |w| ==> IsSpace(w[i])
    requires t == [] || !IsSpace(t[0])
    ensures TrimStart(w + t) == t
    decreases |w|
  {
    if w != [] {
      assert (w + t)[1..] == w[1..] + t;
      TrimStartSpaces(w[1..], t);
    } else {
      assert w + t == t;
    }
  }

  /** The leading run of digits ends where the digits `d` end. */
  lemma {:induction false} LeadingDigitsOf(d: string, t: string)
    requires AllDigits(d) && (t == [] || !IsDigit(t[0]))
    ensures LeadingDigits(d + t) == |d|
    decreases |d|
  {
    if d != [] {
      assert (d + t)[1..] == d[1..] + t;
      LeadingDigitsOf(d[1..], t);
    } else {
      assert d + t == t;
    }
  }

  /** A leading zero does not change the number a digit string denotes. */
  lemma {:induction false} LeadingZeroIgnored(d: string)
    requires AllDigits(d)
    ensures AllDigits(['0'] + d) && DecimalValue(['0'] + d) == DecimalValue(d)
    decreases |d|
  {
    var z := ['0'] + d;
    assert AllDigits(z) by {
      forall i | 0 <= i < |z|
        ensures IsDigit(z[i])
      {
        if i > 0 {
          assert z[i] == d[i - 1];
        }
      }
    }
    if d != [] {
      assert z[..|z| - 1] == ['0'] + d[..|d| - 1];
      LeadingZeroIgnored(d[..|d| - 1]);
    }
  }

  function Signed(negative: bool, magnitude: nat): int {
    if negative then 0 - magnitude as int else magnitude
  }

  /** The number `parseInt` reads: leading white space, an optional sign and a run of
      digits; whatever follows the digits is ignored. */
  lemma {:induction false} ParseIntValue(w: string, sign: string, d: string, t: string)
    requires forall i :: 0 <= i < |w| ==> IsSpace(w[i])
    requires sign == "" || sign == "+" || sign == "-"
    requires |d| >= 1 && AllDigits(d) && (t == [] || !IsDigit(t[0]))
    ensures ParseInt(w + sign + d + t) == Some(Signed(sign == "-", DecimalValue(d)))
  {
    assert w + sign + d + t == w + (sign + (d + t));
    if sign == "" {
      assert sign + (d + t) == d + t;
      ParseIntUnsigned(w + sign + d + t, w, d, t);
    } else {
      assert sign == [sign[0]];
      ParseIntSigned(w + sign + d + t, w, sign[0], d, t);
    }
  }

  lemma {:induction false} ParseIntUnsigned(s: string, w: string, d: string, t: string)
    requires forall i :: 0 <= i < |w| ==> IsSpace(w[i])
    requires |d| >= 1 && AllDigits(d) && (t == [] || !IsDigit(t[0]))
    requires s == w + (d + t)
    ensures ParseInt(s) == Some(DecimalValue(d))
  {
    var u := d + t;
    assert u[0] == d[0];
    TrimStartSpaces(w, u);
    SignedDigits(u, d, t);
  }

  lemma {:induction false} SignedDigits(u: string, d: string, t: string)
    requires |d| >= 1 && AllDigits(d) && (t == [] || !IsDigit(t[0]))
    requires u == d + t
    ensures ParseSigned(u) == Some(DecimalValue(d))
  {
    LeadingDigitsOf(d, t);
    assert u[..|d|] == d;
  }

  lemma {:induction false} ParseIntSigned(s: string, w: string, c: char, d: string, t: string)
    requires forall i :: 0 <= i < |w| ==> IsSpace(w[i])
    requires c == '+' || c == '-'
    requires |d| >= 1 && AllDigits(d) && (t == [] || !IsDigit(t[0]))
    requires s == w + ([c] + (d + t))
    ensures ParseInt(s) == Some(Signed(c == '-', DecimalValue(d)))
  {
    var u := [c] + (d + t);
    TrimStartSpaces(w, u);
    SignThenDigits(u, c, d, t);
  }

  lemma {:induction false} SignThenDigits(u: string, c: char, d: string, t: string)
    requires c == '+' || c == '-'
    requires |d| >= 1 && AllDigits(d) && (t == [] || !IsDigit(t[0]))
    requires u == [c] + (d + t)
    ensures ParseSigned(u) == Some(Signed(c == '-', DecimalValue(d)))
  {
    assert u[1..] == d + t;
    LeadingDigitsOf(d, t);
    assert (d + t)[..|d|] == d;
  }

  /** Decimal text followed by anything but a digit reads as its number:
      `parseInt("12abc")` is 12. */
  lemma {:induction false} ParseIntDecimal(n: nat, t: string)
    requires t == [] || !IsDigit(t[0])
    ensures ParseInt(NatToString(n) + t) == Some(n)
  {
    var d := NatToString(n);
    DecimalRoundTrip(n);
    NoSpaceThenAssoc([], d, t);
    ParseIntUnsigned(NatToString(n) + t, [], d, t);
  }

  /** A minus sign negates: `parseInt("-12abc")` is -12. */
  lemma {:induction false} ParseIntNegative(n: nat, t: string)
    requires t == [] || !IsDigit(t[0])
    ensures ParseInt(['-'] + NatToString(n) + t) == Some(Signed(true, n))
  {
    var d := NatToString(n);
    DecimalRoundTrip(n);
    NoSpaceThenAssoc(['-'], d, t);
    ParseIntSigned(['-'] + NatToString(n) + t, [], '-', d, t);
  }

  /** Leading zeros are ignored: `parseInt("012")` is 12. */
  lemma {:induction false} ParseIntLeadingZero(n: nat, t: string)
    requires t == [] || !IsDigit(t[0])
    ensures ParseInt(['0'] + NatToString(n) + t) == Some(n)
  {
    var d := NatToString(n);
    DecimalRoundTrip(n);
    LeadingZeroIgnored(d);
    NoSpaceThenAssoc(['0'], d, t);
    ParseIntUnsigned(['0'] + NatToString(n) + t, [], ['0'] + d, t);
  }

  lemma {:induction false} NoSpaceThenAssoc<T>(a: seq<T>, b: seq<T>, c: seq<T>)
    ensures [] + (a + (b + c)) == a + b + c
    ensures [] + ((a + b) + c) == a + b + c
  {
  }

  /** `parseInt` applied to a JSON field: a number is its own decimal text, a string is
      parsed, an array is parsed from its comma-joined text, anything else reads as NaN. */
  function ParsePrice(v: Value): (r: Option<int>)
    ensures v.Num? ==> r == Some(v.n)
    ensures v.Str? ==> r == ParseInt(v.s)
    ensures v.Array? ==> r == ParseInt(JoinItems(v.items))
    ensures !v.Num? && !v.Str? && !v.Array? ==> r.None?
  {
    match v
    case Num(n) => Some(n)
    case Str(s) => ParseInt(s)
    case Array(items) => ParseInt(JoinItems(items))
    case _ => None
  }

  /** Every price is `parseInt` of the field's text, `String(v)`, whatever its type. */
  lemma PriceIsParseOfText(v: Value)
    ensures ParsePrice(v) == ParseInt(ToText(v))
  {
    match v
    case Num(n) => IntTextReadsBack(n);
    case Str(_) =>
    case Array(_) =>
    case _ => WordsAreNaN();
  }

  /** The decimal text of a whole number, signed or not, reads back as the number. */
  lemma IntTextReadsBack(n: int)
    ensures ParseInt(IntText(n)) == Some(n)
  {
    if n < 0 {
      NegativeTextReadsBack(n);
    } else {
      NonNegativeTextReadsBack(n);
    }
  }

  lemma {:induction false} NegativeTextReadsBack(n: int)
    requires n < 0
    ensures ParseInt(IntText(n)) == Some(n)
  {
    calc {
      ParseInt(IntText(n));
      { assert IntText(n) == ['-'] + NatToString(-n); }
      ParseInt(['-'] + NatToString(-n));
      { MinusDigits(NatToString(-n)); }
      Some(Signed(true, DecimalValue(NatToString(-n))));
      { DecimalRoundTrip(-n); }
      Some(Signed(true, -n));
    }
  }

  /** A minus sign followed by digits reads as the negated number. */
  lemma {:induction false} MinusDigits(d: string)
    requires |d| >= 1 && AllDigits(d)
    ensures ParseInt(['-'] + d) == Some(Signed(true, DecimalValue(d)))
  {
    assert ['-'] + d == [] + (['-'] + (d + []));
    ParseIntSigned(['-'] + d, [], '-', d, []);
  }

  lemma NonNegativeTextReadsBack(n: int)
    requires n >= 0
    ensures ParseInt(IntText(n)) == Some(n)
  {
    calc {
      ParseInt(IntText(n));
      { assert IntText(n) == NatToString(n); }
      ParseInt(NatToString(n));
      { ParseIntRoundTrip(n); }
      Some(n);
    }
  }

  /** The texts of `undefined`, `null`, the booleans and a plain object are NaN. */
  lemma WordsAreNaN()
    ensures ParseInt("undefined") == None && ParseInt("null") == None
    ensures ParseInt("true") == None && ParseInt("false") == None
    ensures ParseInt("[object Object]") == None
  {
    NoIntegerAtLetter("undefined");
    NoIntegerAtLetter("null");
    NoIntegerAtLetter("true");
    NoIntegerAtLetter("false");
    NoIntegerAtLetter("[object Object]");
  }

  /** Text that starts with a character other than white space, a sign or a digit is NaN. */
  lemma {:induction false} NoIntegerAtLetter(s: string)
    requires |s| > 0 && !IsSpace(s[0]) && !IsDigit(s[0]) && s[0] != '-' && s[0] != '+'
    ensures ParseInt(s) == None
  {
    assert TrimStart(s) == s;
  }

  /** An array whose first item is a number reads as that number, as `parseInt([12])` is 12
      and `parseInt([12, 5])` reads `"12,5"` as 12. */
  lemma {:induction false} ArrayPriceIsFirstNumber(n: nat, rest: seq<Value>)
    ensures ParsePrice(Array([Num(n)] + rest)) == Some(n)
  {
    var t := if rest == [] then [] else "," + JoinItems(rest);
    ArrayText(n, rest);
    ParseIntDecimal(n, t);
  }

  lemma {:induction false} ArrayText(n: nat, rest: seq<Value>)
    ensures JoinItems([Num(n)] + rest) == NatToString(n) + (if rest == [] then [] else "," + JoinItems(rest))
  {
    var items := [Num(n)] + rest;
    assert items[0] == Num(n) && items[1..] == rest;
    assert ItemText(Num(n)) == NatToString(n);
  }

  /** `parseInt(p.originalPrice) || 0` */
  function PriceOf(v: Value): (price: int)
    ensures price > 0 <==> ParsePrice(v).Some? && ParsePrice(v).value > 0
    ensures price != 0 ==> ParsePrice(v) == Some(price)
  {
    match ParsePrice(v)
    case None => 0
    case Some(n) => n
  }

  /** A price sent as a JSON number or as its decimal text is the same price. */
  lemma PriceSpellingsAgree(n: nat)
    ensures PriceOf(Num(n)) == n && PriceOf(Str(NatToString(n))) == n
  {
    ParseIntRoundTrip(n);
  }

  /** `p.status === 2 && p.stockQuantity > 0` */
  predicate Listed(p: RawProduct) {
    p.status == Num(2) && p.stockQuantity > 0
  }

  function ToProduct(p: RawProduct): Product {
    Product(p.id, p.name, PriceOf(p.originalPrice), p.stockQuantity)
  }

  predicate PricePositive(p: Product) {
    p.price > 0
  }

  /** Every product the list keeps: listed, in stock, and with a positive parsed price. */
  predicate Qualifies(p: RawProduct) {
    Listed(p) && PriceOf(p.originalPrice) > 0
  }

  function MapToProduct(s: seq<RawProduct>): (r: seq<Product>)
    ensures |r| == |s| && forall i :: 0 <= i < |s| ==> r[i] == ToProduct(s[i])
  {
    seq(|s|, i requires 0 <= i < |s| => ToProduct(s[i]))
  }

  predicate PriceSorted(s: seq<Product>) {
    forall i, j :: 0 <= i < j < |s| ==> s[i].price <= s[j].price
  }

  /** Inserts `x` before the first element that is not cheaper, so that earlier equal
      elements stay first: the comparator `a.price - b.price` under a stable sort. */
  function Insert(x: Product, s: seq<Product>): (r: seq<Product>)
    requires PriceSorted(s)
    ensures PriceSorted(r) && multiset(r) == multiset(s) + multiset{x}
    decreases |s|
  {
    if s == [] || x.price <= s[0].price then
      [x] + s
    else
      var rest := Insert(x, s[1..]);
      assert s == [s[0]] + s[1..];
      HeadBelowInsert(s[0], s[1..], x, rest);
      ConsSorted(s[0], rest);
      [s[0]] + rest
  }

  /** A head no dearer than the sorted tail and than `x` is no dearer than any element of
      the tail with `x` inserted. */
  lemma {:induction false} HeadBelowInsert(h: Product, tail: seq<Product>, x: Product, rest: seq<Product>)
    requires forall k :: 0 <= k < |tail| ==> h.price <= tail[k].price
    requires h.price <= x.price
    requires multiset(rest) == multiset(tail) + multiset{x}
    ensures forall k :: 0 <= k < |rest| ==> h.price <= rest[k].price
  {
    forall k | 0 <= k < |rest|
      ensures h.price <= rest[k].price
    {
      assert rest[k] in multiset(rest);
      if rest[k] != x {
        assert rest[k] in multiset(tail);
        var j :| 0 <= j < |tail| && tail[j] == rest[k];
      }
    }
  }

  lemma {:induction false} ConsSorted(h: Product, rest: seq<Product>)
    requires PriceSorted(rest)
    requires forall k :: 0 <= k < |rest| ==> h.price <= rest[k].price
    ensures PriceSorted([h] + rest)
  {
    var s := [h] + rest;
    forall i, j | 0 <= i < j < |s|
      ensures s[i].price <= s[j].price
    {
      if i == 0 {
        assert s[j] == rest[j - 1];
      } else {
        assert s[i] == rest[i - 1] && s[j] == rest[j - 1];
      }
    }
  }

  /** `products.sort((a, b) => a.price - b.price)` */
  function SortByPrice(s: seq<Product>): (r: seq<Product>)
    ensures PriceSorted(r) && multiset(r) == multiset(s) && |r| == |s|
    decreases |s|
  {
    if s == [] then []
    else
      assert s == [s[0]] + s[1..];
      Insert(s[0], SortByPrice(s[1..]))
  }

  /** The product list endpoint's answer: `content` is `None` when `data` or
      `data.content` is missing; `message` is "" when absent. */
  datatype ListAnswer = ListAnswered(code: Value, message: string, content: Option<seq<RawProduct>>)
                      | ListThrew(error: string)

  /** `fetchProductList` */
  function FetchProductList(answer: ListAnswer): (r: Result<seq<Product>>)
    ensures r.Ok? ==> PriceSorted(r.value) && forall i :: 0 <= i < |r.value| ==> r.value[i].price > 0
    ensures r.Ok? <==> answer.ListAnswered? && answer.code == Num(200) && answer.content.Some?
    ensures r.Ok? ==> r.value == ProductsOf(answer.content.value)
    ensures answer.ListThrew? ==> r == Err(answer.error)
  {
    match answer
    case ListThrew(e) => Err(e)
    case ListAnswered(code, message, content) =>
      if code != Num(200) || content.None? then
        Err(if message != "" then message else "Failed to fetch products")
      else
        Ok(ProductsOf(content.value))
  }

  /** The filter, map, filter and sort chain on the listed content. */
  function ProductsOf(raws: seq<RawProduct>): (r: seq<Product>)
    ensures PriceSorted(r) && forall i :: 0 <= i < |r| ==> r[i].price > 0
  {
    var priced := Filter(MapToProduct(Filter(raws, Listed)), PricePositive);
    var sorted := SortByPrice(priced);
    SameElementsPriced(priced, sorted);
    sorted
  }

  /** A reordering of positively priced products is positively priced. */
  lemma {:induction false} SameElementsPriced(priced: seq<Product>, sorted: seq<Product>)
    requires forall i :: 0 <= i < |priced| ==> priced[i].price > 0
    requires multiset(sorted) == multiset(priced)
    ensures forall i :: 0 <= i < |sorted| ==> sorted[i].price > 0
  {
    forall i | 0 <= i < |sorted|
      ensures sorted[i].price > 0
    {
      assert sorted[i] in multiset(priced);
      var j :| 0 <= j < |priced| && priced[j] == sorted[i];
    }
  }

  /** A product built from a listed raw product survives the price filter exactly when
      the raw product qualifies. */
  lemma {:induction false} MappedMembers(raws: seq<RawProduct>, x: Product)
    ensures x in MapToProduct(Filter(raws, Listed)) <==> exists r :: r in raws && Listed(r) && ToProduct(r) == x
  {
    var kept := Filter(raws, Listed);
    var mapped := MapToProduct(kept);
    if x in mapped {
      var i :| 0 <= i < |mapped| && mapped[i] == x;
      FilterMembers(raws, Listed, kept[i]);
    }
    if r :| r in raws && Listed(r) && ToProduct(r) == x {
      FilterMembers(raws, Listed, r);
      var i :| 0 <= i < |kept| && kept[i] == r;
      assert mapped[i] == x;
    }
  }

  /** The list keeps exactly the qualifying products: each product in it is the image of
      a qualifying raw product, and every qualifying raw product appears in it. */
  lemma {:induction false} ListedExactly(raws: seq<RawProduct>, x: Product)
    ensures x in ProductsOf(raws) <==> exists r :: r in raws && Qualifies(r) && ToProduct(r) == x
  {
    var mapped := MapToProduct(Filter(raws, Listed));
    var priced := Filter(mapped, PricePositive);
    assert x in SortByPrice(priced) <==> x in priced by {
      assert x in SortByPrice(priced) <==> x in multiset(SortByPrice(priced));
    }
    FilterMembers(mapped, PricePositive, x);
    MappedMembers(raws, x);
  }

  /** Sorting puts the cheapest product first. */
  lemma {:induction false} SortedHeadIsCheapest(s: seq<Product>, i: nat)
    requires PriceSorted(s) && 0 < i < |s|
    ensures s[0].price <= s[i].price
  {
  }

  /** `p.price <= balanceNusd`, with the balance held exactly in wei. */
  predicate Affordable(p: Product, balanceWei: nat) {
    p.price * WeiPerNusd <= balanceWei
  }

  function AffordableProducts(products: seq<Product>, balanceWei: nat): (r: seq<Product>)
    ensures forall i :: 0 <= i < |r| ==> Affordable(r[i], balanceWei) && r[i] in products
    ensures forall x :: x in r <==> x in products && Affordable(x, balanceWei)
  {
    var r := Filter(products, p => Affordable(p, balanceWei));
    forall x
      ensures x in r <==> x in products && Affordable(x, balanceWei)
    {
      FilterMembers(products, p => Affordable(p, balanceWei), x);
    }
    r
  }

  /** A filter keeps a sorted list sorted. */
  lemma {:induction false} FilterKeepsSorted(s: seq<Product>, p: Product -> bool)
    requires PriceSorted(s)
    ensures PriceSorted(Filter(s, p))
    decreases |s|
  {
    if s != [] {
      FilterKeepsSorted(s[1..], p);
      var rest := Filter(s[1..], p);
      forall k | 0 <= k < |rest|
        ensures s[0].price <= rest[k].price
      {
        assert rest[k] in s[1..];
      }
    }
  }

  /** When nothing is affordable, the first (cheapest) product costs more than the balance. */
  lemma {:induction false} NothingAffordable(products: seq<Product>, balanceWei: nat)
    requires PriceSorted(products) && |products| > 0
    requires AffordableProducts(products, balanceWei) == []
    ensures !Affordable(products[0], balanceWei)
  {
    FilterMembers(products, p => Affordable(p, balanceWei), products[0]);
  }

  /** `Math.max(1, Math.ceil(n * 0.5))` */
  function HalfIndex(n: nat): (h: nat)
    ensures h >= 1
    ensures n >= 1 ==> h <= n && n <= 2 * h <= n + 1
  {
    if (n + 1) / 2 < 1 then 1 else (n + 1) / 2
  }

  /** `shuffleArray` on the copy it makes: Fisher-Yates from the last index down, `pick(i)`
      standing for the random choice `Math.floor(Math.random() * (i + 1))`. */
  method Shuffle(a: array<Product>, pick: nat -> nat)
    modifies a
    ensures multiset(a[..]) == multiset(old(a[..]))
  {
    var i := a.Length - 1;
    while i > 0
      invariant -1 <= i < a.Length
      invariant multiset(a[..]) == multiset(old(a[..]))
      decreases i
    {
      var j := pick(i) % (i + 1);
      a[i], a[j] := a[j], a[i];
      i := i - 1;
    }
  }

  /** The try order: the cheaper half (at least one) shuffled, the rest after it in price
      order, cut to the first five. */
  method BuildTryOrder(affordable: seq<Product>, pick: nat -> nat) returns (full: seq<Product>, tryOrder: seq<Product>)
    ensures var k := if HalfIndex(|affordable|) <= |affordable| then HalfIndex(|affordable|) else |affordable|;
      |full| == |affordable| && multiset(full[..k]) == multiset(affordable[..k]) && full[k..] == affordable[k..]
    ensures tryOrder == full[..if |full| < MaxTries then |full| else MaxTries]
    ensures forall i :: 0 <= i < |tryOrder| ==> tryOrder[i] in affordable
  {
    var n := |affordable|;
    var k := if HalfIndex(n) <= n then HalfIndex(n) else n;
    var head := affordable[..k];
    var copy := new Product[k](i requires 0 <= i < k => head[i]);
    assert copy[..] == head;
    Shuffle(copy, pick);
    full := copy[..] + affordable[k..];
    assert full[..k] == copy[..] && full[k..] == affordable[k..];
    tryOrder := full[..if |full| < MaxTries then |full| else MaxTries];
    forall i | 0 <= i < |tryOrder|
      ensures tryOrder[i] in affordable
    {
      if i < k {
        assert tryOrder[i] in multiset(copy[..]);
        assert tryOrder[i] in head;
      } else {
        assert tryOrder[i] == affordable[i];
      }
    }
  }
}
