/** `cheapestProducts`: one pass that keeps, per identity key, the cheapest listing and some image. */
module CheapestProducts {
  import opened Basics

  datatype Offer = Offer(amount: Option<real>, currency: Option<string>)

  /** A search result. `identity` is its `productIdentityKey`, which reads neither prices nor images. */
  datatype Listing = Listing(
    identity: string,
    id: string,
    cheapestPriceSar: Option<real>,
    otherOffers: seq<Offer>,
    processedImage: Option<string>,
    image: Option<string>)

  // ---------- bestSarPrice ----------

  predicate InSar(o: Offer) {
    o.amount.Some? && o.amount.value > 0.0 && o.currency == Some("SAR")
  }

  function Offers(l: Listing): seq<Offer> {
    var truthy := l.cheapestPriceSar.Some? && l.cheapestPriceSar.value != 0.0;
    [Offer(l.cheapestPriceSar, if truthy then Some("SAR") else None)] + l.otherOffers
  }

  /** The smallest positive SAR amount, None when there is none. */
  function Cheapest(os: seq<Offer>): (r: Option<real>)
    ensures r.None? <==> forall i :: 0 <= i < |os| ==> !InSar(os[i])
    ensures r.Some? ==> forall i :: 0 <= i < |os| && InSar(os[i]) ==> r.value <= os[i].amount.value
    ensures r.Some? ==> exists i :: 0 <= i < |os| && InSar(os[i]) && os[i].amount == r
  {
    if os == [] then None
    else
      var n := |os| - 1;
      var rest := Cheapest(os[..n]);
      if InSar(os[n]) && (rest.None? || os[n].amount.value < rest.value) then os[n].amount else rest
  }

  function BestSarPrice(l: Listing): Option<real> {
    Cheapest(Offers(l))
  }

  /** The listing asks this positive price in SAR; its own cheapest price needs no currency. */
  ghost predicate Asks(l: Listing, x: real) {
    x > 0.0 && (l.cheapestPriceSar == Some(x) || Offer(Some(x), Some("SAR")) in l.otherOffers)
  }

  /** The least price asked, if any is. */
  lemma BestSarPriceMeans(l: Listing)
    ensures BestSarPrice(l) == None <==> forall x: real :: !Asks(l, x)
    ensures BestSarPrice(l).Some? ==>
              Asks(l, BestSarPrice(l).value) && forall x: real :: Asks(l, x) ==> BestSarPrice(l).value <= x
  {
    var os := Offers(l);
    forall x: real ensures Asks(l, x) <==> exists i :: 0 <= i < |os| && InSar(os[i]) && os[i].amount == Some(x) {
      AskedIsOffered(l, x);
    }
    forall i | 0 <= i < |os| && InSar(os[i]) ensures Asks(l, os[i].amount.value) {
      assert os[i].amount == Some(os[i].amount.value);
    }
  }

  lemma AskedIsOffered(l: Listing, x: real)
    ensures Asks(l, x) <==> exists i :: 0 <= i < |Offers(l)| && InSar(Offers(l)[i]) && Offers(l)[i].amount == Some(x)
  {
    var os := Offers(l);
    assert os[1..] == l.otherOffers;
    if Asks(l, x) {
      if l.cheapestPriceSar == Some(x) {
        assert InSar(os[0]) && os[0].amount == Some(x);
      } else {
        var j :| 0 <= j < |l.otherOffers| && l.otherOffers[j] == Offer(Some(x), Some("SAR"));
        assert os[j + 1] == l.otherOffers[j] && InSar(os[j + 1]);
      }
    }
    if i :| 0 <= i < |os| && InSar(os[i]) && os[i].amount == Some(x) {
      assert os[i] == Offer(Some(x), Some("SAR"));
      assert i > 0 ==> os[i] == l.otherOffers[i - 1];
    }
  }

  /** `productSort(a, b, "cheapest") < 0`, where a missing price is infinite and infinity minus itself is NaN. */
  predicate Cheaper(a: Listing, b: Listing) {
    var p, q := BestSarPrice(a), BestSarPrice(b);
    p.Some? && (q.None? || p.value < q.value)
  }

  // ---------- the merge of two listings with one key ----------

  predicate Truthy(s: Option<string>) {
    s.Some? && s.value != ""
  }

  predicate HasImage(l: Listing) {
    Truthy(l.processedImage) || Truthy(l.image)
  }

  /** `a ?? b` */
  function Coalesce(a: Option<string>, b: Option<string>): Option<string> {
    if a.Some? then a else b
  }

  function Merge(current: Listing, product: Listing): Listing {
    var swap := Cheaper(product, current);
    var cheapest := if swap then product else current;
    var carrier := if HasImage(cheapest) then cheapest else if HasImage(product) then product else current;
    if swap || (!HasImage(current) && HasImage(carrier)) then
      cheapest.(processedImage := Coalesce(cheapest.processedImage, carrier.processedImage),
                image := Coalesce(cheapest.image, carrier.image))
    else current
  }

  /** The insertion-ordered map the loop builds. */
  datatype Groups = Groups(keys: seq<string>, entries: map<string, Listing>)

  function Insert(g: Groups, l: Listing): Groups {
    if l.identity in g.entries then
      g.(entries := g.entries[l.identity := Merge(g.entries[l.identity], l)])
    else Groups(g.keys + [l.identity], g.entries[l.identity := l])
  }

  function InsertAll(g: Groups, xs: seq<Listing>): Groups {
    if xs == [] then g else Insert(InsertAll(g, xs[..|xs| - 1]), xs[|xs| - 1])
  }

  ghost predicate WellFormed(g: Groups) {
    && (forall k :: k in g.keys <==> k in g.entries)
    && (forall i, j :: 0 <= i < j < |g.keys| ==> g.keys[i] != g.keys[j])
    && (forall k :: k in g.entries ==> g.entries[k].identity == k)
  }

  lemma {:induction false} InsertAllWellFormed(g: Groups, xs: seq<Listing>)
    requires WellFormed(g)
    ensures WellFormed(InsertAll(g, xs))
    ensures g.keys <= InsertAll(g, xs).keys
  {
    if xs != [] { InsertAllWellFormed(g, xs[..|xs| - 1]); }
  }

  const EMPTY := Groups([], map[])

  function Values(g: Groups): seq<Listing>
    requires forall k :: k in g.keys ==> k in g.entries
  {
    seq(|g.keys|, i requires 0 <= i < |g.keys| => g.entries[g.keys[i]])
  }

  function CheapestOf(xs: seq<Listing>): seq<Listing> {
    InsertAllWellFormed(EMPTY, xs);
    Values(InsertAll(EMPTY, xs))
  }

  method CheapestListings(products: seq<Listing>) returns (result: seq<Listing>)
    ensures result == CheapestOf(products)
  {
    var keys: seq<string> := [];
    var grouped: map<string, Listing> := map[];
    assert products[..0] == [];
    for n := 0 to |products|
      invariant Groups(keys, grouped) == InsertAll(EMPTY, products[..n])
    {
      var product := products[n];
      var key := product.identity;
      assert products[..n + 1][..n] == products[..n];
      if key !in grouped {
        keys, grouped := keys + [key], grouped[key := product];
      } else {
        var current := grouped[key];
        var cheapest := if Cheaper(product, current) then product else current;
        var carrier := if HasImage(cheapest) then cheapest else if HasImage(product) then product else current;
        if Cheaper(product, current) || (!HasImage(current) && HasImage(carrier)) {
          grouped := grouped[key :=
            cheapest.(processedImage := Coalesce(cheapest.processedImage, carrier.processedImage),
                      image := Coalesce(cheapest.image, carrier.image))];
        }
        assert grouped == InsertAll(EMPTY, products[..n + 1]).entries;
      }
    }
    assert products[..|products|] == products;
    InsertAllWellFormed(EMPTY, products);
    result := seq(|keys|, i requires 0 <= i < |keys| => grouped[keys[i]]);
  }

  // ---------- the group-by specification ----------

  ghost function Group(xs: seq<Listing>, k: string): seq<Listing> {
    if xs == [] then []
    else Group(xs[..|xs| - 1], k) + if xs[|xs| - 1].identity == k then [xs[|xs| - 1]] else []
  }

  ghost function FirstSeenKeys(xs: seq<Listing>): seq<string> {
    if xs == [] then []
    else
      var ks := FirstSeenKeys(xs[..|xs| - 1]);
      if xs[|xs| - 1].identity in ks then ks else ks + [xs[|xs| - 1].identity]
  }

  ghost function MergeAll(g: seq<Listing>): Listing
    requires g != []
  {
    if |g| == 1 then g[0] else Merge(MergeAll(g[..|g| - 1]), g[|g| - 1])
  }

  lemma {:induction false} KeysInFirstSeenOrder(xs: seq<Listing>)
    ensures InsertAll(EMPTY, xs).keys == FirstSeenKeys(xs)
  {
    if xs != [] {
      KeysInFirstSeenOrder(xs[..|xs| - 1]);
      InsertAllWellFormed(EMPTY, xs[..|xs| - 1]);
    }
  }

  lemma {:induction false} EntriesAreMerges(xs: seq<Listing>, k: string)
    ensures k in InsertAll(EMPTY, xs).entries <==> Group(xs, k) != []
    ensures Group(xs, k) != [] ==> InsertAll(EMPTY, xs).entries[k] == MergeAll(Group(xs, k))
  {
    if xs != [] {
      var n := |xs| - 1;
      EntriesAreMerges(xs[..n], k);
      var before, g := InsertAll(EMPTY, xs[..n]), Group(xs[..n], k);
      assert InsertAll(EMPTY, xs) == Insert(before, xs[n]);
      if xs[n].identity == k {
        assert Group(xs, k) == g + [xs[n]];
        MergeAllSnoc(g, xs[n]);
      } else {
        assert Group(xs, k) == g;
      }
    }
  }

  lemma MergeAllSnoc(g: seq<Listing>, l: Listing)
    ensures MergeAll(g + [l]) == if g == [] then l else Merge(MergeAll(g), l)
  {
    assert (g + [l])[..|g|] == g;
  }

  /** `m` is the leftmost cheapest member: nothing is cheaper, and everything before it is dearer. */
  ghost predicate IsLeftmostCheapest(g: seq<Listing>, m: nat) {
    && m < |g|
    && (forall j :: 0 <= j < |g| ==> !Cheaper(g[j], g[m]))
    && (forall j :: 0 <= j < m ==> Cheaper(g[m], g[j]))
  }

  ghost predicate SameButImages(a: Listing, b: Listing) {
    a == b.(processedImage := a.processedImage, image := a.image)
  }

  /** Some image URL that is not blank. */
  ghost predicate Shows(l: Listing) {
    exists url :: url != "" && (l.processedImage == Some(url) || l.image == Some(url))
  }

  lemma ShowsMeans(l: Listing)
    ensures Shows(l) <==> HasImage(l)
  {
    if HasImage(l) {
      var url := if Truthy(l.processedImage) then l.processedImage.value else l.image.value;
      assert url != "" && (l.processedImage == Some(url) || l.image == Some(url));
    }
  }

  ghost predicate SameImages(a: Listing, b: Listing) {
    a.processedImage == b.processedImage && a.image == b.image
  }

  /** A listing without an image has no image field set at all, rather than an empty string. */
  ghost predicate Clean(l: Listing) {
    HasImage(l) || (l.processedImage.None? && l.image.None?)
  }

  lemma PriceIgnoresImages(a: Listing, b: Listing)
    requires SameButImages(a, b)
    ensures BestSarPrice(a) == BestSarPrice(b) && a.identity == b.identity
  {
  }

  /** The entry `e` of the group `g` carries an image if some member has one: the cheapest member's
      own, or else exactly some other member's. */
  ghost predicate CarriesImage(g: seq<Listing>, m: nat, e: Listing)
    requires m < |g|
  {
    && Clean(e)
    && (HasImage(e) <==> exists j :: 0 <= j < |g| && HasImage(g[j]))
    && (exists j :: 0 <= j < |g| && SameImages(e, g[j]))
    && (HasImage(g[m]) ==> SameImages(e, g[m]))
  }

  ghost predicate AllClean(g: seq<Listing>) {
    forall j :: 0 <= j < |g| ==> Clean(g[j])
  }

  lemma CheapestStep(front: seq<Listing>, l: Listing, m: nat, e: Listing) returns (m': nat)
    requires IsLeftmostCheapest(front, m) && SameButImages(e, front[m])
    ensures m' == if Cheaper(l, e) then |front| else m
    ensures IsLeftmostCheapest(front + [l], m')
    ensures SameButImages(Merge(e, l), (front + [l])[m'])
  {
    PriceIgnoresImages(e, front[m]);
    m' := if Cheaper(l, e) then |front| else m;
  }

  lemma ImageStep(front: seq<Listing>, l: Listing, m: nat, e: Listing)
    requires m < |front| && SameButImages(e, front[m]) && CarriesImage(front, m, e) && Clean(l)
    ensures CarriesImage(front + [l], if Cheaper(l, e) then |front| else m, Merge(e, l))
  {
    var g, r := front + [l], Merge(e, l);
    MergeKeepsImages(e, l);
    var j :| 0 <= j < |front| && SameImages(e, front[j]);
    assert g[j] == front[j] && g[|front|] == l && g[m] == front[m];
    if HasImage(e) {
      var i :| 0 <= i < |front| && HasImage(front[i]);
      assert HasImage(g[i]);
    }
    if i :| 0 <= i < |g| && HasImage(g[i]) {
      assert i < |front| ==> HasImage(front[i]);
    }
  }

  /** `e` is what the group `g` comes down to. */
  ghost predicate Represents(g: seq<Listing>, m: nat, e: Listing) {
    && IsLeftmostCheapest(g, m)
    && SameButImages(e, g[m])
    && (AllClean(g) ==> CarriesImage(g, m, e))
  }

  lemma MergeRepresents(front: seq<Listing>, l: Listing, m: nat, e: Listing) returns (m': nat)
    requires Represents(front, m, e)
    ensures Represents(front + [l], m', Merge(e, l))
  {
    m' := CheapestStep(front, l, m, e);
    if AllClean(front + [l]) {
      assert (front + [l])[..|front|] == front;
      forall j | 0 <= j < |front| ensures Clean(front[j]) {
        assert (front + [l])[j] == front[j];
      }
      assert (front + [l])[|front|] == l;
      ImageStep(front, l, m, e);
    }
  }

  lemma OneRepresentsItself(g: seq<Listing>)
    requires |g| == 1
    ensures Represents(g, 0, g[0])
  {
    assert SameImages(g[0], g[0]);
  }

  lemma {:induction false} MergeAllIsCheapest(g: seq<Listing>) returns (m: nat)
    requires g != []
    ensures Represents(g, m, MergeAll(g))
  {
    var n := |g| - 1;
    if n == 0 {
      m := 0;
      OneRepresentsItself(g);
    } else {
      m := MergeAllIsCheapest(g[..n]);
      m := MergeRepresents(g[..n], g[n], m, MergeAll(g[..n]));
      assert g[..n] + [g[n]] == g;
      MergeAllSnoc(g[..n], g[n]);
    }
  }

  lemma MergeKeepsImages(current: Listing, product: Listing)
    requires Clean(current) && Clean(product)
    ensures var r := Merge(current, product);
            && Clean(r)
            && (HasImage(r) <==> HasImage(current) || HasImage(product))
            && (SameImages(r, current) || SameImages(r, product))
            && (!Cheaper(product, current) && HasImage(current) ==> SameImages(r, current))
            && (Cheaper(product, current) && HasImage(product) ==> SameImages(r, product))
  {
  }

  /** The refinement: one entry per key in first-seen order, equal up to images to the leftmost
      cheapest member of its group, which holds exactly the listings with that key; and, when no image
      URL in the group is blank, with an image exactly when some member has one, namely the cheapest
      member's own if it has any. In numbers: no member's best price is below the entry's, no earlier
      member asks as little, and without any price the entry is the group's first member. */
  lemma CheapestIsGroupBy(xs: seq<Listing>, i: nat) returns (m: nat)
    requires i < |FirstSeenKeys(xs)|
    ensures |CheapestOf(xs)| == |FirstSeenKeys(xs)|
    ensures var e, g := CheapestOf(xs)[i], Group(xs, FirstSeenKeys(xs)[i]);
            && e.identity == FirstSeenKeys(xs)[i]
            && (forall l :: multiset(g)[l] == if l.identity == e.identity then multiset(xs)[l] else 0)
            && IsLeftmostCheapest(g, m) && SameButImages(e, g[m])
            && (AllClean(g) ==> CarriesImage(g, m, e))
    ensures var e, g := CheapestOf(xs)[i], Group(xs, FirstSeenKeys(xs)[i]);
            && BestSarPrice(e) == BestSarPrice(g[m])
            && (forall l, x :: l in g && BestSarPrice(l) == Some(x) ==>
                  BestSarPrice(e).Some? && BestSarPrice(e).value <= x)
            && (forall j :: 0 <= j < m ==> BestSarPrice(g[j]) != BestSarPrice(g[m]))
            && (BestSarPrice(e).None? ==> m == 0)
            && (AllClean(g) ==> (Shows(e) <==> exists l :: l in g && Shows(l)))
  {
    var k := FirstSeenKeys(xs)[i];
    EntriesAreMerges(xs, k);
    KeysInFirstSeenOrder(xs);
    InsertAllWellFormed(EMPTY, xs);
    GroupMembers(xs, k);
    m := MergeAllIsCheapest(Group(xs, k));
    RepresentsInNumbers(Group(xs, k), m, CheapestOf(xs)[i]);
  }

  lemma RepresentsInNumbers(g: seq<Listing>, m: nat, e: Listing)
    requires Represents(g, m, e)
    ensures BestSarPrice(e) == BestSarPrice(g[m])
    ensures forall l, x :: l in g && BestSarPrice(l) == Some(x) ==> BestSarPrice(e).Some? && BestSarPrice(e).value <= x
    ensures forall j :: 0 <= j < m ==> BestSarPrice(g[j]) != BestSarPrice(g[m])
    ensures BestSarPrice(e).None? ==> m == 0
    ensures AllClean(g) ==> (Shows(e) <==> exists l :: l in g && Shows(l))
  {
    PriceIgnoresImages(e, g[m]);
    assert m > 0 ==> Cheaper(g[m], g[0]);
    forall l, x | l in g && BestSarPrice(l) == Some(x) ensures BestSarPrice(e).Some? && BestSarPrice(e).value <= x {
      var j :| 0 <= j < |g| && g[j] == l;
      assert !Cheaper(g[j], g[m]);
    }
    forall l ensures Shows(l) <==> HasImage(l) { ShowsMeans(l); }
  }

  lemma {:induction false} GroupMembers(xs: seq<Listing>, k: string)
    ensures forall l :: multiset(Group(xs, k))[l] == if l.identity == k then multiset(xs)[l] else 0
  {
    if xs != [] {
      GroupMembers(xs[..|xs| - 1], k);
      assert xs == xs[..|xs| - 1] + [xs[|xs| - 1]];
    }
  }

  // ---------- algebra ----------

  lemma {:induction false} InsertAllAppend(g: Groups, xs: seq<Listing>, ys: seq<Listing>)
    ensures InsertAll(g, xs + ys) == InsertAll(InsertAll(g, xs), ys)
  {
    if ys == [] {
      assert xs + ys == xs;
    } else {
      assert (xs + ys)[..|xs + ys| - 1] == xs + ys[..|ys| - 1];
      InsertAllAppend(g, xs, ys[..|ys| - 1]);
    }
  }

  /** The first `n` groups. */
  ghost function FirstGroups(g: Groups, n: nat): Groups
    requires WellFormed(g) && n <= |g.keys|
  {
    Groups(g.keys[..n], map k | k in g.keys[..n] :: g.entries[k])
  }

  lemma InsertNextGroup(g: Groups, n: nat)
    requires WellFormed(g) && n < |g.keys|
    ensures Insert(FirstGroups(g, n), g.entries[g.keys[n]]) == FirstGroups(g, n + 1)
  {
    var k := g.keys[n];
    assert g.keys[..n + 1] == g.keys[..n] + [k] && k !in g.keys[..n];
    assert FirstGroups(g, n).entries[k := g.entries[k]] == FirstGroups(g, n + 1).entries;
  }

  lemma {:induction false} ReinsertPrefix(g: Groups, vs: seq<Listing>)
    requires WellFormed(g) && |vs| <= |g.keys| && forall i :: 0 <= i < |vs| ==> vs[i] == g.entries[g.keys[i]]
    ensures InsertAll(EMPTY, vs) == FirstGroups(g, |vs|)
  {
    if vs == [] {
      assert FirstGroups(g, 0).entries == map[];
    } else {
      var n := |vs| - 1;
      ReinsertPrefix(g, vs[..n]);
      InsertNextGroup(g, n);
      InsertLast(vs);
    }
  }

  lemma InsertLast(vs: seq<Listing>)
    requires vs != []
    ensures InsertAll(EMPTY, vs) == Insert(InsertAll(EMPTY, vs[..|vs| - 1]), vs[|vs| - 1])
  {
  }

  /** Cheapest products of a batch can be computed in stages, and doing it twice changes nothing. */
  lemma CheapestInStages(xs: seq<Listing>, ys: seq<Listing>)
    ensures CheapestOf(CheapestOf(xs) + ys) == CheapestOf(xs + ys)
    ensures CheapestOf(CheapestOf(xs)) == CheapestOf(xs)
  {
    var g := InsertAll(EMPTY, xs);
    InsertAllWellFormed(EMPTY, xs);
    ReinsertPrefix(g, CheapestOf(xs));
    assert g.keys[..|g.keys|] == g.keys;
    assert FirstGroups(g, |g.keys|).entries == g.entries;
    assert InsertAll(EMPTY, CheapestOf(xs)) == g;
    InsertAllAppend(EMPTY, CheapestOf(xs), ys);
    InsertAllAppend(EMPTY, xs, ys);
  }

  /** Some listing is dearer than `c`: any without a price, if `c` has one. */
  lemma SomeDearerIff(c: Listing)
    ensures (exists o: Listing :: o.identity == c.identity && Cheaper(c, o)) <==> BestSarPrice(c).Some?
  {
    if BestSarPrice(c).Some? {
      var o := c.(cheapestPriceSar := None, otherOffers := []);
      assert Offers(o) == [Offer(None, None)];
      assert Cheaper(c, o);
    }
  }

  /** An image in the one field that `c` leaves no room for; and so for every price. */
  ghost function BlockedImage(c: Listing, o: Listing): Listing {
    if c.processedImage.Some? then o.(processedImage := Some("x"), image := None)
    else o.(processedImage := None, image := Some("x"))
  }

  /** The exact limit of image carry-over, in both branches of the merge. When the kept listing `c`
      was there first, it takes over every dearer or equal duplicate's image exactly when it is clean;
      when it replaces a dearer one, exactly when it is clean or has no price and so replaces none. A
      blank URL on an imageless listing blocks the `??` that would fill it. */
  lemma ImageCarriedIffClean(c: Listing)
    ensures (forall o: Listing :: o.identity == c.identity && !Cheaper(o, c) ==>
               (HasImage(Merge(c, o)) <==> HasImage(c) || HasImage(o)))
            <==> Clean(c)
    ensures (forall o: Listing :: o.identity == c.identity && Cheaper(c, o) ==>
               (HasImage(Merge(o, c)) <==> HasImage(c) || HasImage(o)))
            <==> Clean(c) || BestSarPrice(c).None?
  {
    SomeDearerIff(c);
    if !Clean(c) {
      var o := BlockedImage(c, c);
      PriceIgnoresImages(o, c);
      assert HasImage(o) && !HasImage(Merge(c, o));
      if d: Listing :| d.identity == c.identity && Cheaper(c, d) {
        var e := BlockedImage(c, d);
        PriceIgnoresImages(e, d);
        assert Cheaper(c, e) && HasImage(e) && !HasImage(Merge(e, c));
      }
    }
  }
}
