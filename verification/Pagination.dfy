/** Loading one category page by page, with the deduplication that makes late replies harmless. */
module Pagination {
  const PRODUCT_PAGE_SIZE := 24

  datatype Item = Item(id: string, canonicalKey: string, identity: string)

  /** `product.id || product.canonical_key || productIdentityKey(product)` */
  function DedupeKey(p: Item): string {
    if p.id != "" then p.id else if p.canonicalKey != "" then p.canonicalKey else p.identity
  }

  function Keys(xs: seq<Item>): set<string> {
    if xs == [] then {} else Keys(xs[..|xs| - 1]) + {DedupeKey(xs[|xs| - 1])}
  }

  /** The first of an item's id, canonical key and identity that is not empty; the identity if none is. */
  ghost predicate IsKeyOf(k: string, p: Item) {
    || (p.id == k && k != "")
    || (p.id == "" && p.canonicalKey == k && k != "")
    || (p.id == "" && p.canonicalKey == "" && p.identity == k)
  }

  lemma KeyMeans(k: string, p: Item)
    ensures IsKeyOf(k, p) <==> k == DedupeKey(p)
  {
  }

  /** Keep the first item of every key, in order. */
  function Dedupe(xs: seq<Item>): seq<Item> {
    if xs == [] then []
    else
      var n := |xs| - 1;
      if DedupeKey(xs[n]) in Keys(xs[..n]) then Dedupe(xs[..n]) else Dedupe(xs[..n]) + [xs[n]]
  }

  method DedupeProducts(products: seq<Item>) returns (kept: seq<Item>)
    ensures kept == Dedupe(products)
  {
    var seen: set<string> := {};
    kept := [];
    assert products[..0] == [];
    for n := 0 to |products|
      invariant seen == Keys(products[..n]) && kept == Dedupe(products[..n])
    {
      var key := DedupeKey(products[n]);
      assert products[..n + 1][..n] == products[..n];
      if key !in seen {
        seen := seen + {key};
        kept := kept + [products[n]];
      }
    }
    assert products[..|products|] == products;
  }

  ghost predicate DistinctKeys(xs: seq<Item>) {
    forall i, j :: 0 <= i < j < |xs| ==> DedupeKey(xs[i]) != DedupeKey(xs[j])
  }

  function Min(a: nat, b: nat): nat {
    if a < b then a else b
  }

  /** What the server returns for this offset from the fixed list `all`. */
  function Page(all: seq<Item>, offset: nat): seq<Item> {
    all[Min(offset, |all|)..Min(offset + PRODUCT_PAGE_SIZE, |all|)]
  }

  lemma {:induction false} KeysMeaning(xs: seq<Item>, k: string)
    ensures k in Keys(xs) <==> exists i :: 0 <= i < |xs| && DedupeKey(xs[i]) == k
  {
    if xs != [] { KeysMeaning(xs[..|xs| - 1], k); }
  }

  lemma {:induction false} KeysAppend(a: seq<Item>, b: seq<Item>)
    ensures Keys(a + b) == Keys(a) + Keys(b)
  {
    if b == [] {
      assert a + b == a;
    } else {
      assert (a + b)[..|a + b| - 1] == a + b[..|b| - 1];
      KeysAppend(a, b[..|b| - 1]);
    }
  }

  lemma DedupeSnoc(xs: seq<Item>, x: Item)
    ensures Dedupe(xs + [x]) == if DedupeKey(x) in Keys(xs) then Dedupe(xs) else Dedupe(xs) + [x]
  {
    assert (xs + [x])[..|xs|] == xs;
  }

  lemma SameKey(p: Item, q: Item)
    ensures DedupeKey(p) == DedupeKey(q) <==> exists k :: IsKeyOf(k, p) && IsKeyOf(k, q)
  {
    KeyMeans(DedupeKey(p), p);
    KeyMeans(DedupeKey(p), q);
    if k :| IsKeyOf(k, p) && IsKeyOf(k, q) {
      KeyMeans(k, p);
      KeyMeans(k, q);
    }
  }

  /** When a second item is dropped as a repeat of the first. */
  lemma RepeatIff(p: Item, q: Item)
    ensures Dedupe([p, q]) == if exists k :: IsKeyOf(k, p) && IsKeyOf(k, q) then [p] else [p, q]
  {
    SameKey(p, q);
    assert [p][..0] == [] && [p, q][..1] == [p];
    assert Keys([p]) == {DedupeKey(p)};
    assert Dedupe([p]) == [p];
  }

  /** The first item of every key: a list without repeats is left alone. */
  lemma {:induction false} DedupeDistinct(xs: seq<Item>)
    requires DistinctKeys(xs)
    ensures Dedupe(xs) == xs
  {
    if xs != [] {
      var n := |xs| - 1;
      DedupeDistinct(xs[..n]);
      KeysMeaning(xs[..n], DedupeKey(xs[n]));
      assert xs[..n] + [xs[n]] == xs;
    }
  }

  lemma DedupeKnown(a: seq<Item>, b: seq<Item>, x: Item)
    requires Dedupe(a + b) == Dedupe(a) && DedupeKey(x) in Keys(a)
    ensures Dedupe(a + (b + [x])) == Dedupe(a)
  {
    KeysAppend(a, b);
    DedupeSnoc(a + b, x);
    assert a + (b + [x]) == (a + b) + [x];
  }

  /** Items whose keys are all there already add nothing. */
  lemma {:induction false} DedupeRepeats(a: seq<Item>, b: seq<Item>)
    requires Keys(b) <= Keys(a)
    ensures Dedupe(a + b) == Dedupe(a)
  {
    if b == [] {
      assert a + b == a;
    } else {
      var front, x := b[..|b| - 1], b[|b| - 1];
      DedupeRepeats(a, front);
      DedupeKnown(a, front, x);
      assert b == front + [x];
    }
  }

  lemma LastKeyIsNew(zs: seq<Item>)
    requires zs != [] && DistinctKeys(zs)
    ensures DedupeKey(zs[|zs| - 1]) !in Keys(zs[..|zs| - 1])
  {
    KeysMeaning(zs[..|zs| - 1], DedupeKey(zs[|zs| - 1]));
  }

  lemma DedupeFresh(xs: seq<Item>, zs: seq<Item>, z: Item)
    requires Dedupe(xs + zs) == Dedupe(xs) + zs && DedupeKey(z) !in Keys(xs) && DedupeKey(z) !in Keys(zs)
    ensures Dedupe(xs + (zs + [z])) == Dedupe(xs) + (zs + [z])
  {
    KeysAppend(xs, zs);
    DedupeSnoc(xs + zs, z);
    assert xs + (zs + [z]) == (xs + zs) + [z];
  }

  /** Items with new keys are all kept. */
  lemma {:induction false} DedupeSuffix(xs: seq<Item>, zs: seq<Item>)
    requires Keys(xs) !! Keys(zs) && DistinctKeys(zs)
    ensures Dedupe(xs + zs) == Dedupe(xs) + zs
  {
    if zs == [] {
      assert xs + zs == xs;
    } else {
      var front, z := zs[..|zs| - 1], zs[|zs| - 1];
      DedupeSuffix(xs, front);
      LastKeyIsNew(zs);
      assert z == zs[|zs| - 1] && DedupeKey(z) in Keys(zs);
      DedupeFresh(xs, front, z);
      assert zs == front + [z];
    }
  }

  lemma SliceKeys(all: seq<Item>, lo: nat, hi: nat, k: string)
    requires lo <= hi <= |all|
    ensures k in Keys(all[lo..hi]) <==> exists i :: lo <= i < hi && DedupeKey(all[i]) == k
  {
    KeysMeaning(all[lo..hi], k);
    if i :| lo <= i < hi && DedupeKey(all[i]) == k { assert all[lo..hi][i - lo] == all[i]; }
  }

  /** Items between `lo` and `hi` are already in the prefix of length `n`. */
  lemma SliceRepeats(all: seq<Item>, lo: nat, hi: nat, n: nat)
    requires lo <= hi <= n <= |all| && DistinctKeys(all)
    ensures Keys(all[lo..hi]) <= Keys(all[..n])
    ensures Dedupe(all[..n] + all[lo..hi]) == all[..n]
  {
    forall k | k in Keys(all[lo..hi]) ensures k in Keys(all[0..n]) {
      SliceKeys(all, lo, hi, k);
      SliceKeys(all, 0, n, k);
    }
    assert all[0..n] == all[..n];
    DedupeRepeats(all[..n], all[lo..hi]);
    DedupeDistinct(all[..n]);
  }

  lemma SlicesDiffer(all: seq<Item>, n: nat, end: nat)
    requires n <= end <= |all| && DistinctKeys(all)
    ensures Keys(all[..n]) !! Keys(all[n..end])
  {
    assert all[0..n] == all[..n];
    forall k | k in Keys(all[..n]) ensures k !in Keys(all[n..end]) {
      SliceKeys(all, 0, n, k);
      SliceKeys(all, n, end, k);
    }
  }

  lemma SliceIsDistinct(all: seq<Item>, n: nat, end: nat)
    requires n <= end <= |all| && DistinctKeys(all)
    ensures DistinctKeys(all[n..end])
  {
  }

  lemma ExtendPrefix(all: seq<Item>, offset: nat, n: nat, end: nat)
    requires offset <= n <= end <= |all| && DistinctKeys(all)
    ensures Dedupe(all[..n] + all[offset..end]) == all[..end]
  {
    var a, old_, new_ := all[..n], all[offset..n], all[n..end];
    assert all[..n] + all[offset..end] == (a + old_) + new_;
    SliceRepeats(all, offset, n, n);
    SlicesDiffer(all, n, end);
    assert Keys(a + old_) == Keys(a) by { KeysAppend(a, old_); }
    SliceIsDistinct(all, n, end);
    DedupeSuffix(a + old_, new_);
    assert a + new_ == all[..end];
  }

  /** Appending any page that starts inside the loaded prefix extends the prefix exactly. */
  lemma AppendPage(all: seq<Item>, n: nat, offset: nat)
    requires DistinctKeys(all) && offset <= n <= |all|
    ensures Dedupe(all[..n] + Page(all, offset)) ==
            all[..if n < Min(offset + PRODUCT_PAGE_SIZE, |all|) then Min(offset + PRODUCT_PAGE_SIZE, |all|) else n]
  {
    var end := Min(offset + PRODUCT_PAGE_SIZE, |all|);
    if end <= n {
      SliceRepeats(all, offset, end, n);
    } else {
      ExtendPrefix(all, offset, n, end);
    }
  }

  // ---------- one fetch after another ----------

  datatype Shown = Shown(products: seq<Item>, hasMore: bool)

  /** The first load (no deduplication) and then `loadMoreProducts` while it is enabled. */
  function AfterFetches(all: seq<Item>, k: nat): Shown {
    if k == 0 then Shown([], true)
    else
      var s := AfterFetches(all, k - 1);
      if !s.hasMore then s
      else
        var page := Page(all, |s.products|);
        Shown(if k == 1 then page else Dedupe(s.products + page), |page| == PRODUCT_PAGE_SIZE)
  }

  /** Nothing is skipped or repeated, and loading stops with the whole list after exactly
      |all| / 24 + 1 fetches. */
  lemma {:induction false} PaginationIsComplete(all: seq<Item>, k: nat)
    requires DistinctKeys(all)
    ensures AfterFetches(all, k).products == all[..if 24 * k < |all| then 24 * k else |all|]
    ensures AfterFetches(all, k).hasMore <==> k <= |all| / 24
  {
    if k > 0 {
      PaginationIsComplete(all, k - 1);
      var s := AfterFetches(all, k - 1);
      if s.hasMore {
        var n := PRODUCT_PAGE_SIZE * (k - 1);
        assert n <= |all| && |s.products| == n;
        if k == 1 {
          assert Page(all, 0) == all[..Min(PRODUCT_PAGE_SIZE, |all|)];
        } else {
          AppendPage(all, n, n);
        }
      }
    }
  }

  // ---------- requests that overlap, fail or answer late ----------

  /** `inFlight` holds the offsets of requests that have not been answered. */
  datatype Catalog = Catalog(products: seq<Item>, hasMore: bool, loaded: bool, inFlight: seq<nat>)

  datatype Event =
    | FirstPage(ok: bool)
    | LoadMore(offset: nat)         // the length the click saw, possibly from an older render
    | Reply(request: nat, ok: bool)
    | Retry(ok: bool)               // `retryProducts`: replace the list by the first page

  function Without(xs: seq<nat>, i: nat): seq<nat>
    requires i < |xs|
  {
    xs[..i] + xs[i + 1..]
  }

  function Step(all: seq<Item>, c: Catalog, e: Event): Catalog {
    match e
    case FirstPage(ok) =>
      if ok then Catalog(Page(all, 0), |Page(all, 0)| == PRODUCT_PAGE_SIZE, true, c.inFlight) else c.(hasMore := false)
    case LoadMore(offset) => c.(inFlight := c.inFlight + [offset])
    case Reply(i, ok) =>
      if i >= |c.inFlight| then c
      else
        var rest := Without(c.inFlight, i);
        if ok then
          var page := Page(all, c.inFlight[i]);
          Catalog(Dedupe(c.products + page), |page| == PRODUCT_PAGE_SIZE, c.loaded, rest)
        else c.(inFlight := rest)
    case Retry(ok) =>
      if ok then Catalog(Page(all, 0), |Page(all, 0)| == PRODUCT_PAGE_SIZE, true, c.inFlight) else c
  }

  /** The list is a prefix of the server's, no request starts beyond it, and "no more" means all of it. */
  ghost predicate IsPrefix(all: seq<Item>, c: Catalog) {
    && |c.products| <= |all| && c.products == all[..|c.products|]
    && (forall i :: 0 <= i < |c.inFlight| ==> c.inFlight[i] <= |c.products|)
    && (c.loaded && !c.hasMore ==> c.products == all)
    && (!c.loaded ==> c.inFlight == [] && c.products == [] && !c.hasMore)
  }

  /** A click asks for no more than the list has now, as every click since the last retry does; the
      first load happens once; and a page-one retry is not answered while a request beyond page one is
      outstanding. */
  ghost predicate Calm(all: seq<Item>, c: Catalog, e: Event) {
    match e
    case FirstPage(_) => !c.loaded
    case LoadMore(offset) => c.loaded && offset <= |c.products|
    case Reply(_, _) => true
    case Retry(ok) => ok ==> NothingBeyondFirstPage(all, c)
  }

  ghost predicate NothingBeyondFirstPage(all: seq<Item>, c: Catalog) {
    forall i :: 0 <= i < |c.inFlight| ==> c.inFlight[i] <= |Page(all, 0)|
  }

  lemma CalmStepKeepsPrefix(all: seq<Item>, c: Catalog, e: Event)
    requires DistinctKeys(all) && IsPrefix(all, c) && Calm(all, c, e)
    ensures IsPrefix(all, Step(all, c, e))
  {
    match e {
      case Reply(i, ok) =>
        if i < |c.inFlight| {
          var rest := Without(c.inFlight, i);
          forall j | 0 <= j < |rest| ensures rest[j] <= |c.products| {
            assert rest[j] == c.inFlight[if j < i then j else j + 1];
          }
          if ok { AppendPage(all, |c.products|, c.inFlight[i]); }
        }
      case _ =>
    }
  }

  function Run(all: seq<Item>, c: Catalog, es: seq<Event>): Catalog
    decreases |es|
  {
    if es == [] then c else Run(all, Step(all, c, es[0]), es[1..])
  }

  ghost predicate CalmRun(all: seq<Item>, c: Catalog, es: seq<Event>)
    decreases |es|
  {
    es == [] || (Calm(all, c, es[0]) && CalmRun(all, Step(all, c, es[0]), es[1..]))
  }

  const UNLOADED := Catalog([], false, false, [])

  lemma {:induction false} CalmRunKeepsPrefix(all: seq<Item>, c: Catalog, es: seq<Event>)
    requires DistinctKeys(all) && IsPrefix(all, c) && CalmRun(all, c, es)
    ensures IsPrefix(all, Run(all, c, es))
    decreases |es|
  {
    if es != [] {
      CalmStepKeepsPrefix(all, c, es[0]);
      CalmRunKeepsPrefix(all, Step(all, c, es[0]), es[1..]);
    }
  }

  /** However requests overlap, fail or are answered late, the list stays a gap-free prefix without
      repeats, and once it says there is no more it is complete. */
  lemma OverlappingLoadsAreSafe(all: seq<Item>, es: seq<Event>)
    requires DistinctKeys(all) && CalmRun(all, UNLOADED, es)
    ensures var c := Run(all, UNLOADED, es);
            && |c.products| <= |all| && c.products == all[..|c.products|]
            && (c.loaded && !c.hasMore ==> c.products == all)
            && (!c.loaded ==> c.products == [] && !c.hasMore)
  {
    CalmRunKeepsPrefix(all, UNLOADED, es);
  }

  ghost predicate PrefixOf(xs: seq<Item>, all: seq<Item>) {
    |xs| <= |all| && xs == all[..|xs|]
  }

  /** A page that starts beyond the prefix leaves a gap. */
  lemma GapIsVisible(all: seq<Item>, n: nat, offset: nat)
    requires DistinctKeys(all) && n < offset < |all|
    ensures !PrefixOf(Dedupe(all[..n] + Page(all, offset)), all)
  {
    var page := Page(all, offset);
    var xs := all[..n] + page;
    forall a, b | 0 <= a < b < |xs| ensures DedupeKey(xs[a]) != DedupeKey(xs[b]) {
      assert xs[a] == all[if a < n then a else offset + a - n] && xs[b] == all[if b < n then b else offset + b - n];
    }
    DedupeDistinct(xs);
    assert xs[n] == all[offset] && DedupeKey(all[n]) != DedupeKey(all[offset]);
  }

  /** What is promised of a loaded list: no gap and no repeat, and "no more" means all of it. */
  ghost predicate KeepsPromise(all: seq<Item>, c: Catalog) {
    PrefixOf(c.products, all) && (c.loaded && !c.hasMore ==> c.products == all)
  }

  /** A retry answered, and then the outstanding request `i`. */
  ghost function RetryThenReply(all: seq<Item>, c: Catalog, i: nat): Catalog {
    Step(all, Step(all, c, Retry(true)), Reply(i, true))
  }

  lemma RetryThenReplyShows(all: seq<Item>, c: Catalog, i: nat)
    requires i < |c.inFlight|
    ensures var d, page := RetryThenReply(all, c, i), Page(all, c.inFlight[i]);
            && d.products == Dedupe(Page(all, 0) + page)
            && d.hasMore == (|page| == PRODUCT_PAGE_SIZE)
            && d.loaded
  {
  }

  /** Why a retry must be calm: when it succeeds and an outstanding request is then answered, the
      promise is kept exactly if that request does not start beyond page one. Otherwise the list gets
      a gap, or, if the request was at the very end, its empty page ends the list after page one. */
  lemma RetryKeepsPromiseIff(all: seq<Item>, c: Catalog, i: nat)
    requires DistinctKeys(all) && IsPrefix(all, c) && i < |c.inFlight|
    ensures KeepsPromise(all, RetryThenReply(all, c, i)) <==> c.inFlight[i] <= |Page(all, 0)|
    ensures c.inFlight[i] == |all| > |Page(all, 0)| ==>
              var d := RetryThenReply(all, c, i); d.products == Page(all, 0) && d.loaded && !d.hasMore
  {
    var n, offset := |Page(all, 0)|, c.inFlight[i];
    RetryThenReplyShows(all, c, i);
    assert Page(all, 0) == all[..n];
    if offset <= n {
      AppendPage(all, n, offset);
    } else if offset < |all| {
      GapIsVisible(all, n, offset);
    } else {
      assert Page(all, 0) + Page(all, offset) == all[..n];
      DedupeDistinct(all[..n]);
    }
  }

  /** The cut-short list happens: both pages of 48 items are loaded, one more is asked for, and a retry
      is answered first. Half of the list is shown, and no way is left to ask for the rest. */
  lemma RetryCutsListShort(all: seq<Item>)
    requires DistinctKeys(all) && |all| == 2 * PRODUCT_PAGE_SIZE
    ensures var es := [FirstPage(true), LoadMore(24), Reply(0, true)] + [LoadMore(48), Retry(true), Reply(0, true)];
            var c := Run(all, UNLOADED, es);
            c.products == all[..PRODUCT_PAGE_SIZE] && c.loaded && !c.hasMore && !KeepsPromise(all, c)
  {
    RunAppend(all, UNLOADED, [FirstPage(true), LoadMore(24), Reply(0, true)],
              [LoadMore(48), Retry(true), Reply(0, true)]);
    ThreeEvents(all, UNLOADED, FirstPage(true), LoadMore(24), Reply(0, true));
    TwoPages(all);
    var c3 := Catalog(all, true, true, []);
    ThreeEvents(all, c3, LoadMore(48), Retry(true), Reply(0, true));
    EndThenRetry(all);
  }

  lemma EndThenRetry(all: seq<Item>)
    requires DistinctKeys(all) && |all| == 2 * PRODUCT_PAGE_SIZE
    ensures var c := Step(all, Step(all, Step(all, Catalog(all, true, true, []), LoadMore(48)), Retry(true)),
                          Reply(0, true));
            c.products == all[..PRODUCT_PAGE_SIZE] && c.loaded && !c.hasMore && !KeepsPromise(all, c)
  {
    var c4 := Catalog(all, true, true, [48]);
    assert Step(all, Catalog(all, true, true, []), LoadMore(48)) == c4;
    assert all[..48] == all && IsPrefix(all, c4);
    RetryKeepsPromiseIff(all, c4, 0);
  }

  lemma ThreeEvents(all: seq<Item>, c: Catalog, e: Event, f: Event, g: Event)
    ensures Run(all, c, [e, f, g]) == Step(all, Step(all, Step(all, c, e), f), g)
  {
    assert [e, f, g][1..] == [f, g] && [f, g][1..] == [g] && [g][1..] == [];
    assert Run(all, Step(all, c, e), [f, g]) == Run(all, Step(all, Step(all, c, e), f), [g]);
  }

  lemma {:induction false} RunAppend(all: seq<Item>, c: Catalog, es: seq<Event>, fs: seq<Event>)
    ensures Run(all, c, es + fs) == Run(all, Run(all, c, es), fs)
    decreases |es|
  {
    if es == [] {
      assert es + fs == fs;
    } else {
      assert (es + fs)[1..] == es[1..] + fs;
      RunAppend(all, Step(all, c, es[0]), es[1..], fs);
    }
  }

  lemma TwoPages(all: seq<Item>)
    requires DistinctKeys(all) && |all| == 2 * PRODUCT_PAGE_SIZE
    ensures Step(all, Step(all, Step(all, UNLOADED, FirstPage(true)), LoadMore(24)), Reply(0, true))
            == Catalog(all, true, true, [])
  {
    assert Page(all, 0) == all[..24];
    AppendPage(all, 24, 24);
    var c2 := Step(all, Step(all, UNLOADED, FirstPage(true)), LoadMore(24));
    assert c2 == Catalog(all[..24], true, true, [24]);
    assert Without(c2.inFlight, 0) == [] && all[..48] == all;
  }
}
