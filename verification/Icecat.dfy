/** The Icecat client: what one request yields, and how the gallery is filtered and ranked. */
module Icecat {
  import opened Basics

  /** One gallery item. `width` and `height` are None when `int(...)` rejects the field. */
  datatype GalleryItem = GalleryItem(
    isPrivate: bool,
    pic: Option<string>,
    lowPic: Option<string>,
    width: Option<int>,
    height: Option<int>,
    isMain: bool,
    updated: string)

  /** The JSON value under "data". `Malformed` is any truthy value on which reading images raises. */
  datatype Data = Falsy | LiteralFalse | Malformed | Record(brand: string, mpn: string, gallery: seq<GalleryItem>)

  /** What the HTTP call did: an error status, any other failure, or a body. */
  datatype Http = Status(code: int) | RequestFailed | Body(data: Data)

  datatype Candidate = Candidate(url: string, width: int, height: int, isMain: bool, updated: string, brand: string,
                                 mpn: string)

  /** `_fetch`: every HTTP error, the 403 of a locked record included, and every other failure is None. */
  function Fetch(h: Http): Data {
    if h.Body? then h.data else Falsy
  }

  function Truthy(s: Option<string>): Option<string> {
    if s.Some? && s.value != "" then s else None
  }

  /** `item.get("Pic") or item.get("LowPic")` */
  function ItemUrl(item: GalleryItem): Option<string> {
    if Truthy(item.pic).Some? then Truthy(item.pic) else Truthy(item.lowPic)
  }

  /** Not private and with a URL. */
  predicate Usable(item: GalleryItem) {
    !item.isPrivate && ItemUrl(item).Some?
  }

  function ToCandidate(item: GalleryItem, brand: string, mpn: string): Candidate
    requires Usable(item)
  {
    var parsed := item.width.Some? && item.height.Some?;
    Candidate(ItemUrl(item).value,
              if parsed then item.width.value else 0,
              if parsed then item.height.value else 0,
              item.isMain, item.updated, brand, mpn)
  }

  function Area(c: Candidate): int {
    c.width * c.height
  }

  /** The sort key (not is_main, -(width * height), updated), compared lexicographically. */
  predicate RanksBefore(a: Candidate, b: Candidate) {
    if a.isMain != b.isMain then a.isMain
    else if Area(a) != Area(b) then Area(a) > Area(b)
    else StringLeq(a.updated, b.updated)
  }

  function Collect(gallery: seq<GalleryItem>, brand: string, mpn: string): seq<Candidate> {
    if gallery == [] then []
    else (if Usable(gallery[0]) then [ToCandidate(gallery[0], brand, mpn)] else [])
         + Collect(gallery[1..], brand, mpn)
  }

  function RankedImages(d: Data): seq<Candidate>
    requires d.Record?
  {
    SortBy(Collect(d.gallery, d.brand, d.mpn), RanksBefore)
  }

  /** The loop of `extract_images`, followed by its sort. */
  method ExtractImages(d: Data) returns (records: seq<Candidate>)
    requires d.Record?
    ensures records == RankedImages(d)
  {
    records := [];
    for n := 0 to |d.gallery|
      invariant records + Collect(d.gallery[n..], d.brand, d.mpn) == Collect(d.gallery, d.brand, d.mpn)
    {
      assert d.gallery[n..][1..] == d.gallery[n + 1..];
      if Usable(d.gallery[n]) {
        records := records + [ToCandidate(d.gallery[n], d.brand, d.mpn)];
      }
    }
    assert records + Collect([], d.brand, d.mpn) == records;
    records := SortBy(records, RanksBefore);
  }

  lemma RankingIsTotalPreorder()
    ensures TotalPreorder(RanksBefore)
  {
    forall a, b ensures RanksBefore(a, b) || RanksBefore(b, a) {
      StringLeqTotal(a.updated, b.updated);
    }
    forall a, b, c | RanksBefore(a, b) && RanksBefore(b, c) ensures RanksBefore(a, c) {
      if StringLeq(a.updated, b.updated) && StringLeq(b.updated, c.updated) {
        StringLeqTransitive(a.updated, b.updated, c.updated);
      }
    }
  }

  lemma {:induction false} CollectIsUsableItems(gallery: seq<GalleryItem>, brand: string, mpn: string, c: Candidate)
    ensures c in Collect(gallery, brand, mpn)
            <==> exists i :: 0 <= i < |gallery| && Usable(gallery[i]) && ToCandidate(gallery[i], brand, mpn) == c
  {
    if gallery != [] {
      CollectIsUsableItems(gallery[1..], brand, mpn, c);
      if i :| 0 <= i < |gallery[1..]| && Usable(gallery[1..][i]) && ToCandidate(gallery[1..][i], brand, mpn) == c {
        assert gallery[i + 1] == gallery[1..][i];
      }
      if i :| 0 <= i < |gallery| && Usable(gallery[i]) && ToCandidate(gallery[i], brand, mpn) == c {
        assert i == 0 || gallery[1..][i - 1] == gallery[i];
      }
    }
  }

  /** The ranking is a sorted, stable permutation of the usable gallery items: main images first,
      then larger areas, then the OLDER update stamp. */
  lemma RankedImagesIsRanking(d: Data, c: Candidate)
    requires d.Record?
    ensures SortedBy(RankedImages(d), RanksBefore)
    ensures multiset(RankedImages(d)) == multiset(Collect(d.gallery, d.brand, d.mpn))
    ensures Ties(RankedImages(d), c, RanksBefore) == Ties(Collect(d.gallery, d.brand, d.mpn), c, RanksBefore)
    ensures c in RankedImages(d)
            <==> exists i ::
                   0 <= i < |d.gallery| && Usable(d.gallery[i]) && ToCandidate(d.gallery[i], d.brand, d.mpn) == c
    ensures c in RankedImages(d) ==> c.brand == d.brand && c.mpn == d.mpn && c.url != ""
  {
    RankingIsTotalPreorder();
    SortByFacts(Collect(d.gallery, d.brand, d.mpn), RanksBefore);
    CollectIsUsableItems(d.gallery, d.brand, d.mpn, c);
    assert c in RankedImages(d) <==> c in multiset(RankedImages(d));
  }

  /** The candidate is what becomes of this gallery item: the full picture's URL or else the small
      one's, and dimensions only when both can be read. */
  ghost predicate Depicts(c: Candidate, item: GalleryItem, brand: string, mpn: string) {
    && !item.isPrivate
    && c.url != ""
    && (item.pic == Some(c.url) || ((item.pic == None || item.pic == Some("")) && item.lowPic == Some(c.url)))
    && (if item.width.Some? && item.height.Some?
        then item.width == Some(c.width) && item.height == Some(c.height)
        else c.width == 0 && c.height == 0)
    && c.isMain == item.isMain && c.updated == item.updated && c.brand == brand && c.mpn == mpn
  }

  /** The item can be depicted at all. */
  ghost predicate Showable(item: GalleryItem) {
    !item.isPrivate && exists url :: url != "" && (item.pic == Some(url) || item.lowPic == Some(url))
  }

  lemma UsableMeans(item: GalleryItem, brand: string, mpn: string, c: Candidate)
    ensures Usable(item) <==> Showable(item)
    ensures Usable(item) && ToCandidate(item, brand, mpn) == c <==> Depicts(c, item, brand, mpn)
  {
    if Usable(item) {
      var url := ToCandidate(item, brand, mpn).url;
      assert url != "" && (item.pic == Some(url) || item.lowPic == Some(url));
    }
  }

  /** The candidates before ranking: one for every showable gallery item, in gallery order. */
  lemma {:induction false} CandidatesInOrder(gallery: seq<GalleryItem>, brand: string,
                                             mpn: string) returns (at: seq<nat>)
    ensures Filtered(gallery, Collect(gallery, brand, mpn), at, (item, c) => Depicts(c, item, brand, mpn), Showable)
  {
    at := [];
    if gallery != [] {
      var item := gallery[0];
      var rest := CandidatesInOrder(gallery[1..], brand, mpn);
      at := Shifted(rest, Showable(item));
      HeadDepicts(item, brand, mpn);
      FilteredCons(item, gallery[1..], if Usable(item) then [ToCandidate(item, brand, mpn)] else [],
                   Collect(gallery[1..], brand, mpn), rest, (item, c) => Depicts(c, item, brand, mpn), Showable);
      assert [item] + gallery[1..] == gallery;
    }
  }

  lemma HeadDepicts(item: GalleryItem, brand: string, mpn: string)
    ensures Usable(item) <==> Showable(item)
    ensures Usable(item) ==> Depicts(ToCandidate(item, brand, mpn), item, brand, mpn)
  {
    var c := if Usable(item) then ToCandidate(item, brand, mpn) else Candidate("", 0, 0, false, "", "", "");
    UsableMeans(item, brand, mpn, c);
  }

  /** Main images first, then larger areas, then older stamps. */
  lemma MainThenLargeThenOld(d: Data, i: nat, j: nat)
    requires d.Record? && i < j < |RankedImages(d)|
    ensures var a, b := RankedImages(d)[i], RankedImages(d)[j];
            && (b.isMain ==> a.isMain)
            && (a.isMain == b.isMain ==> a.width * a.height >= b.width * b.height)
            && (a.isMain == b.isMain && a.width * a.height == b.width * b.height ==>
                  a.updated <= b.updated
                  || exists k :: FirstDifference(a.updated, b.updated, k) && a.updated[k] < b.updated[k])
  {
    var a, b := RankedImages(d)[i], RankedImages(d)[j];
    RankedImagesIsRanking(d, a);
    assert RanksBefore(a, b);
    StringLeqMeans(a.updated, b.updated);
  }

  lemma RankedShareMetadata(d: Data, c: Candidate)
    requires d.Record? && c in RankedImages(d)
    ensures c.brand == d.brand && c.mpn == d.mpn
  {
    RankedImagesIsRanking(d, c);
  }

  lemma NoCandidateIff(d: Data)
    requires d.Record?
    ensures RankedImages(d) == [] <==> forall i :: 0 <= i < |d.gallery| ==> !Usable(d.gallery[i])
  {
    if RankedImages(d) != [] {
      RankedImagesIsRanking(d, RankedImages(d)[0]);
    }
    if i :| 0 <= i < |d.gallery| && Usable(d.gallery[i]) {
      RankedImagesIsRanking(d, ToCandidate(d.gallery[i], d.brand, d.mpn));
    }
  }

  /** "Most recently updated" first is what the comment beside the sort says; the code does the opposite. */
  lemma OlderUpdateRanksFirst(a: Candidate, b: Candidate)
    requires a.isMain == b.isMain && Area(a) == Area(b) && a.updated != b.updated
    ensures RanksBefore(a, b) && !RanksBefore(b, a) <==> StringLeq(a.updated, b.updated)
  {
    StringLeqTotal(a.updated, b.updated);
    if StringLeq(a.updated, b.updated) && StringLeq(b.updated, a.updated) {
      StringLeqAntisymmetric(a.updated, b.updated);
    }
  }

  lemma {:induction false} StringLeqAntisymmetric(a: string, b: string)
    requires StringLeq(a, b) && StringLeq(b, a)
    ensures a == b
  {
    if a != "" && b != "" {
      StringLeqAntisymmetric(a[1..], b[1..]);
      assert a == [a[0]] + a[1..] && b == [b[0]] + b[1..];
    }
  }
}
