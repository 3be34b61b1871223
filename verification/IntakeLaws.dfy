/** What a run takes in: the products it loads, and the images it considers for each. */
module IntakeLaws {
  import opened Basics
  import opened CatalogStore
  import opened Icecat
  import opened PipelineSpec

  // ---------- products ----------

  /** What the query asks of a product, field by field. */
  ghost predicate MayLoad(cfg: Config, rows: seq<Row>, p: Product) {
    && p.approved
    && (cfg.productId == None || cfg.productId == Some(p.id))
    && (cfg.category == None || cfg.category == Some("") || cfg.category == Some(p.category))
    && (cfg.forceRefresh || cfg.dryRun
        || forall r :: r in rows && r.product == p.id ==> !(r.isPrimary && r.review == Approved))
  }

  lemma SelectedMeans(cfg: Config, rows: seq<Row>, p: Product)
    ensures Selected(cfg, rows, p) <==> MayLoad(cfg, rows, p)
  {
    if AlreadyDone(rows, p.id) {
      var i :| 0 <= i < |rows| && rows[i].product == p.id && rows[i].isPrimary && rows[i].review.Approved?;
      assert rows[i] in rows;
    }
  }

  lemma {:induction false} SelectsInOrder(cfg: Config, rows: seq<Row>, catalog: seq<Product>) returns (at: seq<nat>)
    ensures Filtered(catalog, SelectProducts(cfg, rows, catalog), at, (p, q) => p == q, p => MayLoad(cfg, rows, p))
  {
    at := [];
    if catalog != [] {
      var rest := SelectsInOrder(cfg, rows, catalog[1..]);
      at := Shifted(rest, MayLoad(cfg, rows, catalog[0]));
      SelectedMeans(cfg, rows, catalog[0]);
      FilteredCons(catalog[0], catalog[1..], if Selected(cfg, rows, catalog[0]) then [catalog[0]] else [],
                   SelectProducts(cfg, rows, catalog[1..]), rest, (p, q) => p == q, p => MayLoad(cfg, rows, p));
      assert [catalog[0]] + catalog[1..] == catalog;
    }
  }

  /** The loaded products are catalog entries in catalog order, each of which may be loaded. One that
      may be and is not comes after them all, and then a positive limit is used up. */
  lemma LoadsInOrder(cfg: Config, rows: seq<Row>, catalog: seq<Product>) returns (at: seq<nat>)
    ensures var ps := LoadProducts(cfg, rows, catalog);
            && |at| == |ps| && Increasing(at, |catalog|)
            && (forall i :: 0 <= i < |at| ==> ps[i] == catalog[at[i]] && MayLoad(cfg, rows, ps[i]))
            && (cfg.limit.Some? && cfg.limit.value > 0 ==> |ps| <= cfg.limit.value)
            && (forall j: nat :: j < |catalog| && MayLoad(cfg, rows, catalog[j]) && j !in at ==>
                  cfg.limit.Some? && cfg.limit.value == |ps| > 0 && forall k :: k in at ==> k < j)
  {
    var all := SelectsInOrder(cfg, rows, catalog);
    at := all[..|LoadProducts(cfg, rows, catalog)|];
    forall i | 0 <= i < |at| ensures MayLoad(cfg, rows, catalog[at[i]]) {
      assert all[i] in all;
    }
  }

  lemma LoadedMayBe(cfg: Config, rows: seq<Row>, catalog: seq<Product>)
    ensures forall p :: p in LoadProducts(cfg, rows, catalog) ==> p in catalog && MayLoad(cfg, rows, p)
  {
    var at := LoadsInOrder(cfg, rows, catalog);
    forall p | p in LoadProducts(cfg, rows, catalog) ensures p in catalog && MayLoad(cfg, rows, p) {
      var i :| 0 <= i < |at| && LoadProducts(cfg, rows, catalog)[i] == p;
      assert catalog[at[i]] == p;
    }
  }

  function ProductOf(e: Effect): int {
    match e
    case Upload(key) => key.product
    case Demote(p) => p
    case Insert(row) => row.product
    case Rollback(p) => p
  }

  lemma {:induction false} ScanStaysWithProduct(w: World, dry: bool, rows: seq<Row>, p: int, cs: seq<Candidate>, k: nat)
    requires k <= |cs|
    ensures forall e :: e in ScanEffects(w, dry, rows, p, cs, k) ==> ProductOf(e) == p
    decreases |cs| - k
  {
    if k < |cs| { ScanStaysWithProduct(w, dry, rows, p, cs, k + 1); }
  }

  /** Every write of a run is for a product of the batch. */
  lemma {:induction false} WritesStayInBatch(w: World, dry: bool, s: Store, ps: seq<Product>)
    ensures forall e :: e in Writes(RunOutcomes(w, dry, s, ps)) ==> exists p :: p in ps && p.id == ProductOf(e)
    decreases |ps|
  {
    if ps != [] {
      var o := ProcessProduct(w, dry, s.rows, ps[0]);
      var rest := RunOutcomes(w, dry, ApplyAll(s, o.effects), ps[1..]);
      WritesStayInBatch(w, dry, ApplyAll(s, o.effects), ps[1..]);
      match FindImages(w, ps[0]) {
        case Matched(cs, _) => ScanStaysWithProduct(w, dry, s.rows, ps[0].id, cs, 0);
        case _ =>
      }
      assert RunOutcomes(w, dry, s, ps)[1..] == rest;
      forall e | e in o.effects + Writes(rest) ensures exists p :: p in ps && p.id == ProductOf(e) {
        if e in o.effects {
          assert ps[0] in ps && ps[0].id == ProductOf(e);
        } else {
          var p :| p in ps[1..] && p.id == ProductOf(e);
          assert p in ps;
        }
      }
    }
  }

  // ---------- images ----------

  ghost predicate HasGtin(p: Product) {
    p.gtin.Some? && p.gtin.value != ""
  }

  /** A record with something to show. */
  ghost predicate ShowsImages(h: Http) {
    match h
    case Body(Record(_, _, gallery)) => exists i :: 0 <= i < |gallery| && Showable(gallery[i])
    case _ => false
  }

  ghost predicate GtinHits(w: World, p: Product) {
    w.configured && HasGtin(p) && p.gtin.value in w.byGtin && ShowsImages(w.byGtin[p.gtin.value])
  }

  /** The GTIN request is not made, fails, or finds nothing that can be shown. */
  ghost predicate GtinMisses(w: World, p: Product) {
    HasGtin(p) && p.gtin.value in w.byGtin ==>
      match w.byGtin[p.gtin.value]
      case Body(Record(_, _, gallery)) => !ShowsImages(w.byGtin[p.gtin.value])
      case Body(data) => data == Falsy
      case _ => true
  }

  ghost predicate BrandMpnHits(w: World, p: Product) {
    w.configured && GtinMisses(w, p) && (p.brand, p.mpn) in w.byBrandMpn && ShowsImages(w.byBrandMpn[(p.brand, p.mpn)])
  }

  lemma ShowsImagesMeans(d: Data)
    requires d.Record?
    ensures ShowsImages(Body(d)) <==> RankedImages(d) != []
  {
    NoCandidateIff(d);
    forall i | 0 <= i < |d.gallery| ensures Usable(d.gallery[i]) <==> Showable(d.gallery[i]) {
      UsableMeans(d.gallery[i], d.brand, d.mpn, Candidate("", 0, 0, false, "", "", ""));
    }
  }

  /** GTIN first: a usable GTIN reply is taken whatever the other request would find, and that one
      counts exactly when the GTIN request is not made or finds nothing. */
  lemma FoundIff(w: World, p: Product)
    ensures var f := FindImages(w, p);
            && (f.Matched? && f.how == ExactGtin <==> GtinHits(w, p))
            && (f.Matched? && f.how == ExactBrandMpn <==> BrandMpnHits(w, p))
            && (GtinHits(w, p) ==> f.candidates == RankedImages(w.byGtin[p.gtin.value].data))
            && (BrandMpnHits(w, p) ==> f.candidates == RankedImages(w.byBrandMpn[(p.brand, p.mpn)].data))
            && (f == FindRaises <==>
                  && w.configured
                  && ((HasGtin(p) && p.gtin.value in w.byGtin && w.byGtin[p.gtin.value] == Body(Malformed))
                      || (GtinMisses(w, p) && (p.brand, p.mpn) in w.byBrandMpn
                          && w.byBrandMpn[(p.brand, p.mpn)] == Body(Malformed))))
            && (f == Locked <==>
                  && w.configured
                  && ((HasGtin(p) && p.gtin.value in w.byGtin && w.byGtin[p.gtin.value] == Body(LiteralFalse))
                      || (GtinMisses(w, p) && (p.brand, p.mpn) in w.byBrandMpn
                          && w.byBrandMpn[(p.brand, p.mpn)] == Body(LiteralFalse))))
  {
    if HasGtin(p) && GtinReply(w, p.gtin.value).Record? { ShowsImagesMeans(GtinReply(w, p.gtin.value)); }
    if BrandMpnReply(w, p).Record? { ShowsImagesMeans(BrandMpnReply(w, p)); }
  }
}
