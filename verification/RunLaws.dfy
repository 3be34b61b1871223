/** Laws over whole runs: which candidate wins, dry run against real run, duplicates, running again. */
module RunLaws {
  import opened Basics
  import opened CatalogStore
  import opened Icecat
  import opened PipelineSpec
  import opened IntakeLaws
  import opened OwnershipLaws

  // ---------- which candidate wins ----------

  lemma {:induction false} ScanMeans(w: World, dry: bool, rows: seq<Row>, p: int, cs: seq<Candidate>, k: nat)
    requires k <= |cs|
    ensures var s := Scan(w, dry, rows, p, cs, k);
            match s
            case Lost => forall j :: k <= j < |cs| ==> Judge(w, dry, rows, p, cs[j]).Reject?
            case Won(r) => k <= r < |cs| && Judge(w, dry, rows, p, cs[r]).Approve?
                           && forall j :: k <= j < r ==> Judge(w, dry, rows, p, cs[j]).Reject?
            case Raised(r) => k <= r < |cs| && Judge(w, dry, rows, p, cs[r]).Raise?
                              && forall j :: k <= j < r ==> Judge(w, dry, rows, p, cs[j]).Reject?
    decreases |cs| - k
  {
    if k < |cs| && Judge(w, dry, rows, p, cs[k]).Reject? {
      ScanMeans(w, dry, rows, p, cs, k + 1);
    }
  }

  ghost predicate LargeEnough(s: Source) {
    s.Decoded? && s.width >= 600 && s.height >= 600
  }

  /** Nothing but its uploads and the database can keep this image from being approved anew. */
  ghost predicate Admissible(w: World, rows: seq<Row>, p: int, c: Candidate) {
    var s := SourceAt(w, c.url);
    && LargeEnough(s) && !KnownApproved(rows, p, s.checksum) && !ChecksumBelongsToOther(rows, p, s.checksum)
    && c.brand != "" && c.mpn != ""
  }

  /** What makes an image acceptable, read off the world and the rows alone. */
  ghost predicate Acceptable(w: World, dry: bool, rows: seq<Row>, p: int, c: Candidate) {
    var s := SourceAt(w, c.url);
    || (LargeEnough(s) && KnownApproved(rows, p, s.checksum))
    || (Admissible(w, rows, p, c) && (dry || (Uploadable(w, p, s.checksum) && (p, s.checksum) !in w.unsaved)))
  }

  /** What raises: the decoder, or the database once the uploads are done. */
  ghost predicate Breaks(w: World, dry: bool, rows: seq<Row>, p: int, c: Candidate) {
    var s := SourceAt(w, c.url);
    || s.DecoderRaises?
    || (Admissible(w, rows, p, c) && !dry && Uploadable(w, p, s.checksum) && (p, s.checksum) in w.unsaved)
  }

  lemma JudgeMeans(w: World, dry: bool, rows: seq<Row>, p: int, c: Candidate)
    ensures Judge(w, dry, rows, p, c).Approve? <==> Acceptable(w, dry, rows, p, c)
    ensures Judge(w, dry, rows, p, c).Raise? <==> Breaks(w, dry, rows, p, c)
  {
  }

  /** Why a candidate is rejected, first reason first. */
  lemma RejectionMeans(w: World, dry: bool, rows: seq<Row>, p: int, c: Candidate)
    requires !Acceptable(w, dry, rows, p, c) && !Breaks(w, dry, rows, p, c)
    ensures var s := SourceAt(w, c.url);
            Judge(w, dry, rows, p, c) == Reject(
              if s == DownloadRaises then DownloadFailed
              else if s == NotAnImage then InvalidImage
              else if s.width < 600 || s.height < 600 then BelowMinDimension
              else if exists r :: r in rows && r.product != p && r.checksum == Some(s.checksum) then ChecksumConflict
              else if c.brand == "" || c.mpn == "" then IncompleteSourceMetadata
              else GcsUploadFailed)
  {
    var s := SourceAt(w, c.url);
    if s.Decoded? && ChecksumBelongsToOther(rows, p, s.checksum) {
      var i :| 0 <= i < |rows| && Foreign(rows[i], p, s.checksum);
      assert rows[i] in rows;
    }
  }

  /** Auto-approval by itself: no conflict, both dimensions, both identifiers. */
  lemma AutoApprovalMeans(width: int, height: int, c: Candidate, conflict: bool)
    ensures PassesAutoApproval(width, height, c, conflict) == AutoApproved
            <==> !conflict && width >= 600 && height >= 600 && c.brand != "" && c.mpn != ""
    ensures !conflict && (width < 600 || height < 600) ==>
              PassesAutoApproval(width, height, c, conflict) == BelowMinDimension
  {
  }

  /** None of the first `k` candidates is acceptable or raises. */
  ghost predicate PassedOver(w: World, dry: bool, rows: seq<Row>, p: int, cs: seq<Candidate>, k: nat)
    requires k <= |cs|
  {
    forall j :: 0 <= j < k ==> !Acceptable(w, dry, rows, p, cs[j]) && !Breaks(w, dry, rows, p, cs[j])
  }

  /** The final state says exactly where the ranked candidates stop: the first acceptable one wins,
      the first exception, the database's included, is retryable, and a failed upload only rejects
      its candidate. */
  lemma FirstAcceptableWins(w: World, dry: bool, rows: seq<Row>, p: Product, k: nat)
    requires FindImages(w, p).Matched? && k < |FindImages(w, p).candidates|
    ensures var cs, o := FindImages(w, p).candidates, ProcessProduct(w, dry, rows, p);
            && (o.rank == Some(k) <==> Acceptable(w, dry, rows, p.id, cs[k]) && PassedOver(w, dry, rows, p.id, cs, k))
            && (o.state.RealImageApproved? <==> o.rank.Some?)
            && (o.state.ImageRejected? <==> PassedOver(w, dry, rows, p.id, cs, |cs|))
            && (o.state.RetryableFailure? <==>
                  exists r :: 0 <= r < |cs| && Breaks(w, dry, rows, p.id, cs[r])
                      && PassedOver(w, dry, rows, p.id, cs, r))
  {
    ScanStops(w, dry, rows, p.id, FindImages(w, p).candidates);
  }

  /** Where the scan stops, in the same terms. */
  lemma ScanStops(w: World, dry: bool, rows: seq<Row>, p: int, cs: seq<Candidate>)
    ensures var s := Scan(w, dry, rows, p, cs, 0);
            if s.Lost? then PassedOver(w, dry, rows, p, cs, |cs|)
            else && s.rank < |cs| && PassedOver(w, dry, rows, p, cs, s.rank)
                 && (s.Won? <==> Acceptable(w, dry, rows, p, cs[s.rank]))
                 && (s.Raised? <==> Breaks(w, dry, rows, p, cs[s.rank]))
  {
    ScanMeans(w, dry, rows, p, cs, 0);
    forall j | 0 <= j < |cs|
      ensures Judge(w, dry, rows, p, cs[j]).Approve? <==> Acceptable(w, dry, rows, p, cs[j])
      ensures Judge(w, dry, rows, p, cs[j]).Raise? <==> Breaks(w, dry, rows, p, cs[j])
    {
      JudgeMeans(w, dry, rows, p, cs[j]);
    }
  }

  /** A 403 (or any HTTP error) never marks a product as locked: it is an ordinary miss. */
  lemma HttpErrorIsNoMatch(w: World, dry: bool, rows: seq<Row>, p: Product)
    requires p.gtin.Some? && p.gtin.value in w.byGtin ==> w.byGtin[p.gtin.value].Status?
    requires (p.brand, p.mpn) in w.byBrandMpn ==> w.byBrandMpn[(p.brand, p.mpn)].Status?
    ensures ProcessProduct(w, dry, rows, p).state == NoExactMatch
  {
  }

  /** SOURCE_LOCKED takes a body whose "data" is the JSON literal false: to the GTIN request, or to
      the second one when the first finds nothing. */
  lemma LockedIff(w: World, dry: bool, rows: seq<Row>, p: Product)
    ensures ProcessProduct(w, dry, rows, p).state == SourceLocked
            <==> && w.configured
                 && ((HasGtin(p) && p.gtin.value in w.byGtin && w.byGtin[p.gtin.value] == Body(LiteralFalse))
                     || (GtinMisses(w, p) && (p.brand, p.mpn) in w.byBrandMpn
                         && w.byBrandMpn[(p.brand, p.mpn)] == Body(LiteralFalse)))
  {
    FoundIff(w, p);
  }

  // ---------- how rows grow ----------

  ghost predicate SameFacts(a: Row, b: Row) {
    a.product == b.product && a.checksum == b.checksum && a.review == b.review
  }

  /** `new` keeps the facts of every row of `old` and adds rows only for the products in `ids`. */
  ghost predicate ExtendsBy(old_: seq<Row>, new_: seq<Row>, ids: set<int>) {
    && |old_| <= |new_|
    && (forall i :: 0 <= i < |old_| ==> SameFacts(old_[i], new_[i]))
    && (forall i :: |old_| <= i < |new_| ==> new_[i].product in ids)
  }

  lemma ExtendsByTrans(a: seq<Row>, b: seq<Row>, c: seq<Row>, ids: set<int>, jds: set<int>)
    requires ExtendsBy(a, b, ids) && ExtendsBy(b, c, jds)
    ensures ExtendsBy(a, c, ids + jds)
  {
    forall i | 0 <= i < |a| ensures SameFacts(a[i], c[i]) {
      assert SameFacts(a[i], b[i]) && SameFacts(b[i], c[i]);
    }
    forall i | |a| <= i < |c| ensures c[i].product in ids + jds {
      if i < |b| { assert SameFacts(b[i], c[i]); }
    }
  }

  lemma GrownFacts(a: seq<Row>, b: seq<Row>, ids: set<int>, p: int, c: string)
    requires ExtendsBy(a, b, ids)
    ensures HasRow(a, p, c) ==> HasRow(b, p, c)
    ensures KnownApproved(a, p, c) ==> KnownApproved(b, p, c)
    ensures ChecksumBelongsToOther(a, p, c) ==> ChecksumBelongsToOther(b, p, c)
    ensures p !in ids ==> (HasRow(b, p, c) ==> HasRow(a, p, c)) && (KnownApproved(b, p, c) ==> KnownApproved(a, p, c))
  {
    forall i | 0 <= i < |a|
      ensures Owns(a[i], p, c) == Owns(b[i], p, c) && Foreign(a[i], p, c) == Foreign(b[i], p, c)
          && a[i].review == b[i].review
    {
      assert SameFacts(a[i], b[i]);
    }
  }

  ghost function Ids(ps: seq<Product>): set<int> {
    set p | p in ps :: p.id
  }

  /** The checksum inserted for a product, if any. */
  ghost function Inserted(w: World, dry: bool, rows: seq<Row>, p: int, cs: seq<Candidate>, k: nat): Option<string>
    requires k <= |cs|
  {
    ScanMeans(w, dry, rows, p, cs, k);
    match Scan(w, dry, rows, p, cs, k)
    case Won(r) =>
      if Judge(w, dry, rows, p, cs[r]) == Approve(AutoApproved)
      then Some(Inspect(w, rows, p, cs[r]).checksum) else None
    case _ => None
  }

  ghost function AfterInsert(rows: seq<Row>, p: int, ins: Option<string>): seq<Row> {
    if ins.Some? then Demoted(rows, p) + [ApprovedRow(p, ins.value)] else rows
  }

  lemma {:induction false} ScanRows(w: World, dry: bool, s: Store, p: int, cs: seq<Candidate>, k: nat)
    requires k <= |cs|
    ensures ApplyAll(s, ScanEffects(w, dry, s.rows, p, cs, k)).rows
        == AfterInsert(s.rows, p, Inserted(w, dry, s.rows, p, cs, k))
    decreases |cs| - k
  {
    if k < |cs| {
      var here := AttemptEffects(w, dry, s.rows, p, cs[k]);
      match Judge(w, dry, s.rows, p, cs[k]) {
        case Reject(_) =>
          RejectionKeepsRows(w, dry, s, p, cs[k]);
          ScanRows(w, dry, ApplyAll(s, here), p, cs, k + 1);
          ApplyAppend(s, here, ScanEffects(w, dry, s.rows, p, cs, k + 1));
        case Approve(reason) =>
          assert here + [] == here;
          if reason == AutoApproved { InsertionRows(w, s, p, Inspect(w, s.rows, p, cs[k]).checksum); }
        case Raise =>
          RejectionKeepsRows(w, dry, s, p, cs[k]);
          assert here + [] == here;
      }
    }
  }

  lemma InsertionRows(w: World, s: Store, p: int, c: string)
    ensures ApplyAll(s, UploadEffects(w, p, c) + [Demote(p), Insert(ApprovedRow(p, c))]).rows
        == AfterInsert(s.rows, p, Some(c))
  {
    var ups, tail := UploadEffects(w, p, c), [Demote(p), Insert(ApprovedRow(p, c))];
    UploadsOnly(s, ups);
    ApplyAppend(s, ups, tail);
    ApplyPair(ApplyAll(s, ups), Demote(p), Insert(ApprovedRow(p, c)));
  }

  ghost function ProductInsert(w: World, dry: bool, rows: seq<Row>, p: Product): Option<string> {
    match FindImages(w, p)
    case Matched(cs, _) => Inserted(w, dry, rows, p.id, cs, 0)
    case _ => None
  }

  lemma ProcessRows(w: World, dry: bool, s: Store, p: Product)
    ensures ApplyAll(s, ProcessProduct(w, dry, s.rows, p).effects).rows
        == AfterInsert(s.rows, p.id, ProductInsert(w, dry, s.rows, p))
    ensures ExtendsBy(s.rows, ApplyAll(s, ProcessProduct(w, dry, s.rows, p).effects).rows, {p.id})
  {
    match FindImages(w, p) {
      case Matched(cs, _) => ScanRows(w, dry, s, p.id, cs, 0);
      case _ =>
    }
  }

  // ---------- dry run against real run ----------

  lemma {:induction false} DryScanWritesNothing(w: World, rows: seq<Row>, p: int, cs: seq<Candidate>, k: nat)
    requires k <= |cs|
    ensures ScanEffects(w, true, rows, p, cs, k) == []
    decreases |cs| - k
  {
    if k < |cs| && Judge(w, true, rows, p, cs[k]).Reject? {
      DryScanWritesNothing(w, rows, p, cs, k + 1);
    }
  }

  /** A dry run makes no write at all, so it judges every product against the same database. */
  lemma {:induction false} DryRunWritesNothing(w: World, s: Store, ps: seq<Product>)
    ensures Writes(RunOutcomes(w, true, s, ps)) == []
    ensures |RunOutcomes(w, true, s, ps)| == |ps|
    ensures forall j :: 0 <= j < |ps| ==> RunOutcomes(w, true, s, ps)[j] == ProcessProduct(w, true, s.rows, ps[j])
    decreases |ps|
  {
    if ps != [] {
      match FindImages(w, ps[0]) {
        case Matched(cs, _) => DryScanWritesNothing(w, s.rows, ps[0].id, cs, 0);
        case _ =>
      }
      DryRunWritesNothing(w, s, ps[1..]);
      assert RunOutcomes(w, true, s, ps)[1..] == RunOutcomes(w, true, s, ps[1..]);
    }
  }

  /** For product `p`, `later` knows exactly what `base` knows and has at least its conflicts. */
  ghost predicate SameForProduct(base: seq<Row>, later: seq<Row>, p: int) {
    forall c :: && (KnownApproved(base, p, c) <==> KnownApproved(later, p, c))
                && (ChecksumBelongsToOther(base, p, c) ==> ChecksumBelongsToOther(later, p, c))
  }

  lemma {:induction false} DryScanCovers(w: World, base: seq<Row>, later: seq<Row>, p: int, cs: seq<Candidate>, k: nat)
    requires k <= |cs| && SameForProduct(base, later, p)
    ensures var live, dry := Scan(w, false, later, p, cs, k), Scan(w, true, base, p, cs, k);
            live.Won? ==> dry.Won? && dry.rank <= live.rank
    decreases |cs| - k
  {
    if k < |cs| {
      DryScanCovers(w, base, later, p, cs, k + 1);
      ScanMeans(w, false, later, p, cs, k);
    }
  }

  /** `dry` approves whatever `real` approves, at the same or an earlier candidate. */
  ghost predicate Covers(dry: Outcome, live: Outcome) {
    live.state.RealImageApproved? ==>
      dry.state.RealImageApproved? && dry.rank.Some? && live.rank.Some? && dry.rank.value <= live.rank.value
  }

  lemma {:induction false} RealRunIsCovered(w: World, base: seq<Row>, s: Store, done: set<int>, ps: seq<Product>,
                                            i: nat)
    requires ExtendsBy(base, s.rows, done) && Ids(ps) !! done && DistinctIds(ps)
    requires i < |ps|
    ensures |RunOutcomes(w, false, s, ps)| == |ps|
    ensures RunOutcomes(w, false, s, ps)[i].product == ps[i].id
    ensures Covers(ProcessProduct(w, true, base, ps[i]), RunOutcomes(w, false, s, ps)[i])
    decreases |ps|
  {
    var o := ProcessProduct(w, false, s.rows, ps[0]);
    assert ps[0].id in Ids(ps);
    forall c ensures (KnownApproved(base, ps[0].id, c) <==> KnownApproved(s.rows, ps[0].id, c))
                     && (ChecksumBelongsToOther(base, ps[0].id, c) ==> ChecksumBelongsToOther(s.rows, ps[0].id, c)) {
      GrownFacts(base, s.rows, done, ps[0].id, c);
    }
    match FindImages(w, ps[0]) {
      case Matched(cs, _) => DryScanCovers(w, base, s.rows, ps[0].id, cs, 0);
      case _ =>
    }
    var t := ApplyAll(s, o.effects);
    assert RunOutcomes(w, false, s, ps)[1..] == RunOutcomes(w, false, t, ps[1..]);
    if |ps| > 1 {
      ProcessRows(w, false, s, ps[0]);
      ExtendsByTrans(base, s.rows, t.rows, done, {ps[0].id});
      RealRunIsCovered(w, base, t, done + {ps[0].id}, ps[1..], if i == 0 then 0 else i - 1);
    }
  }

  lemma {:induction false} SelectFacts(cfg: Config, rows: seq<Row>, catalog: seq<Product>)
    requires DistinctIds(catalog)
    ensures DistinctIds(SelectProducts(cfg, rows, catalog))
    ensures forall p :: p in SelectProducts(cfg, rows, catalog) <==> p in catalog && Selected(cfg, rows, p)
  {
    if catalog != [] {
      SelectFacts(cfg, rows, catalog[1..]);
      assert catalog == [catalog[0]] + catalog[1..];
      var rest := SelectProducts(cfg, rows, catalog[1..]);
      forall j | 0 <= j < |rest| ensures rest[j].id != catalog[0].id {
        assert rest[j] in catalog[1..];
      }
    }
  }

  /** Without a limit and with the same answers, every product that a real run approves is loaded
      and approved by a dry run from the same database, at the same or an earlier candidate. */
  lemma DryRunOverApproximates(w: World, cfg: Config, catalog: seq<Product>, s: Store, i: nat) returns (j: nat)
    requires DistinctIds(catalog) && cfg.limit.None? && !cfg.dryRun
    requires i < |LoadProducts(cfg, s.rows, catalog)|
    ensures var live := LoadProducts(cfg, s.rows, catalog);
            var dry := LoadProducts(cfg.(dryRun := true), s.rows, catalog);
            && j < |dry| && dry[j] == live[i]
            && |RunOutcomes(w, false, s, live)| == |live| && |RunOutcomes(w, true, s, dry)| == |dry|
            && Covers(RunOutcomes(w, true, s, dry)[j], RunOutcomes(w, false, s, live)[i])
  {
    var live := LoadProducts(cfg, s.rows, catalog);
    var dry := LoadProducts(cfg.(dryRun := true), s.rows, catalog);
    SelectFacts(cfg, s.rows, catalog);
    SelectFacts(cfg.(dryRun := true), s.rows, catalog);
    assert live[i] in live && live[i] in dry;
    j :| 0 <= j < |dry| && dry[j] == live[i];
    RealRunIsCovered(w, s.rows, s, {}, live, i);
    DryRunWritesNothing(w, s, dry);
  }

  // ---------- when the dry run predicts the real run exactly ----------

  /** The new checksum that a dry run would approve for a product, if any. */
  ghost function DryWinner(w: World, rows: seq<Row>, p: int, cs: seq<Candidate>, k: nat): Option<string>
    requires k <= |cs|
  {
    ScanMeans(w, true, rows, p, cs, k);
    match Scan(w, true, rows, p, cs, k)
    case Won(r) =>
      if Judge(w, true, rows, p, cs[r]) == Approve(DryRunWouldApprove)
      then Some(Inspect(w, rows, p, cs[r]).checksum) else None
    case _ => None
  }

  ghost function ProductDryWinner(w: World, rows: seq<Row>, p: Product): Option<string> {
    match FindImages(w, p)
    case Matched(cs, _) => DryWinner(w, rows, p.id, cs, 0)
    case _ => None
  }

  ghost predicate Agree(a: Outcome, b: Outcome) {
    a.state == b.state && a.rank == b.rank
  }

  /** `later` adds to `base` exactly the foreign checksums `ins`, as far as product `p` can tell. */
  ghost predicate ViewOf(base: seq<Row>, later: seq<Row>, p: int, ins: set<string>) {
    forall c :: && (KnownApproved(base, p, c) <==> KnownApproved(later, p, c))
                && (ChecksumBelongsToOther(later, p, c) <==> ChecksumBelongsToOther(base, p, c) || c in ins)
  }

  ghost predicate Storable(w: World, p: int, c: string) {
    Uploadable(w, p, c) && (p, c) !in w.unsaved
  }

  lemma JudgeExact(w: World, base: seq<Row>, later: seq<Row>, p: int, c: Candidate, ins: set<string>)
    requires ViewOf(base, later, p, ins)
    ensures var d, r, x := Judge(w, true, base, p, c), Judge(w, false, later, p, c), Inspect(w, base, p, c);
            && (d.Raise? ==> r.Raise?)
            && (d.Reject? ==> r.Reject?)
            && (d == Approve(AlreadyApproved) ==> r == Approve(AlreadyApproved))
            && (d.Approve? && d != Approve(AlreadyApproved) ==>
                  && d == Approve(DryRunWouldApprove) && x.Clear?
                  && (if Storable(w, p, x.checksum) && x.checksum !in ins
                      then r == Approve(AutoApproved) && Inspect(w, later, p, c) == x
                      else !r.Approve?))
  {
    var x := Process(SourceAt(w, c.url));
    if x.Processed? {
      assert KnownApproved(base, p, x.checksum) <==> KnownApproved(later, p, x.checksum);
    }
  }

  lemma {:induction false} ScanExact(w: World, base: seq<Row>, later: seq<Row>, p: int, cs: seq<Candidate>, k: nat,
                                     ins: set<string>)
    requires k <= |cs| && ViewOf(base, later, p, ins)
    ensures var d, r, c := Scan(w, true, base, p, cs, k), Scan(w, false, later, p, cs, k), DryWinner(w, base, p, cs, k);
            && (r == d <==> (c.Some? ==> Storable(w, p, c.value) && c.value !in ins))
            && (r == d <==> StateOf(r) == StateOf(d) && (d.Won? ==> r == d))
            && (r == d ==> Inserted(w, false, later, p, cs, k) == c)
    decreases |cs| - k
  {
    if k < |cs| {
      JudgeExact(w, base, later, p, cs[k], ins);
      if Judge(w, true, base, p, cs[k]).Reject? {
        ScanExact(w, base, later, p, cs, k + 1, ins);
      } else {
        ScanMeans(w, false, later, p, cs, k);
      }
    }
  }

  lemma ProductExact(w: World, base: seq<Row>, later: seq<Row>, p: Product, ins: set<string>)
    requires ViewOf(base, later, p.id, ins)
    ensures var c := ProductDryWinner(w, base, p);
            && (Agree(ProcessProduct(w, false, later, p), ProcessProduct(w, true, base, p))
                <==> (c.Some? ==> Storable(w, p.id, c.value) && c.value !in ins))
            && (Agree(ProcessProduct(w, false, later, p), ProcessProduct(w, true, base, p)) ==>
                ProductInsert(w, false, later, p) == c)
  {
    match FindImages(w, p) {
      case Matched(cs, _) =>
        ScanExact(w, base, later, p.id, cs, 0, ins);
        ScanMeans(w, true, base, p.id, cs, 0);
        ScanMeans(w, false, later, p.id, cs, 0);
      case _ =>
    }
  }

  /** The dry winners are pairwise different, new to `ins`, and can be uploaded and saved. */
  ghost predicate WinnersFresh(w: World, base: seq<Row>, ps: seq<Product>, ins: set<string>)
    decreases |ps|
  {
    ps == [] ||
    var c := ProductDryWinner(w, base, ps[0]);
    && (c.Some? ==> Storable(w, ps[0].id, c.value) && c.value !in ins)
    && WinnersFresh(w, base, ps[1..], if c.Some? then ins + {c.value} else ins)
  }

  lemma ViewAfterInsert(base: seq<Row>, rows: seq<Row>, q: int, c: Option<string>, p: int, ins: set<string>)
    requires ViewOf(base, rows, p, ins) && p != q
    ensures ViewOf(base, AfterInsert(rows, q, c), p, if c.Some? then ins + {c.value} else ins)
  {
    if c.Some? {
      var later := AfterInsert(rows, q, c);
      assert Foreign(later[|rows|], p, c.value);
      forall x ensures (KnownApproved(base, p, x) <==> KnownApproved(later, p, x))
                       && (ChecksumBelongsToOther(later, p, x)
                           <==> ChecksumBelongsToOther(base, p, x) || x in ins + {c.value}) {
        assert forall i :: 0 <= i < |rows| ==> SameFacts(rows[i], later[i]);
        GrownFacts(rows, later, {q}, p, x);
        if i :| 0 <= i < |later| && Foreign(later[i], p, x) {
          assert i < |rows| ==> Foreign(rows[i], p, x);
        }
      }
    }
  }

  lemma {:induction false} RunExact(w: World, base: seq<Row>, s: Store, ps: seq<Product>, ins: set<string>)
    requires DistinctIds(ps) && forall i :: 0 <= i < |ps| ==> ViewOf(base, s.rows, ps[i].id, ins)
    ensures |RunOutcomes(w, false, s, ps)| == |ps|
    ensures (forall i :: 0 <= i < |ps| ==> Agree(RunOutcomes(w, false, s, ps)[i], ProcessProduct(w, true, base, ps[i])))
            <==> WinnersFresh(w, base, ps, ins)
    decreases |ps|
  {
    RunLength(w, false, s, ps);
    if ps != [] {
      var o, c := ProcessProduct(w, false, s.rows, ps[0]), ProductDryWinner(w, base, ps[0]);
      var t, live := ApplyAll(s, o.effects), RunOutcomes(w, false, s, ps);
      var rest := RunOutcomes(w, false, t, ps[1..]);
      assert live == [o] + rest;
      ProductExact(w, base, s.rows, ps[0], ins);
      if Agree(o, ProcessProduct(w, true, base, ps[0])) {
        ProcessRows(w, false, s, ps[0]);
        forall i | 0 <= i < |ps[1..]|
          ensures ViewOf(base, t.rows, ps[1..][i].id, if c.Some? then ins + {c.value} else ins)
        {
          assert ps[1..][i] == ps[i + 1];
          ViewAfterInsert(base, s.rows, ps[0].id, c, ps[i + 1].id, ins);
        }
        RunExact(w, base, t, ps[1..], if c.Some? then ins + {c.value} else ins);
        AgreeTail(w, base, live, rest, ps);
      } else {
        assert !Agree(live[0], ProcessProduct(w, true, base, ps[0]));
      }
    }
  }

  lemma AgreeTail(w: World, base: seq<Row>, live: seq<Outcome>, rest: seq<Outcome>, ps: seq<Product>)
    requires ps != [] && |live| == |ps| && rest == live[1..] && Agree(live[0], ProcessProduct(w, true, base, ps[0]))
    ensures (forall i :: 0 <= i < |ps| ==> Agree(live[i], ProcessProduct(w, true, base, ps[i])))
            <==> (forall i :: 0 <= i < |ps[1..]| ==> Agree(rest[i], ProcessProduct(w, true, base, ps[1..][i])))
  {
    if forall i :: 0 <= i < |ps[1..]| ==> Agree(rest[i], ProcessProduct(w, true, base, ps[1..][i])) {
      forall i | 0 <= i < |ps| ensures Agree(live[i], ProcessProduct(w, true, base, ps[i])) {
        if i > 0 { assert rest[i - 1] == live[i] && ps[1..][i - 1] == ps[i]; }
      }
    }
    if forall i :: 0 <= i < |ps| ==> Agree(live[i], ProcessProduct(w, true, base, ps[i])) {
      forall i | 0 <= i < |ps[1..]| ensures Agree(rest[i], ProcessProduct(w, true, base, ps[1..][i])) {
        assert rest[i] == live[i + 1] && ps[1..][i] == ps[i + 1];
      }
    }
  }

  lemma {:induction false} RunLength(w: World, dry: bool, s: Store, ps: seq<Product>)
    ensures |RunOutcomes(w, dry, s, ps)| == |ps|
    decreases |ps|
  {
    if ps != [] { RunLength(w, dry, ApplyAll(s, ProcessProduct(w, dry, s.rows, ps[0]).effects), ps[1..]); }
  }

  /** The dry run predicts every verdict of the real run, winner included, exactly when the new
      checksums it would approve are pairwise different and all their uploads and saves go through. */
  lemma DryRunIsExactIff(w: World, s: Store, ps: seq<Product>)
    requires DistinctIds(ps)
    ensures |RunOutcomes(w, false, s, ps)| == |RunOutcomes(w, true, s, ps)| == |ps|
    ensures (forall i :: 0 <= i < |ps| ==> Agree(RunOutcomes(w, false, s, ps)[i], RunOutcomes(w, true, s, ps)[i]))
            <==> WinnersFresh(w, s.rows, ps, {})
  {
    RunExact(w, s.rows, s, ps, {});
    DryRunWritesNothing(w, s, ps);
  }

  /** One of the product's candidates decodes to this checksum. */
  ghost predicate Offers(w: World, p: Product, c: string) {
    && FindImages(w, p).Matched?
    && exists k :: 0 <= k < |FindImages(w, p).candidates|
        && Process(SourceAt(w, FindImages(w, p).candidates[k].url)).Processed?
                   && Process(SourceAt(w, FindImages(w, p).candidates[k].url)).checksum == c
  }

  ghost predicate NoOverlap(w: World, ps: seq<Product>) {
    forall i, j, c :: 0 <= i < |ps| && 0 <= j < |ps| && i != j && Offers(w, ps[i], c) ==> !Offers(w, ps[j], c)
  }

  lemma WinnerIsOffered(w: World, rows: seq<Row>, p: Product)
    requires ProductDryWinner(w, rows, p).Some?
    ensures Offers(w, p, ProductDryWinner(w, rows, p).value)
  {
    var cs := FindImages(w, p).candidates;
    ScanMeans(w, true, rows, p.id, cs, 0);
    var r := Scan(w, true, rows, p.id, cs, 0).rank;
    assert Inspect(w, rows, p.id, cs[r]).Clear?;
  }

  lemma {:induction false} DisjointWinnersAreFresh(w: World, base: seq<Row>, ps: seq<Product>, ins: set<string>)
    requires NoOverlap(w, ps) && w.refused == {} && w.unsaved == {}
    requires forall i, c :: 0 <= i < |ps| && c in ins ==> !Offers(w, ps[i], c)
    ensures WinnersFresh(w, base, ps, ins)
    decreases |ps|
  {
    if ps != [] {
      var c := ProductDryWinner(w, base, ps[0]);
      if c.Some? { WinnerIsOffered(w, base, ps[0]); }
      var ins' := if c.Some? then ins + {c.value} else ins;
      forall i, x | 0 <= i < |ps[1..]| && x in ins' ensures !Offers(w, ps[1..][i], x) {
        assert ps[1..][i] == ps[i + 1];
      }
      forall i, j, x | 0 <= i < |ps[1..]| && 0 <= j < |ps[1..]| && i != j && Offers(w, ps[1..][i], x)
          ensures !Offers(w, ps[1..][j], x) {
        assert ps[1..][i] == ps[i + 1] && ps[1..][j] == ps[j + 1];
      }
      DisjointWinnersAreFresh(w, base, ps[1..], ins');
    }
  }

  /** In particular it is exact when no two products offer the same image and every upload and save goes through. */
  lemma DryRunPredictsRealRun(w: World, s: Store, ps: seq<Product>, i: nat)
    requires DistinctIds(ps) && NoOverlap(w, ps) && w.refused == {} && w.unsaved == {} && i < |ps|
    ensures |RunOutcomes(w, false, s, ps)| == |RunOutcomes(w, true, s, ps)| == |ps|
    ensures Agree(RunOutcomes(w, false, s, ps)[i], RunOutcomes(w, true, s, ps)[i])
  {
    DisjointWinnersAreFresh(w, s.rows, ps, {});
    DryRunIsExactIff(w, s, ps);
  }
}
