/** What one run of the image pipeline does, as functions of the world it talks to. */
module PipelineSpec {
  import opened Basics
  import opened CatalogStore
  import opened Icecat

  const MIN_DIMENSION := 600

  datatype Product = Product(id: int, category: string, brand: string, mpn: string, gtin: Option<string>,
                             approved: bool)

  /** What download and decoding make of a URL. */
  datatype Source =
    | DownloadRaises
    | NotAnImage                                          // ValueError: undecodable or animated
    | DecoderRaises                                       // any other exception
    | Decoded(width: int, height: int, checksum: string)

  /** Everything outside the database, deterministic within a run.
      A key missing from a map means that the call fails. */
  datatype World = World(
    configured: bool,
    byGtin: map<string, Http>,
    byBrandMpn: map<(string, string), Http>,
    sources: map<string, Source>,
    refused: set<ObjectKey>,
    unsaved: set<(int, string)>)  // product and checksum for which demoting, inserting or committing raises

  datatype Config = Config(
    dryRun: bool,
    limit: Option<nat>,
    category: Option<string>,
    productId: Option<int>,
    forceRefresh: bool)

  datatype FinalState =
    | RealImageApproved | PlaceholderActive | SourceLocked | NoExactMatch
    | IdentityConflict | ImageRejected | RetryableFailure

  datatype MatchMethod = ExactGtin | ExactBrandMpn

  datatype Found = FindRaises | Locked | NotFound | Matched(candidates: seq<Candidate>, how: MatchMethod)

  function GtinReply(w: World, gtin: string): Data {
    Fetch(if gtin in w.byGtin then w.byGtin[gtin] else RequestFailed)
  }

  function BrandMpnReply(w: World, p: Product): Data {
    Fetch(if (p.brand, p.mpn) in w.byBrandMpn then w.byBrandMpn[(p.brand, p.mpn)] else RequestFailed)
  }

  function FindByBrandMpn(w: World, p: Product): Found {
    match BrandMpnReply(w, p)
    case LiteralFalse => Locked
    case Malformed => FindRaises
    case Falsy => NotFound
    case Record(b, m, g) =>
      var cs := RankedImages(Record(b, m, g));
      if cs != [] then Matched(cs, ExactBrandMpn) else NotFound
  }

  /** `_find_icecat_images`: GTIN first, then brand and part number. */
  function FindImages(w: World, p: Product): Found {
    if !w.configured then NotFound
    else if Truthy(p.gtin).None? then FindByBrandMpn(w, p)
    else
      match GtinReply(w, p.gtin.value)
      case LiteralFalse => Locked
      case Malformed => FindRaises
      case Falsy => FindByBrandMpn(w, p)
      case Record(b, m, g) =>
        var cs := RankedImages(Record(b, m, g));
        if cs != [] then Matched(cs, ExactGtin) else FindByBrandMpn(w, p)
  }

  datatype Reason =
    | DownloadFailed | InvalidImage | BelowMinDimension | AlreadyApproved | ChecksumConflict
    | IncompleteSourceMetadata | DryRunWouldApprove | GcsUploadFailed | AutoApproved

  datatype Processing =
    | ProcessRejects(reason: Reason)
    | ProcessRaises
    | Processed(width: int, height: int, checksum: string)

  function SourceAt(w: World, url: string): Source {
    if url in w.sources then w.sources[url] else DownloadRaises
  }

  /** `_download_source` followed by `_process_image`. */
  function Process(s: Source): Processing {
    match s
    case DownloadRaises => ProcessRejects(DownloadFailed)
    case NotAnImage => ProcessRejects(InvalidImage)
    case DecoderRaises => ProcessRaises
    case Decoded(width, height, checksum) =>
      if width < MIN_DIMENSION || height < MIN_DIMENSION then ProcessRejects(BelowMinDimension)
      else Processed(width, height, checksum)
  }

  /** `_passes_auto_approval`: the reason code, AutoApproved exactly when it passes. */
  function PassesAutoApproval(width: int, height: int, c: Candidate, conflict: bool): Reason {
    if conflict then ChecksumConflict
    else if width < MIN_DIMENSION || height < MIN_DIMENSION then BelowMinDimension
    else if c.brand == "" || c.mpn == "" then IncompleteSourceMetadata
    else AutoApproved
  }

  /** What the checks before any write say about a candidate. */
  datatype Inspection = Unusable(reason: Reason) | Explosion | Known(checksum: string) | Clear(checksum: string)

  function Inspect(w: World, rows: seq<Row>, p: int, c: Candidate): Inspection {
    match Process(SourceAt(w, c.url))
    case ProcessRejects(reason) => Unusable(reason)
    case ProcessRaises => Explosion
    case Processed(width, height, checksum) =>
      if KnownApproved(rows, p, checksum) then Known(checksum)
      else
        var reason := PassesAutoApproval(width, height, c, ChecksumBelongsToOther(rows, p, checksum));
        if reason == AutoApproved then Clear(checksum) else Unusable(reason)
  }

  predicate Uploadable(w: World, p: int, c: string) {
    forall v :: ObjectKey(p, c, v) !in w.refused
  }

  function ApprovedRow(p: int, c: string): Row {
    Row(p, Some(c), Approved, true, Some(ObjectKey(p, c, Card)))
  }

  /** The uploads that succeed: card, summary, detail, stopping at the first refusal. */
  function UploadEffects(w: World, p: int, c: string): seq<Effect> {
    if ObjectKey(p, c, Card) in w.refused then []
    else if ObjectKey(p, c, Summary) in w.refused then [Upload(ObjectKey(p, c, Card))]
    else if ObjectKey(p, c, Detail) in w.refused then [Upload(ObjectKey(p, c, Card)), Upload(ObjectKey(p, c, Summary))]
    else [Upload(ObjectKey(p, c, Card)), Upload(ObjectKey(p, c, Summary)), Upload(ObjectKey(p, c, Detail))]
  }

  /** The demote, insert and commit block, reached when all three uploads went through. */
  function SaveEffects(w: World, p: int, c: string): seq<Effect> {
    if !Uploadable(w, p, c) then []
    else if (p, c) in w.unsaved then [Rollback(p)]
    else [Demote(p), Insert(ApprovedRow(p, c))]
  }

  datatype Judgement = Approve(reason: Reason) | Reject(reason: Reason) | Raise

  function Judge(w: World, dry: bool, rows: seq<Row>, p: int, c: Candidate): Judgement {
    match Inspect(w, rows, p, c)
    case Unusable(reason) => Reject(reason)
    case Explosion => Raise
    case Known(_) => Approve(AlreadyApproved)
    case Clear(checksum) =>
      if dry then Approve(DryRunWouldApprove)
      else if !Uploadable(w, p, checksum) then Reject(GcsUploadFailed)
      else if (p, checksum) in w.unsaved then Raise
      else Approve(AutoApproved)
  }

  function AttemptEffects(w: World, dry: bool, rows: seq<Row>, p: int, c: Candidate): seq<Effect> {
    match Inspect(w, rows, p, c)
    case Clear(checksum) =>
      if dry then []
      else UploadEffects(w, p, checksum) + SaveEffects(w, p, checksum)
    case _ => []
  }

  datatype Scanned = Won(rank: nat) | Lost | Raised(rank: nat)

  /** The candidate loop from position `k`: the first approval wins and an exception ends it. */
  function Scan(w: World, dry: bool, rows: seq<Row>, p: int, cs: seq<Candidate>, k: nat): Scanned
    requires k <= |cs|
    decreases |cs| - k
  {
    if k == |cs| then Lost
    else match Judge(w, dry, rows, p, cs[k])
      case Approve(_) => Won(k)
      case Raise => Raised(k)
      case Reject(_) => Scan(w, dry, rows, p, cs, k + 1)
  }

  function ScanEffects(w: World, dry: bool, rows: seq<Row>, p: int, cs: seq<Candidate>, k: nat): seq<Effect>
    requires k <= |cs|
    decreases |cs| - k
  {
    if k == |cs| then []
    else AttemptEffects(w, dry, rows, p, cs[k])
         + if Judge(w, dry, rows, p, cs[k]).Reject? then ScanEffects(w, dry, rows, p, cs, k + 1) else []
  }

  /** What became of one product, with the writes made for it. */
  datatype Outcome = Outcome(product: int, state: FinalState, how: Option<MatchMethod>, rank: Option<nat>,
                             effects: seq<Effect>)

  function StateOf(s: Scanned): FinalState {
    match s
    case Won(_) => RealImageApproved
    case Lost => ImageRejected
    case Raised(_) => RetryableFailure
  }

  /** `_process_product` with the exception handler of `run` around it. */
  function ProcessProduct(w: World, dry: bool, rows: seq<Row>, p: Product): Outcome {
    match FindImages(w, p)
    case FindRaises => Outcome(p.id, RetryableFailure, None, None, [])
    case Locked => Outcome(p.id, SourceLocked, None, None, [])
    case NotFound => Outcome(p.id, NoExactMatch, None, None, [])
    case Matched(cs, how) =>
      var s := Scan(w, dry, rows, p.id, cs, 0);
      Outcome(p.id, StateOf(s), Some(how), if s.Won? then Some(s.rank) else None,
              ScanEffects(w, dry, rows, p.id, cs, 0))
  }

  /** The run over the loaded products, each seeing what the previous ones wrote. */
  function RunOutcomes(w: World, dry: bool, s: Store, ps: seq<Product>): seq<Outcome>
    decreases |ps|
  {
    if ps == [] then []
    else
      var o := ProcessProduct(w, dry, s.rows, ps[0]);
      [o] + RunOutcomes(w, dry, ApplyAll(s, o.effects), ps[1..])
  }

  function Writes(os: seq<Outcome>): seq<Effect> {
    if os == [] then [] else os[0].effects + Writes(os[1..])
  }

  function RunStore(w: World, dry: bool, s: Store, ps: seq<Product>): Store {
    ApplyAll(s, Writes(RunOutcomes(w, dry, s, ps)))
  }

  predicate AlreadyDone(rows: seq<Row>, p: int) {
    exists i :: 0 <= i < |rows| && rows[i].product == p && rows[i].isPrimary && rows[i].review.Approved?
  }

  predicate Selected(cfg: Config, rows: seq<Row>, p: Product) {
    && p.approved
    && (cfg.productId.Some? ==> p.id == cfg.productId.value)
    && (Truthy(cfg.category).Some? ==> p.category == cfg.category.value)
    && (!cfg.forceRefresh && !cfg.dryRun ==> !AlreadyDone(rows, p.id))
  }

  function SelectProducts(cfg: Config, rows: seq<Row>, catalog: seq<Product>): seq<Product> {
    if catalog == [] then []
    else (if Selected(cfg, rows, catalog[0]) then [catalog[0]] else []) + SelectProducts(cfg, rows, catalog[1..])
  }

  /** `_load_products` over the product table in (category, id) order; a limit of 0 is no limit. */
  function LoadProducts(cfg: Config, rows: seq<Row>, catalog: seq<Product>): seq<Product> {
    var ps := SelectProducts(cfg, rows, catalog);
    if cfg.limit.Some? && 0 < cfg.limit.value < |ps| then ps[..cfg.limit.value] else ps
  }

  predicate DistinctIds(ps: seq<Product>) {
    forall i, j :: 0 <= i < j < |ps| ==> ps[i].id != ps[j].id
  }

  datatype ProductResult = ProductResult(productId: int, state: FinalState, matchMethod: Option<MatchMethod>)

  /** The report entry; the exception handler of `run` builds one without a match method. */
  function ResultOf(o: Outcome): ProductResult {
    ProductResult(o.product, o.state, if o.state.RetryableFailure? then None else o.how)
  }

  /** The counters and results of `PipelineReport`. */
  datatype Report = Report(
    productsScanned: nat,
    gtinMatches: nat,
    brandMpnMatches: nat,
    lockedRecords: nat,
    noExactMatch: nat,
    identityConflicts: nat,
    rejectedImages: nat,
    realImagesApproved: nat,
    placeholderActive: nat,
    retryableFailures: nat,
    cardUploads: nat,
    summaryUploads: nat,
    detailUploads: nat,
    results: seq<ProductResult>)

  const EMPTY_REPORT := Report(0, 0, 0, 0, 0, 0, 0, 0, 0, 0, 0, 0, 0, [])

  function CountUploads(es: seq<Effect>, v: Variant): nat {
    if es == [] then 0
    else (if es[0].Upload? && es[0].key.variant == v then 1 else 0) + CountUploads(es[1..], v)
  }

  function AddUploads(r: Report, es: seq<Effect>): Report {
    r.(cardUploads := r.cardUploads + CountUploads(es, Card),
       summaryUploads := r.summaryUploads + CountUploads(es, Summary),
       detailUploads := r.detailUploads + CountUploads(es, Detail))
  }

  function AddMatch(r: Report, how: Option<MatchMethod>): Report {
    match how
    case None => r
    case Some(ExactGtin) => r.(gtinMatches := r.gtinMatches + 1)
    case Some(ExactBrandMpn) => r.(brandMpnMatches := r.brandMpnMatches + 1)
  }

  /** The counters bumped inside `_process_product` and in the exception handler of `run`. */
  function AddState(r: Report, s: FinalState): Report {
    match s
    case SourceLocked => r.(lockedRecords := r.lockedRecords + 1)
    case NoExactMatch => r.(noExactMatch := r.noExactMatch + 1)
    case ImageRejected => r.(rejectedImages := r.rejectedImages + 1)
    case RetryableFailure => r.(retryableFailures := r.retryableFailures + 1)
    case _ => r
  }

  /** `_tally`, which bumps `rejected_images` a second time. */
  function Tally(r: Report, s: FinalState): Report {
    match s
    case RealImageApproved => r.(realImagesApproved := r.realImagesApproved + 1)
    case PlaceholderActive | NoExactMatch | SourceLocked => r.(placeholderActive := r.placeholderActive + 1)
    case IdentityConflict => r.(identityConflicts := r.identityConflicts + 1)
    case ImageRejected => r.(rejectedImages := r.rejectedImages + 1)
    case RetryableFailure => r
  }

  /** Everything one product adds to the report. */
  function AddOutcome(r: Report, o: Outcome): Report {
    var counted := AddState(AddUploads(AddMatch(r, o.how), o.effects), o.state);
    Tally(counted.(results := counted.results + [ResultOf(o)]), o.state)
  }

  function AddOutcomes(r: Report, os: seq<Outcome>): Report
    decreases |os|
  {
    if os == [] then r else AddOutcomes(AddOutcome(r, os[0]), os[1..])
  }
}
