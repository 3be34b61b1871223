/** The batch engine itself: loops that update the report, the image rows and the object store in place. */
module Pipeline {
  import opened Basics
  import opened CatalogStore
  import opened Icecat
  import opened PipelineSpec
  import opened IntakeLaws

  lemma {:induction false} CountUploadsAppend(a: seq<Effect>, b: seq<Effect>, v: Variant)
    ensures CountUploads(a + b, v) == CountUploads(a, v) + CountUploads(b, v)
  {
    if a == [] {
      assert a + b == b;
    } else {
      assert (a + b)[1..] == a[1..] + b;
      CountUploadsAppend(a[1..], b, v);
    }
  }

  lemma AddUploadsAppend(r: Report, a: seq<Effect>, b: seq<Effect>)
    ensures AddUploads(AddUploads(r, a), b) == AddUploads(r, a + b)
  {
    CountUploadsAppend(a, b, Card);
    CountUploadsAppend(a, b, Summary);
    CountUploadsAppend(a, b, Detail);
  }

  lemma UploadableMeans(w: World, p: int, c: string)
    ensures Uploadable(w, p, c) <==>
            ObjectKey(p, c, Card) !in w.refused && ObjectKey(p, c, Summary) !in w.refused
                && ObjectKey(p, c, Detail) !in w.refused
  {
    if ObjectKey(p, c, Card) !in w.refused && ObjectKey(p, c, Summary) !in w.refused
        && ObjectKey(p, c, Detail) !in w.refused {
      forall v: Variant ensures ObjectKey(p, c, v) !in w.refused {
        match v { case Card => case Summary => case Detail => }
      }
    }
  }

  /** What the engine has written and counted so far. */
  datatype Progress = Progress(store: Store, log: seq<Effect>, report: Report)

  /** From `a` to `b` exactly the writes `es` were made, and only the upload counters moved. */
  ghost predicate Advances(a: Progress, b: Progress, es: seq<Effect>) {
    && b.store == ApplyAll(a.store, es)
    && b.log == a.log + es
    && b.report == AddUploads(a.report, es)
  }

  lemma AdvancesThen(a: Progress, b: Progress, c: Progress, es: seq<Effect>, fs: seq<Effect>)
    requires Advances(a, b, es) && Advances(b, c, fs)
    ensures Advances(a, c, es + fs)
  {
    ApplyAppend(a.store, es, fs);
    AddUploadsAppend(a.report, es, fs);
  }

  lemma AdvancesOne(a: Progress, b: Progress, e: Effect)
    requires b.store == Apply(a.store, e) && b.log == a.log + [e]
    requires b.report == match e
                         case Upload(ObjectKey(_, _, Card)) => a.report.(cardUploads := a.report.cardUploads + 1)
                         case Upload(ObjectKey(_, _, Summary)) =>
                           a.report.(summaryUploads := a.report.summaryUploads + 1)
                         case Upload(ObjectKey(_, _, Detail)) => a.report.(detailUploads := a.report.detailUploads + 1)
                         case _ => a.report
    ensures Advances(a, b, [e])
  {
    assert [e][1..] == [];
    forall v ensures CountUploads([e], v) == if e.Upload? && e.key.variant == v then 1 else 0 {
    }
  }

  /** The first `k` candidates were rejected, writing `done`. */
  ghost predicate ScannedSoFar(w: World, dry: bool, rows: seq<Row>, p: int, cs: seq<Candidate>, k: nat,
                               done: seq<Effect>)
    requires k <= |cs|
  {
    && Scan(w, dry, rows, p, cs, 0) == Scan(w, dry, rows, p, cs, k)
    && ScanEffects(w, dry, rows, p, cs, 0) == done + ScanEffects(w, dry, rows, p, cs, k)
  }

  lemma ScanStep(w: World, dry: bool, rows: seq<Row>, p: int, cs: seq<Candidate>, k: nat, done: seq<Effect>)
    returns (next: seq<Effect>)
    requires k < |cs| && ScannedSoFar(w, dry, rows, p, cs, k, done)
    ensures next == done + AttemptEffects(w, dry, rows, p, cs[k])
    ensures var j := Judge(w, dry, rows, p, cs[k]);
            if j.Reject? then ScannedSoFar(w, dry, rows, p, cs, k + 1, next)
            else && ScanEffects(w, dry, rows, p, cs, 0) == next
                 && Scan(w, dry, rows, p, cs, 0) == if j.Approve? then Won(k) else Raised(k)
  {
    var here := AttemptEffects(w, dry, rows, p, cs[k]);
    var rest := if Judge(w, dry, rows, p, cs[k]).Reject? then ScanEffects(w, dry, rows, p, cs, k + 1) else [];
    next := done + here;
    assert done + (here + rest) == next + rest;
  }

  /** From `a` to `b` exactly the outcomes `os` were written and reported. */
  ghost predicate Recorded(a: Progress, b: Progress, os: seq<Outcome>) {
    && b.store == ApplyAll(a.store, Writes(os))
    && b.log == a.log + Writes(os)
    && b.report == AddOutcomes(a.report, os)
  }

  lemma RecordedThen(a: Progress, b: Progress, c: Progress, os: seq<Outcome>, o: Outcome)
    requires Recorded(a, b, os)
    requires c.store == ApplyAll(b.store, o.effects) && c.log == b.log + o.effects
        && c.report == AddOutcome(b.report, o)
    ensures Recorded(a, c, os + [o])
  {
    WritesSnoc(os, o);
    ApplyAppend(a.store, Writes(os), o.effects);
    assert (a.log + Writes(os)) + o.effects == a.log + (Writes(os) + o.effects);
    AddOutcomesAppend(a.report, os, o);
  }

  lemma RunStep(w: World, dry: bool, s: Store, ps: seq<Product>, n: nat, all: seq<Outcome>, done: seq<Outcome>)
    returns (next: seq<Outcome>)
    requires n < |ps| && all == done + RunOutcomes(w, dry, s, ps[n..])
    ensures var o := ProcessProduct(w, dry, s.rows, ps[n]);
            && next == done + [o]
            && all == next + RunOutcomes(w, dry, ApplyAll(s, o.effects), ps[n + 1..])
  {
    var o := ProcessProduct(w, dry, s.rows, ps[n]);
    next := done + [o];
    assert ps[n..][1..] == ps[n + 1..];
    assert done + ([o] + RunOutcomes(w, dry, ApplyAll(s, o.effects), ps[n + 1..]))
        == next + RunOutcomes(w, dry, ApplyAll(s, o.effects), ps[n + 1..]);
  }

  class AutomatedImagePipeline {
    const world: World
    const config: Config
    const catalog: seq<Product>  // the product table, in (category, id) order
    var rows: seq<Row>
    var objects: set<ObjectKey>
    var report: Report
    ghost var log: seq<Effect>   // every write so far, in order

    constructor (world: World, config: Config, catalog: seq<Product>, rows: seq<Row>, objects: set<ObjectKey>)
      ensures this.world == world && this.config == config && this.catalog == catalog
      ensures Now() == Progress(Store(rows, objects), [], EMPTY_REPORT)
    {
      this.world, this.config, this.catalog := world, config, catalog;
      this.rows, this.objects := rows, objects;
      report := EMPTY_REPORT;
      log := [];
    }

    ghost function Now(): Progress
      reads this
    {
      Progress(Store(rows, objects), log, report)
    }

    /** `upload_object`: raises (here: returns false) when the store refuses the key. */
    method UploadObject(key: ObjectKey) returns (ok: bool)
      modifies this`objects, this`log
      ensures ok == (key !in world.refused)
      ensures log == old(log) + if ok then [Upload(key)] else []
      ensures objects == old(objects) + if ok then {key} else {}
    {
      ok := key !in world.refused;
      if ok {
        objects := objects + {key};
        log := log + [Upload(key)];
      }
    }

    /** Upload one variant and count it. */
    method UploadVariant(key: ObjectKey) returns (ok: bool)
      modifies this`objects, this`log, this`report
      ensures ok == (key !in world.refused)
      ensures Advances(old(Now()), Now(), if ok then [Upload(key)] else [])
    {
      ok := UploadObject(key);
      if ok {
        match key.variant {
          case Card => report := report.(cardUploads := report.cardUploads + 1);
          case Summary => report := report.(summaryUploads := report.summaryUploads + 1);
          case Detail => report := report.(detailUploads := report.detailUploads + 1);
        }
        AdvancesOne(old(Now()), Now(), Upload(key));
      }
    }

    method UploadVariants(p: int, c: string) returns (ok: bool)
      modifies this`objects, this`log, this`report
      ensures ok == Uploadable(world, p, c)
      ensures Advances(old(Now()), Now(), UploadEffects(world, p, c))
    {
      var card, summary, detail := ObjectKey(p, c, Card), ObjectKey(p, c, Summary), ObjectKey(p, c, Detail);
      UploadableMeans(world, p, c);
      ok := UploadVariant(card);
      if !ok { return; }
      ghost var one := Now();
      ok := UploadVariant(summary);
      AdvancesThen(old(Now()), one, Now(), [Upload(card)], if ok then [Upload(summary)] else []);
      if !ok {
        assert [Upload(card)] + [] == UploadEffects(world, p, c);
        return;
      }
      ghost var two := Now();
      ok := UploadVariant(detail);
      AdvancesThen(old(Now()), two, Now(), [Upload(card)] + [Upload(summary)], if ok then [Upload(detail)] else []);
      assert [Upload(card)] + [Upload(summary)] + (if ok then [Upload(detail)] else []) == UploadEffects(world, p, c);
    }

    method DemoteExistingPrimary(p: int)
      modifies this`rows, this`log
      ensures Advances(old(Now()), Now(), [Demote(p)])
    {
      for i := 0 to |rows|
        invariant log == old(log) && |rows| == |old(rows)|
        invariant forall j :: 0 <= j < i ==> rows[j] == DemoteRow(old(rows)[j], p)
        invariant forall j :: i <= j < |rows| ==> rows[j] == old(rows)[j]
      {
        if rows[i].product == p && rows[i].isPrimary {
          rows := rows[i := rows[i].(isPrimary := false)];
        }
      }
      assert rows == Demoted(old(rows), p);
      log := log + [Demote(p)];
      AdvancesOne(old(Now()), Now(), Demote(p));
    }

    method SaveImageRecord(p: int, c: string, cardKey: ObjectKey)
      modifies this`rows, this`log
      ensures Advances(old(Now()), Now(), [Insert(Row(p, Some(c), Approved, true, Some(cardKey)))])
    {
      var img := Row(p, Some(c), Approved, true, Some(cardKey));
      rows := rows + [img];
      log := log + [Insert(img)];
      AdvancesOne(old(Now()), Now(), Insert(img));
    }

    /** Demote, save and commit; false when one of them raises, which leaves the committed rows. */
    method ReplacePrimary(p: int, c: string) returns (saved: bool)
      requires Uploadable(world, p, c)
      modifies this`rows, this`log
      ensures saved == ((p, c) !in world.unsaved)
      ensures Advances(old(Now()), Now(), SaveEffects(world, p, c))
    {
      if (p, c) in world.unsaved {
        log := log + [Rollback(p)];
        AdvancesOne(old(Now()), Now(), Rollback(p));
        return false;
      }
      DemoteExistingPrimary(p);
      ghost var demoted := Now();
      SaveImageRecord(p, c, ObjectKey(p, c, Card));
      AdvancesThen(old(Now()), demoted, Now(), [Demote(p)], [Insert(ApprovedRow(p, c))]);
      assert [Demote(p)] + [Insert(ApprovedRow(p, c))] == SaveEffects(world, p, c);
      return true;
    }

    method AttemptImage(p: int, c: Candidate) returns (j: Judgement)
      modifies this
      ensures j == Judge(world, config.dryRun, old(rows), p, c)
      ensures Advances(old(Now()), Now(), AttemptEffects(world, config.dryRun, old(rows), p, c))
      ensures j.Reject? ==> rows == old(rows)
    {
      var processed := Process(SourceAt(world, c.url));
      match processed {
        case ProcessRejects(reason) => return Reject(reason);
        case ProcessRaises => return Raise;
        case Processed(width, height, checksum) =>
          var existing := ExistingImage(rows, p, checksum);
          if existing.Some? && existing.value.review.Approved? {
            return Approve(AlreadyApproved);
          }
          var conflict := ChecksumBelongsToOther(rows, p, checksum);
          var reason := PassesAutoApproval(width, height, c, conflict);
          if reason != AutoApproved {
            return Reject(reason);
          }
          if config.dryRun {
            return Approve(DryRunWouldApprove);
          }
          var uploaded := UploadVariants(p, checksum);
          if !uploaded {
            assert UploadEffects(world, p, checksum) + SaveEffects(world, p, checksum)
                == UploadEffects(world, p, checksum);
            return Reject(GcsUploadFailed);
          }
          ghost var stored := Now();
          var saved := ReplacePrimary(p, checksum);
          AdvancesThen(old(Now()), stored, Now(), UploadEffects(world, p, checksum), SaveEffects(world, p, checksum));
          return if saved then Approve(AutoApproved) else Raise;
      }
    }

    /** `_find_icecat_images` with its match counters; FindRaises stands for an escaping exception. */
    method FindIcecatImages(p: Product) returns (f: Found)
      modifies this`report
      ensures f == FindImages(world, p)
      ensures f.Matched? && f.how == ExactGtin <==> GtinHits(world, p)
      ensures f.Matched? && f.how == ExactBrandMpn <==> BrandMpnHits(world, p)
      ensures report == AddMatch(old(report), if f.Matched? then Some(f.how) else None)
    {
      FoundIff(world, p);
      if !world.configured { return NotFound; }
      if Truthy(p.gtin).Some? {
        var data := GtinReply(world, p.gtin.value);
        if data.LiteralFalse? { return Locked; }
        if data.Malformed? { return FindRaises; }
        if data.Record? {
          var records := ExtractImages(data);
          if records != [] {
            report := report.(gtinMatches := report.gtinMatches + 1);
            return Matched(records, ExactGtin);
          }
        }
      }
      var data := BrandMpnReply(world, p);
      if data.LiteralFalse? { return Locked; }
      if data.Malformed? { return FindRaises; }
      if data.Record? {
        var records := ExtractImages(data);
        if records != [] {
          report := report.(brandMpnMatches := report.brandMpnMatches + 1);
          return Matched(records, ExactBrandMpn);
        }
      }
      return NotFound;
    }

    /** The loop over the ranked candidates. */
    method TryCandidates(p: int, cs: seq<Candidate>) returns (s: Scanned)
      modifies this
      ensures s == Scan(world, config.dryRun, old(rows), p, cs, 0)
      ensures Advances(old(Now()), Now(), ScanEffects(world, config.dryRun, old(rows), p, cs, 0))
    {
      ghost var was, start := rows, Now();
      ghost var done: seq<Effect> := [];
      for k := 0 to |cs|
        invariant rows == was
        invariant ScannedSoFar(world, config.dryRun, was, p, cs, k, done)
        invariant Advances(start, Now(), done)
      {
        ghost var before := Now();
        var j := AttemptImage(p, cs[k]);
        AdvancesThen(start, before, Now(), done, AttemptEffects(world, config.dryRun, was, p, cs[k]));
        done := ScanStep(world, config.dryRun, was, p, cs, k, done);
        match j {
          case Approve(_) => return Won(k);
          case Raise => return Raised(k);
          case Reject(_) =>
        }
      }
      assert done + [] == done;
      return Lost;
    }

    /** `_process_product`; None stands for an exception that escapes it. */
    method ProcessOne(p: Product) returns (result: Option<ProductResult>)
      modifies this
      ensures var o := ProcessProduct(world, config.dryRun, old(rows), p);
              && (result.None? <==> o.state.RetryableFailure?)
              && (result.Some? ==> result.value == ResultOf(o))
              && log == old(log) + o.effects
              && Now().store == ApplyAll(old(Now().store), o.effects)
              && var counted := AddUploads(AddMatch(old(report), o.how), o.effects);
                 report == if result.None? then counted else AddState(counted, o.state)
    {
      var found := FindIcecatImages(p);
      match found {
        case FindRaises =>
          return None;
        case Locked =>
          report := report.(lockedRecords := report.lockedRecords + 1);
          return Some(ProductResult(p.id, SourceLocked, None));
        case NotFound =>
          report := report.(noExactMatch := report.noExactMatch + 1);
          return Some(ProductResult(p.id, NoExactMatch, None));
        case Matched(cs, how) =>
          var s := TryCandidates(p.id, cs);
          match s {
            case Raised(_) => return None;
            case Won(_) => return Some(ProductResult(p.id, RealImageApproved, Some(how)));
            case Lost =>
              report := report.(rejectedImages := report.rejectedImages + 1);
              return Some(ProductResult(p.id, ImageRejected, Some(how)));
          }
      }
    }

    method TallyResult(state: FinalState)
      modifies this`report
      ensures report == Tally(old(report), state)
    {
      match state {
        case RealImageApproved =>
          report := report.(realImagesApproved := report.realImagesApproved + 1);
        case PlaceholderActive | NoExactMatch | SourceLocked =>
          report := report.(placeholderActive := report.placeholderActive + 1);
        case IdentityConflict =>
          report := report.(identityConflicts := report.identityConflicts + 1);
        case ImageRejected =>
          report := report.(rejectedImages := report.rejectedImages + 1);
        case RetryableFailure =>
      }
    }

    /** One turn of the loop of `run`: process, report an exception as retryable, tally. */
    method RunOne(p: Product)
      modifies this
      ensures var o := ProcessProduct(world, config.dryRun, old(rows), p);
              && Now().store == ApplyAll(old(Now().store), o.effects)
              && log == old(log) + o.effects
              && report == AddOutcome(old(report), o)
    {
      var result := ProcessOne(p);
      var entry := if result.Some? then result.value else ProductResult(p.id, RetryableFailure, None);
      if result.None? {
        report := report.(retryableFailures := report.retryableFailures + 1);
      }
      report := report.(results := report.results + [entry]);
      TallyResult(entry.state);
    }

    /** `run`: one product's exception never stops the next product. */
    method Run()
      modifies this
      ensures var ps := LoadProducts(config, old(rows), catalog);
              var os := RunOutcomes(world, config.dryRun, old(Now().store), ps);
              && log == old(log) + Writes(os)
              && Now().store == ApplyAll(old(Now().store), Writes(os))
              && report == AddOutcomes(old(report).(productsScanned := |ps|), os)
              && (forall p :: p in ps ==> p in catalog && MayLoad(config, old(rows), p))
              && (forall e :: e in Writes(os) ==> exists p :: p in ps && p.id == ProductOf(e))
    {
      var ps := LoadProducts(config, rows, catalog);
      LoadedMayBe(config, rows, catalog);
      WritesStayInBatch(world, config.dryRun, Now().store, ps);
      report := report.(productsScanned := |ps|);
      ghost var start, all := Now(), RunOutcomes(world, config.dryRun, Now().store, ps);
      ghost var done: seq<Outcome> := [];
      assert ps[0..] == ps && done + all == all;
      for n := 0 to |ps|
        invariant all == done + RunOutcomes(world, config.dryRun, Now().store, ps[n..])
        invariant Recorded(start, Now(), done)
      {
        ghost var before, o := Now(), ProcessProduct(world, config.dryRun, rows, ps[n]);
        RunOne(ps[n]);
        RecordedThen(start, before, Now(), done, o);
        done := RunStep(world, config.dryRun, before.store, ps, n, all, done);
      }
      assert ps[|ps|..] == [] && done + [] == done;
    }
  }

  lemma {:induction false} WritesSnoc(os: seq<Outcome>, o: Outcome)
    ensures Writes(os + [o]) == Writes(os) + o.effects
  {
    if os == [] {
      assert (os + [o])[1..] == [];
    } else {
      assert (os + [o])[1..] == os[1..] + [o];
      WritesSnoc(os[1..], o);
    }
  }

  lemma {:induction false} AddOutcomesAppend(r: Report, os: seq<Outcome>, o: Outcome)
    ensures AddOutcomes(r, os + [o]) == AddOutcome(AddOutcomes(r, os), o)
    decreases |os|
  {
    if os == [] {
      assert (os + [o])[1..] == [];
    } else {
      assert (os + [o])[1..] == os[1..] + [o];
      AddOutcomesAppend(AddOutcome(r, os[0]), os[1..], o);
    }
  }
}
