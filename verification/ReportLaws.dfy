/** Conservation of the report counters, whatever exceptions individual products raise: in reading
    Icecat's answer, in the decoder, or in the database once the uploads are done. */
module ReportLaws {
  import opened Basics
  import opened CatalogStore
  import opened Icecat
  import opened PipelineSpec
  import opened IntakeLaws
  import opened RunLaws
  import opened RerunLaws
  import opened Pipeline

  function CountInserts(es: seq<Effect>): nat {
    if es == [] then 0 else (if es[0].Insert? then 1 else 0) + CountInserts(es[1..])
  }

  function CountRollbacks(es: seq<Effect>): nat {
    if es == [] then 0 else (if es[0].Rollback? then 1 else 0) + CountRollbacks(es[1..])
  }

  lemma {:induction false} CountInsertsAppend(a: seq<Effect>, b: seq<Effect>)
    ensures CountInserts(a + b) == CountInserts(a) + CountInserts(b)
    ensures CountRollbacks(a + b) == CountRollbacks(a) + CountRollbacks(b)
  {
    if a == [] {
      assert a + b == b;
    } else {
      assert (a + b)[1..] == a[1..] + b;
      CountInsertsAppend(a[1..], b);
    }
  }

  /** Uploads happen in the order card, summary, detail, and every detail upload is followed by an
      insertion or by a database failure. */
  ghost predicate Staged(es: seq<Effect>) {
    CountUploads(es, Card) >= CountUploads(es, Summary) >= CountUploads(es, Detail)
        == CountInserts(es) + CountRollbacks(es)
  }

  lemma StagedAppend(a: seq<Effect>, b: seq<Effect>)
    requires Staged(a) && Staged(b)
    ensures Staged(a + b)
  {
    CountInsertsAppend(a, b);
    CountUploadsAppend(a, b, Card);
    CountUploadsAppend(a, b, Summary);
    CountUploadsAppend(a, b, Detail);
  }

  lemma CountSingle(e: Effect, v: Variant)
    ensures CountUploads([e], v) == if e.Upload? && e.key.variant == v then 1 else 0
    ensures CountInserts([e]) == if e.Insert? then 1 else 0
    ensures CountRollbacks([e]) == if e.Rollback? then 1 else 0
  {
    assert [e][1..] == [];
  }

  /** The writes of one attempt, as short traces of the pieces they are made of. */
  lemma AttemptIsStaged(w: World, dry: bool, rows: seq<Row>, p: int, c: Candidate)
    ensures Staged(AttemptEffects(w, dry, rows, p, c))
    ensures CountRollbacks(AttemptEffects(w, dry, rows, p, c)) <= if Judge(w, dry, rows, p, c).Raise? then 1 else 0
  {
    if Inspect(w, rows, p, c).Clear? && !dry {
      var x := Inspect(w, rows, p, c).checksum;
      UploadableMeans(w, p, x);
      UploadsAreStaged(w, p, x);
      SaveIsStaged(w, p, x);
      var ups, save := UploadEffects(w, p, x), SaveEffects(w, p, x);
      CountInsertsAppend(ups, save);
      CountUploadsAppend(ups, save, Card);
      CountUploadsAppend(ups, save, Summary);
      CountUploadsAppend(ups, save, Detail);
    }
  }

  lemma UploadsAreStaged(w: World, p: int, x: string)
    ensures var es := UploadEffects(w, p, x);
            && CountInserts(es) == CountRollbacks(es) == 0
            && CountUploads(es, Card) >= CountUploads(es, Summary) >= CountUploads(es, Detail)
            && CountUploads(es, Detail) == if Uploadable(w, p, x) then 1 else 0
  {
    var a, b, d := Upload(ObjectKey(p, x, Card)), Upload(ObjectKey(p, x, Summary)), Upload(ObjectKey(p, x, Detail));
    UploadableMeans(w, p, x);
    forall v, e ensures CountUploads([e], v) == (if e.Upload? && e.key.variant == v then 1 else 0)
                        && CountInserts([e]) == (if e.Insert? then 1 else 0)
                        && CountRollbacks([e]) == (if e.Rollback? then 1 else 0) {
      CountSingle(e, v);
    }
    forall v ensures CountUploads([a, b], v) == CountUploads([a], v) + CountUploads([b], v)
                     && CountUploads([a, b, d], v) == CountUploads([a, b], v) + CountUploads([d], v) {
      assert [a, b] == [a] + [b] && [a, b, d] == [a, b] + [d];
      CountUploadsAppend([a], [b], v);
      CountUploadsAppend([a, b], [d], v);
    }
    assert [a, b] == [a] + [b] && [a, b, d] == [a, b] + [d];
    CountInsertsAppend([a], [b]);
    CountInsertsAppend([a, b], [d]);
  }

  lemma SaveIsStaged(w: World, p: int, x: string)
    ensures var es := SaveEffects(w, p, x);
            && CountUploads(es, Card) == CountUploads(es, Summary) == CountUploads(es, Detail) == 0
            && CountInserts(es) == (if Uploadable(w, p, x) && (p, x) !in w.unsaved then 1 else 0)
            && CountRollbacks(es) == (if Uploadable(w, p, x) && (p, x) in w.unsaved then 1 else 0)
  {
    var m, n := Demote(p), Insert(ApprovedRow(p, x));
    assert [m, n] == [m] + [n];
    forall v ensures CountUploads([m, n], v) == 0 && CountUploads([Rollback(p)], v) == 0 {
      CountSingle(m, v);
      CountSingle(n, v);
      CountSingle(Rollback(p), v);
      CountUploadsAppend([m], [n], v);
    }
    CountSingle(m, Card);
    CountSingle(n, Card);
    CountSingle(Rollback(p), Card);
    CountInsertsAppend([m], [n]);
  }

  lemma {:induction false} ScanIsStaged(w: World, dry: bool, rows: seq<Row>, p: int, cs: seq<Candidate>, k: nat)
    requires k <= |cs|
    ensures Staged(ScanEffects(w, dry, rows, p, cs, k))
    ensures CountRollbacks(ScanEffects(w, dry, rows, p, cs, k)) <= if Scan(w, dry, rows, p, cs, k).Raised? then 1 else 0
    decreases |cs| - k
  {
    if k < |cs| {
      AttemptIsStaged(w, dry, rows, p, cs[k]);
      if Judge(w, dry, rows, p, cs[k]).Reject? {
        ScanIsStaged(w, dry, rows, p, cs, k + 1);
        StagedAppend(AttemptEffects(w, dry, rows, p, cs[k]), ScanEffects(w, dry, rows, p, cs, k + 1));
        CountInsertsAppend(AttemptEffects(w, dry, rows, p, cs[k]), ScanEffects(w, dry, rows, p, cs, k + 1));
      } else {
        assert AttemptEffects(w, dry, rows, p, cs[k]) + [] == AttemptEffects(w, dry, rows, p, cs[k]);
      }
    }
  }

  /** What every outcome of a run looks like. */
  ghost predicate WellFormed(o: Outcome) {
    && Staged(o.effects)
    && CountRollbacks(o.effects) <= (if o.state.RetryableFailure? then 1 else 0)
    && !o.state.PlaceholderActive? && !o.state.IdentityConflict?
    && (o.state.SourceLocked? || o.state.NoExactMatch? ==> o.how.None?)
    && (o.state.RealImageApproved? || o.state.ImageRejected? ==> o.how.Some?)
  }

  lemma ProcessIsWellFormed(w: World, dry: bool, rows: seq<Row>, p: Product)
    ensures WellFormed(ProcessProduct(w, dry, rows, p)) && ProcessProduct(w, dry, rows, p).product == p.id
  {
    match FindImages(w, p) {
      case Matched(cs, _) => ScanIsStaged(w, dry, rows, p.id, cs, 0);
      case _ =>
    }
  }

  lemma {:induction false} RunIsWellFormed(w: World, dry: bool, s: Store, ps: seq<Product>)
    ensures |RunOutcomes(w, dry, s, ps)| == |ps|
    ensures forall i :: 0 <= i < |ps| ==> RunOutcomes(w, dry, s, ps)[i].product == ps[i].id
                                          && WellFormed(RunOutcomes(w, dry, s, ps)[i])
    decreases |ps|
  {
    if ps != [] {
      var o := ProcessProduct(w, dry, s.rows, ps[0]);
      var rest := RunOutcomes(w, dry, ApplyAll(s, o.effects), ps[1..]);
      ProcessIsWellFormed(w, dry, s.rows, ps[0]);
      RunIsWellFormed(w, dry, ApplyAll(s, o.effects), ps[1..]);
      assert RunOutcomes(w, dry, s, ps) == [o] + rest;
    }
  }

  /** The laws of a report after `inserts` rows were written and `failures` database blocks raised.
      Each rejected product counts twice in `rejected_images`, nothing counts as placeholder but
      misses and locks, and a database failure loses a detail upload its row. */
  ghost predicate Balanced(r: Report, inserts: nat, failures: nat) {
    && r.rejectedImages % 2 == 0
    && r.realImagesApproved + r.placeholderActive + r.rejectedImages / 2 + r.retryableFailures == |r.results|
    && r.placeholderActive == r.noExactMatch + r.lockedRecords
    && r.identityConflicts == 0
    && r.realImagesApproved + r.rejectedImages / 2 <= r.gtinMatches + r.brandMpnMatches
       <= r.realImagesApproved + r.rejectedImages / 2 + r.retryableFailures
    && r.cardUploads >= r.summaryUploads >= r.detailUploads == inserts + failures
    && failures <= r.retryableFailures
  }

  lemma OutcomeKeepsBalance(r: Report, inserts: nat, failures: nat, o: Outcome)
    requires Balanced(r, inserts, failures) && WellFormed(o)
    ensures Balanced(AddOutcome(r, o), inserts + CountInserts(o.effects), failures + CountRollbacks(o.effects))
  {
    if o.state.ImageRejected? {
      assert (r.rejectedImages + 2) / 2 == r.rejectedImages / 2 + 1;
    }
  }

  lemma {:induction false} OutcomesKeepBalance(r: Report, inserts: nat, failures: nat, os: seq<Outcome>)
    requires Balanced(r, inserts, failures) && forall o :: o in os ==> WellFormed(o)
    ensures Balanced(AddOutcomes(r, os), inserts + CountInserts(Writes(os)), failures + CountRollbacks(Writes(os)))
    decreases |os|
  {
    if os != [] {
      OutcomeKeepsBalance(r, inserts, failures, os[0]);
      OutcomesKeepBalance(AddOutcome(r, os[0]), inserts + CountInserts(os[0].effects),
                          failures + CountRollbacks(os[0].effects), os[1..]);
      CountInsertsAppend(os[0].effects, Writes(os[1..]));
    }
  }

  lemma {:induction false} ResultsInOrder(r: Report, os: seq<Outcome>)
    ensures AddOutcomes(r, os).results == r.results + seq(|os|, i requires 0 <= i < |os| => ResultOf(os[i]))
    ensures AddOutcomes(r, os).productsScanned == r.productsScanned
    decreases |os|
  {
    if os != [] {
      ResultsInOrder(AddOutcome(r, os[0]), os[1..]);
      assert AddOutcome(r, os[0]).results == r.results + [ResultOf(os[0])];
    }
  }

  function FirstReport(w: World, dry: bool, s: Store, ps: seq<Product>): Report {
    AddOutcomes(EMPTY_REPORT.(productsScanned := |ps|), RunOutcomes(w, dry, s, ps))
  }

  /** First run of an instance: one result per product in order, every product in exactly one
      bucket, uploads in stages, and one detail upload per inserted row or database failure. */
  lemma ReportConservation(w: World, dry: bool, s: Store, ps: seq<Product>)
    ensures var r := FirstReport(w, dry, s, ps);
            && Balanced(r, CountInserts(Writes(RunOutcomes(w, dry, s, ps))),
                        CountRollbacks(Writes(RunOutcomes(w, dry, s, ps))))
            && r.productsScanned == |r.results| == |ps|
            && forall i :: 0 <= i < |ps| ==> r.results[i].productId == ps[i].id
  {
    RunIsWellFormed(w, dry, s, ps);
    var os, r := RunOutcomes(w, dry, s, ps), EMPTY_REPORT.(productsScanned := |ps|);
    OutcomesKeepBalance(r, 0, 0, os);
    ResultsInOrder(r, os);
  }

  ghost function CountStates(os: seq<Outcome>, state: FinalState): nat {
    if os == [] then 0 else (if os[0].state == state then 1 else 0) + CountStates(os[1..], state)
  }

  lemma OutcomeIsCounted(r: Report, o: Outcome)
    ensures var t := AddOutcome(r, o);
            && t.realImagesApproved == r.realImagesApproved + (if o.state == RealImageApproved then 1 else 0)
            && t.lockedRecords == r.lockedRecords + (if o.state == SourceLocked then 1 else 0)
            && t.noExactMatch == r.noExactMatch + (if o.state == NoExactMatch then 1 else 0)
            && t.placeholderActive
               == r.placeholderActive + (if o.state in {PlaceholderActive, NoExactMatch, SourceLocked} then 1 else 0)
            && t.identityConflicts == r.identityConflicts + (if o.state == IdentityConflict then 1 else 0)
            && t.rejectedImages == r.rejectedImages + (if o.state == ImageRejected then 2 else 0)
            && t.retryableFailures == r.retryableFailures + (if o.state == RetryableFailure then 1 else 0)
            && t.cardUploads == r.cardUploads + CountUploads(o.effects, Card)
            && t.summaryUploads == r.summaryUploads + CountUploads(o.effects, Summary)
            && t.detailUploads == r.detailUploads + CountUploads(o.effects, Detail)
  {
  }

  /** Every counter by itself: how many products ended in its state, twice for the rejected ones, and
      how many uploads of each variant went through. */
  lemma {:induction false} CountersCount(r: Report, os: seq<Outcome>)
    ensures var t := AddOutcomes(r, os);
            && t.realImagesApproved == r.realImagesApproved + CountStates(os, RealImageApproved)
            && t.lockedRecords == r.lockedRecords + CountStates(os, SourceLocked)
            && t.noExactMatch == r.noExactMatch + CountStates(os, NoExactMatch)
            && t.rejectedImages == r.rejectedImages + 2 * CountStates(os, ImageRejected)
            && t.retryableFailures == r.retryableFailures + CountStates(os, RetryableFailure)
            && t.cardUploads == r.cardUploads + CountUploads(Writes(os), Card)
            && t.summaryUploads == r.summaryUploads + CountUploads(Writes(os), Summary)
            && t.detailUploads == r.detailUploads + CountUploads(Writes(os), Detail)
    decreases |os|
  {
    if os != [] {
      OutcomeIsCounted(r, os[0]);
      CountersCount(AddOutcome(r, os[0]), os[1..]);
      CountUploadsAppend(os[0].effects, Writes(os[1..]), Card);
      CountUploadsAppend(os[0].effects, Writes(os[1..]), Summary);
      CountUploadsAppend(os[0].effects, Writes(os[1..]), Detail);
    }
  }

  ghost function CountGtinHits(w: World, ps: seq<Product>): nat {
    if ps == [] then 0 else (if GtinHits(w, ps[0]) then 1 else 0) + CountGtinHits(w, ps[1..])
  }

  ghost function CountBrandMpnHits(w: World, ps: seq<Product>): nat {
    if ps == [] then 0 else (if BrandMpnHits(w, ps[0]) then 1 else 0) + CountBrandMpnHits(w, ps[1..])
  }

  lemma HowMeans(w: World, dry: bool, rows: seq<Row>, p: Product)
    ensures ProcessProduct(w, dry, rows, p).how == Some(ExactGtin) <==> GtinHits(w, p)
    ensures ProcessProduct(w, dry, rows, p).how == Some(ExactBrandMpn) <==> BrandMpnHits(w, p)
  {
    FoundIff(w, p);
  }

  lemma MatchIsCounted(r: Report, o: Outcome)
    ensures AddOutcome(r, o).gtinMatches == r.gtinMatches + if o.how == Some(ExactGtin) then 1 else 0
    ensures AddOutcome(r, o).brandMpnMatches == r.brandMpnMatches + if o.how == Some(ExactBrandMpn) then 1 else 0
  {
  }

  /** The match counters count the products whose GTIN reply shows images, and those that only the
      second reply shows images of. */
  lemma {:induction false} MatchesAreCounted(w: World, dry: bool, s: Store, ps: seq<Product>, r: Report)
    ensures var t := AddOutcomes(r, RunOutcomes(w, dry, s, ps));
            && t.gtinMatches == r.gtinMatches + CountGtinHits(w, ps)
            && t.brandMpnMatches == r.brandMpnMatches + CountBrandMpnHits(w, ps)
    decreases |ps|
  {
    if ps != [] {
      var o := ProcessProduct(w, dry, s.rows, ps[0]);
      HowMeans(w, dry, s.rows, ps[0]);
      MatchIsCounted(r, o);
      MatchesAreCounted(w, dry, ApplyAll(s, o.effects), ps[1..], AddOutcome(r, o));
      assert RunOutcomes(w, dry, s, ps)[1..] == RunOutcomes(w, dry, ApplyAll(s, o.effects), ps[1..]);
    }
  }

  /** What the report says of each product: the state its outcome has, and how it was matched unless
      an exception ended it. */
  lemma ResultsTell(w: World, dry: bool, s: Store, ps: seq<Product>, i: nat)
    requires i < |ps|
    ensures |FirstReport(w, dry, s, ps).results| == |RunOutcomes(w, dry, s, ps)| == |ps|
    ensures var r, o := FirstReport(w, dry, s, ps).results[i], RunOutcomes(w, dry, s, ps)[i];
            && r.productId == ps[i].id && r.state == o.state
            && (r.matchMethod == Some(ExactGtin) <==> GtinHits(w, ps[i]) && o.state != RetryableFailure)
            && (r.matchMethod == Some(ExactBrandMpn) <==> BrandMpnHits(w, ps[i]) && o.state != RetryableFailure)
  {
    RunShape(w, dry, s, ps);
    OutcomesTell(w, dry, s, ps, i);
    ResultAt(EMPTY_REPORT.(productsScanned := |ps|), RunOutcomes(w, dry, s, ps), i);
  }

  lemma ResultAt(r: Report, os: seq<Outcome>, i: nat)
    requires i < |os| && r.results == []
    ensures |AddOutcomes(r, os).results| == |os| && AddOutcomes(r, os).results[i] == ResultOf(os[i])
  {
    ResultsInOrder(r, os);
  }

  lemma RunShape(w: World, dry: bool, s: Store, ps: seq<Product>)
    ensures |RunOutcomes(w, dry, s, ps)| == |ps|
    ensures forall i :: 0 <= i < |ps| ==> RunOutcomes(w, dry, s, ps)[i].product == ps[i].id
  {
    RunIsWellFormed(w, dry, s, ps);
  }

  lemma {:induction false} OutcomesTell(w: World, dry: bool, s: Store, ps: seq<Product>, i: nat)
    requires i < |ps| == |RunOutcomes(w, dry, s, ps)|
    ensures RunOutcomes(w, dry, s, ps)[i].how == Some(ExactGtin) <==> GtinHits(w, ps[i])
    ensures RunOutcomes(w, dry, s, ps)[i].how == Some(ExactBrandMpn) <==> BrandMpnHits(w, ps[i])
    decreases |ps|
  {
    var o := ProcessProduct(w, dry, s.rows, ps[0]);
    assert RunOutcomes(w, dry, s, ps) == [o] + RunOutcomes(w, dry, ApplyAll(s, o.effects), ps[1..]);
    if i == 0 { HowMeans(w, dry, s.rows, ps[0]); }
        else { OutcomesTell(w, dry, ApplyAll(s, o.effects), ps[1..], i - 1); }
  }

  /** `coverage_pct` before rounding. */
  function CoveragePct(r: Report): real {
    if r.productsScanned == 0 then 0.0 else 100.0 * r.realImagesApproved as real / r.productsScanned as real
  }

  lemma CoverageIsPercentage(w: World, dry: bool, s: Store, ps: seq<Product>)
    ensures 0.0 <= CoveragePct(FirstReport(w, dry, s, ps)) <= 100.0
  {
    ApprovedFit(w, dry, s, ps);
    CoverageInRange(FirstReport(w, dry, s, ps));
  }

  lemma ApprovedFit(w: World, dry: bool, s: Store, ps: seq<Product>)
    ensures FirstReport(w, dry, s, ps).realImagesApproved <= FirstReport(w, dry, s, ps).productsScanned
  {
    ReportConservation(w, dry, s, ps);
  }

  lemma CoverageInRange(r: Report)
    requires r.realImagesApproved <= r.productsScanned
    ensures 0.0 <= CoveragePct(r) <= 100.0
  {
    if r.productsScanned > 0 {
      Percentage(r.realImagesApproved, r.productsScanned);
    }
  }

  lemma Percentage(a: nat, n: nat)
    requires n > 0
    ensures 0.0 <= 100.0 * a as real / n as real
    ensures 100.0 * a as real / n as real <= 100.0 <==> a <= n
  {
    var x, y := 100.0 * a as real, n as real;
    assert (x / y) * y == x;
    if a <= n {
      assert x <= 100.0 * y;
    } else {
      assert x > 100.0 * y;
    }
  }

  /** The report of a later run of an instance whose report so far is `earlier`. */
  ghost function LaterReport(w: World, dry: bool, s: Store, ps: seq<Product>, earlier: Report): Report {
    AddOutcomes(earlier.(productsScanned := |ps|), RunOutcomes(w, dry, s, ps))
  }

  /** Coverage stays a percentage in every run that an instance with this report may still make. */
  ghost predicate CoverageStaysBounded(earlier: Report) {
    forall w: World, dry: bool, s: Store, ps: seq<Product> :: ps != [] ==>
        CoveragePct(LaterReport(w, dry, s, ps, earlier)) <= 100.0
  }

  /** A later run of the same instance resets only `products_scanned`, so its coverage is sure to be
      a percentage exactly when no earlier run approved anything. */
  lemma LaterCoverage(earlier: Report)
    ensures CoverageStaysBounded(earlier) <==> earlier.realImagesApproved == 0
  {
    if earlier.realImagesApproved == 0 {
      forall w: World, dry: bool, s: Store, ps: seq<Product> | ps != []
        ensures CoveragePct(LaterReport(w, dry, s, ps, earlier)) <= 100.0
      {
        LaterRunFits(w, dry, s, ps, earlier);
      }
    } else {
      LaterRunOverflows(earlier);
    }
  }

  lemma LaterRunFits(w: World, dry: bool, s: Store, ps: seq<Product>, earlier: Report)
    requires ps != [] && earlier.realImagesApproved == 0
    ensures CoveragePct(LaterReport(w, dry, s, ps, earlier)) <= 100.0
  {
    ResultsInOrder(EMPTY_REPORT.(productsScanned := |ps|), RunOutcomes(w, dry, s, ps));
    ApprovedFit(w, dry, s, ps);
    LaterRun(w, dry, s, ps, earlier);
  }

  lemma LaterRunOverflows(earlier: Report)
    requires earlier.realImagesApproved > 0
    ensures !CoverageStaysBounded(earlier)
  {
    var w, s, ps := OneImageWorld("c", {}), Store([], {}), [ProductWithGtin(0)];
    OneApproval();
    LaterRun(w, false, s, ps, earlier);
  }

  /** A run over one product that approves it. */
  lemma OneApproval()
    ensures FirstReport(OneImageWorld("c", {}), false, Store([], {}), [ProductWithGtin(0)]).realImagesApproved == 1
  {
    var w, s, p := OneImageWorld("c", {}), Store([], {}), ProductWithGtin(0);
    var o := ProcessProduct(w, false, s.rows, p);
    assert o.state == RealImageApproved by { OneImageProduct(0, "c", [], {}); }
    assert RunOutcomes(w, false, s, [p]) == [o] by { RunOfOne(w, s, p); }
    OneOutcome(EMPTY_REPORT.(productsScanned := 1), o);
  }

  lemma OneOutcome(r: Report, o: Outcome)
    ensures AddOutcomes(r, [o]) == AddOutcome(r, o)
    ensures o.state.RealImageApproved? ==> AddOutcomes(r, [o]).realImagesApproved == r.realImagesApproved + 1
  {
    assert [o][1..] == [];
  }

  lemma LaterRun(w: World, dry: bool, s: Store, ps: seq<Product>, earlier: Report)
    requires ps != []
    ensures CoveragePct(LaterReport(w, dry, s, ps, earlier)) <= 100.0 <==>
            earlier.realImagesApproved + FirstReport(w, dry, s, ps).realImagesApproved <= |ps|
  {
    var os := RunOutcomes(w, dry, s, ps);
    ApprovalsAdd(earlier.(productsScanned := |ps|), EMPTY_REPORT.(productsScanned := |ps|), os);
    CoverageMeans(AddOutcomes(earlier.(productsScanned := |ps|), os));
  }

  lemma CoverageMeans(r: Report)
    requires r.productsScanned > 0
    ensures CoveragePct(r) <= 100.0 <==> r.realImagesApproved <= r.productsScanned
  {
    Percentage(r.realImagesApproved, r.productsScanned);
  }

  lemma {:induction false} ApprovalsAdd(r: Report, q: Report, os: seq<Outcome>)
    ensures AddOutcomes(r, os).productsScanned == r.productsScanned
    ensures AddOutcomes(q, os).realImagesApproved - q.realImagesApproved
        == AddOutcomes(r, os).realImagesApproved - r.realImagesApproved
    decreases |os|
  {
    if os != [] {
      ApprovalsAdd(AddOutcome(r, os[0]), AddOutcome(q, os[0]), os[1..]);
    }
  }

  /** The exit status of the command line. */
  function ExitCode(r: Report): int {
    if r.productsScanned > 0 && r.realImagesApproved == 0 && r.placeholderActive == 0 then 1 else 0
  }

  /** The command fails exactly when it had products and every one was rejected or raised. */
  lemma ExitCodeMeans(w: World, dry: bool, s: Store, ps: seq<Product>)
    ensures ExitCode(FirstReport(w, dry, s, ps)) == 1
            <==> ps != [] && forall o :: o in RunOutcomes(w, dry, s, ps) ==>
                o.state.ImageRejected? || o.state.RetryableFailure?
  {
    SuccessIsCounted(EMPTY_REPORT.(productsScanned := |ps|), RunOutcomes(w, dry, s, ps));
    forall o | o in RunOutcomes(w, dry, s, ps) ensures !o.state.IdentityConflict? {
      NeverIdentityConflict(w, dry, s, ps, o);
    }
  }

  lemma NeverIdentityConflict(w: World, dry: bool, s: Store, ps: seq<Product>, o: Outcome)
    requires o in RunOutcomes(w, dry, s, ps)
    ensures !o.state.IdentityConflict?
  {
    RunIsWellFormed(w, dry, s, ps);
    var i :| 0 <= i < |ps| && RunOutcomes(w, dry, s, ps)[i] == o;
    assert WellFormed(RunOutcomes(w, dry, s, ps)[i]);
  }

  ghost predicate Failed(s: FinalState) {
    s.ImageRejected? || s.RetryableFailure? || s.IdentityConflict?
  }

  lemma {:induction false} SuccessIsCounted(r: Report, os: seq<Outcome>)
    ensures var t := AddOutcomes(r, os);
            && t.productsScanned == r.productsScanned
            && t.realImagesApproved + t.placeholderActive >= r.realImagesApproved + r.placeholderActive
            && (t.realImagesApproved + t.placeholderActive == r.realImagesApproved + r.placeholderActive
                <==> forall o :: o in os ==> Failed(o.state))
    decreases |os|
  {
    if os != [] {
      SuccessIsCounted(AddOutcome(r, os[0]), os[1..]);
      assert os == [os[0]] + os[1..];
    }
  }
}
