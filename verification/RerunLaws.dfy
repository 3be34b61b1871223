/** When running again is harmless: duplicate records and re-run idempotence, with exact conditions. */
module RerunLaws {
  import opened Basics
  import opened CatalogStore
  import opened Icecat
  import opened PipelineSpec
  import opened OwnershipLaws
  import opened RunLaws

  /** Every row whose checksum no other product has, and which can be saved again, is shadowed by an
      approved first match. `unsaved` are the saves that raise; it is empty for a healthy database. */
  ghost predicate Settled(rows: seq<Row>, unsaved: set<(int, string)>) {
    forall i :: 0 <= i < |rows| ==> SettledRow(rows, rows[i], unsaved)
  }

  ghost predicate SettledRow(rows: seq<Row>, r: Row, unsaved: set<(int, string)>) {
    r.checksum.Some? && !ChecksumBelongsToOther(rows, r.product, r.checksum.value)
        && (r.product, r.checksum.value) !in unsaved
    ==> KnownApproved(rows, r.product, r.checksum.value)
  }

  /** No insertion repeats the product and checksum of a row that is already there. */
  ghost predicate NoDuplicateTrace(s: Store, es: seq<Effect>)
    decreases |es|
  {
    es == [] ||
    (&& (es[0].Insert? && es[0].row.checksum.Some? ==> !HasRow(s.rows, es[0].row.product, es[0].row.checksum.value))
     && NoDuplicateTrace(Apply(s, es[0]), es[1..]))
  }

  /** The promise at the head of the source file, for one table of rows and every run from it. */
  ghost predicate NeverDuplicates(rows: seq<Row>, unsaved: set<(int, string)>) {
    forall w: World, s: Store, ps: seq<Product> :: s.rows == rows && w.unsaved == unsaved ==>
      NoDuplicateTrace(s, Writes(RunOutcomes(w, false, s, ps)))
  }

  lemma {:induction false} NoDuplicateAppend(s: Store, a: seq<Effect>, b: seq<Effect>)
    ensures NoDuplicateTrace(s, a + b) <==> NoDuplicateTrace(s, a) && NoDuplicateTrace(ApplyAll(s, a), b)
    decreases |a|
  {
    if a == [] {
      assert a + b == b;
    } else {
      assert (a + b)[1..] == a[1..] + b;
      NoDuplicateAppend(Apply(s, a[0]), a[1..], b);
    }
  }

  lemma {:induction false} UploadsDuplicateNothing(s: Store, es: seq<Effect>)
    requires forall e :: e in es ==> e.Upload? || e.Rollback?
    ensures NoDuplicateTrace(s, es)
    decreases |es|
  {
    if es != [] { UploadsDuplicateNothing(Apply(s, es[0]), es[1..]); }
  }

  lemma InsertionDuplicates(s: Store, p: int, c: string)
    ensures NoDuplicateTrace(s, [Demote(p), Insert(ApprovedRow(p, c))]) <==> !HasRow(s.rows, p, c)
  {
    var tail := [Demote(p), Insert(ApprovedRow(p, c))];
    var t := Apply(s, Demote(p));
    DemotionKeepsFacts(s.rows, p, p, c);
    assert tail[1..] == [Insert(ApprovedRow(p, c))] && tail[1..][1..] == [];
    assert NoDuplicateTrace(s, tail) <==> NoDuplicateTrace(t, tail[1..]);
    assert NoDuplicateTrace(t, tail[1..]) <==> !HasRow(t.rows, p, c);
  }

  lemma AttemptDuplicates(w: World, s: Store, p: int, c: Candidate)
    ensures NoDuplicateTrace(s, AttemptEffects(w, false, s.rows, p, c))
       <==> !(Judge(w, false, s.rows, p, c) == Approve(AutoApproved)
              && HasRow(s.rows, p, Inspect(w, s.rows, p, c).checksum))
  {
    if Judge(w, false, s.rows, p, c) == Approve(AutoApproved) {
      var x := Inspect(w, s.rows, p, c).checksum;
      var ups, tail := UploadEffects(w, p, x), [Demote(p), Insert(ApprovedRow(p, x))];
      UploadsOnly(s, ups);
      UploadsDuplicateNothing(s, ups);
      NoDuplicateAppend(s, ups, tail);
      InsertionDuplicates(ApplyAll(s, ups), p, x);
      assert AttemptEffects(w, false, s.rows, p, c) == ups + tail;
    } else {
      UploadsDuplicateNothing(s, AttemptEffects(w, false, s.rows, p, c));
    }
  }

  lemma DemotionKeepsFacts(rows: seq<Row>, q: int, p: int, c: string)
    ensures HasRow(Demoted(rows, q), p, c) == HasRow(rows, p, c)
    ensures KnownApproved(Demoted(rows, q), p, c) == KnownApproved(rows, p, c)
    ensures ChecksumBelongsToOther(Demoted(rows, q), p, c) == ChecksumBelongsToOther(rows, p, c)
  {
    var d := Demoted(rows, q);
    forall i | 0 <= i < |rows| ensures SameFacts(rows[i], d[i]) && SameFacts(d[i], rows[i]) {}
    GrownFacts(rows, d, {}, p, c);
    GrownFacts(d, rows, {}, p, c);
  }

  /** With settled rows a candidate that passes every check is new. */
  lemma ClearIsNew(w: World, rows: seq<Row>, p: int, c: Candidate)
    requires Settled(rows, w.unsaved) && Inspect(w, rows, p, c).Clear?
    requires (p, Inspect(w, rows, p, c).checksum) !in w.unsaved
    ensures !HasRow(rows, p, Inspect(w, rows, p, c).checksum)
  {
    var x := Inspect(w, rows, p, c).checksum;
    forall i | 0 <= i < |rows| ensures !Owns(rows[i], p, x) {
      assert SettledRow(rows, rows[i], w.unsaved);
    }
  }

  lemma InsertKeepsSettled(rows: seq<Row>, p: int, c: string, unsaved: set<(int, string)>)
    requires Settled(rows, unsaved) && !HasRow(rows, p, c) && !ChecksumBelongsToOther(rows, p, c)
    ensures Settled(AfterInsert(rows, p, Some(c)), unsaved)
    ensures KnownApproved(AfterInsert(rows, p, Some(c)), p, c)
    ensures forall d :: d != c ==> (KnownApproved(AfterInsert(rows, p, Some(c)), p, d) <==> KnownApproved(rows, p, d))
  {
    var new_ := AfterInsert(rows, p, Some(c));
    forall i | 0 <= i < |rows| ensures SameFacts(rows[i], new_[i]) && !Owns(new_[i], p, c) {
      assert !Owns(rows[i], p, c);
    }
    assert Owns(new_[|rows|], p, c);
    forall i | 0 <= i < |new_| ensures SettledRow(new_, new_[i], unsaved) {
      if i < |rows| && rows[i].checksum.Some? {
        GrownFacts(rows, new_, {p}, rows[i].product, rows[i].checksum.value);
        assert SettledRow(rows, rows[i], unsaved);
      }
    }
    forall d | d != c ensures KnownApproved(new_, p, d) <==> KnownApproved(rows, p, d) {
      GrownFacts(rows, new_, {p}, p, d);
      if i :| 0 <= i < |new_| && Owns(new_[i], p, d) && new_[i].review.Approved?
              && forall j :: 0 <= j < i ==> !Owns(new_[j], p, d) {
        assert i < |rows| && SameFacts(rows[i], new_[i]);
        forall j | 0 <= j < i ensures !Owns(rows[j], p, d) { assert SameFacts(rows[j], new_[j]); }
      }
    }
  }

  lemma {:induction false} SettledScan(w: World, s: Store, p: int, cs: seq<Candidate>, k: nat)
    requires k <= |cs| && Settled(s.rows, w.unsaved)
    ensures NoDuplicateTrace(s, ScanEffects(w, false, s.rows, p, cs, k))
    ensures var ins := Inserted(w, false, s.rows, p, cs, k);
            ins.Some? ==> !HasRow(s.rows, p, ins.value) && !ChecksumBelongsToOther(s.rows, p, ins.value)
    decreases |cs| - k
  {
    if k < |cs| {
      var here := AttemptEffects(w, false, s.rows, p, cs[k]);
      AttemptDuplicates(w, s, p, cs[k]);
      if Judge(w, false, s.rows, p, cs[k]) == Approve(AutoApproved) { ClearIsNew(w, s.rows, p, cs[k]); }
      if Judge(w, false, s.rows, p, cs[k]).Reject? {
        RejectionKeepsRows(w, false, s, p, cs[k]);
        SettledScan(w, ApplyAll(s, here), p, cs, k + 1);
        NoDuplicateAppend(s, here, ScanEffects(w, false, s.rows, p, cs, k + 1));
      } else {
        assert here + [] == here;
      }
    }
  }

  lemma SettledProduct(w: World, s: Store, p: Product)
    requires Settled(s.rows, w.unsaved)
    ensures var es := ProcessProduct(w, false, s.rows, p).effects;
            NoDuplicateTrace(s, es) && Settled(ApplyAll(s, es).rows, w.unsaved)
    ensures var ins := ProductInsert(w, false, s.rows, p);
            ins.Some? ==> !HasRow(s.rows, p.id, ins.value) && !ChecksumBelongsToOther(s.rows, p.id, ins.value)
  {
    ProcessRows(w, false, s, p);
    match FindImages(w, p) {
      case Matched(cs, _) =>
        SettledScan(w, s, p.id, cs, 0);
        var ins := ProductInsert(w, false, s.rows, p);
        if ins.Some? { InsertKeepsSettled(s.rows, p.id, ins.value, w.unsaved); }
      case _ =>
    }
  }

  lemma {:induction false} SettledRun(w: World, s: Store, ps: seq<Product>)
    requires Settled(s.rows, w.unsaved)
    ensures NoDuplicateTrace(s, Writes(RunOutcomes(w, false, s, ps)))
    decreases |ps|
  {
    if ps != [] {
      var o := ProcessProduct(w, false, s.rows, ps[0]);
      var t := ApplyAll(s, o.effects);
      SettledProduct(w, s, ps[0]);
      SettledRun(w, t, ps[1..]);
      assert RunOutcomes(w, false, s, ps)[1..] == RunOutcomes(w, false, t, ps[1..]);
      NoDuplicateAppend(s, o.effects, Writes(RunOutcomes(w, false, t, ps[1..])));
    }
  }

  // ---------- the failing family ----------

  /** A world in which every GTIN leads to one perfect image, with checksum `c`. */
  ghost function OneImageWorld(c: string, unsaved: set<(int, string)>): World {
    var item := GalleryItem(false, Some("u"), None, Some(600), Some(600), true, "");
    World(true, map["g" := Body(Record("b", "m", [item]))], map[], map["u" := Decoded(600, 600, c)], {}, unsaved)
  }

  ghost function ProductWithGtin(p: int): Product {
    Product(p, "CPU", "b", "m", Some("g"), true)
  }

  /** What that world's image makes of a product, whatever the rows. */
  lemma OneImageProduct(p: int, c: string, rows: seq<Row>, unsaved: set<(int, string)>)
    ensures var w := OneImageWorld(c, unsaved);
            var o := ProcessProduct(w, false, rows, ProductWithGtin(p));
            && (KnownApproved(rows, p, c) ==> o.state == RealImageApproved && o.effects == [])
            && (!KnownApproved(rows, p, c) && ChecksumBelongsToOther(rows, p, c) ==>
                o.state == ImageRejected && o.effects == [])
            && (!KnownApproved(rows, p, c) && !ChecksumBelongsToOther(rows, p, c) ==>
                  o.effects == UploadEffects(w, p, c) + SaveEffects(w, p, c) && Uploadable(w, p, c)
                  && o.state == if (p, c) in unsaved then RetryableFailure else RealImageApproved)
            && ProductInsert(w, false, rows, ProductWithGtin(p))
               == if !KnownApproved(rows, p, c) && !ChecksumBelongsToOther(rows, p, c) && (p, c) !in unsaved
                  then Some(c) else None
  {
    var w, product := OneImageWorld(c, unsaved), ProductWithGtin(p);
    var item := GalleryItem(false, Some("u"), None, Some(600), Some(600), true, "");
    var cand := ToCandidate(item, "b", "m");
    assert GtinReply(w, "g") == Record("b", "m", [item]);
    assert [item][1..] == [] && Collect([item], "b", "m") == [cand];
    assert [cand][1..] == [] && SortBy([cand], RanksBefore) == [cand];
    assert FindImages(w, product) == Matched([cand], ExactGtin);
    assert Uploadable(w, p, c);
    assert Process(SourceAt(w, cand.url)) == Processed(600, 600, c);
    var here := AttemptEffects(w, false, rows, p, cand);
    assert ScanEffects(w, false, rows, p, [cand], 1) == [] && here + [] == here;
    assert ScanEffects(w, false, rows, p, [cand], 0) == here;
  }

  lemma RunOfOne(w: World, s: Store, p: Product)
    ensures RunOutcomes(w, false, s, [p]) == [ProcessProduct(w, false, s.rows, p)]
    ensures Writes(RunOutcomes(w, false, s, [p])) == ProcessProduct(w, false, s.rows, p).effects
  {
    var o := ProcessProduct(w, false, s.rows, p);
    assert [p][1..] == [] && RunOutcomes(w, false, ApplyAll(s, o.effects), []) == [];
    assert RunOutcomes(w, false, s, [p]) == [o] + [] == [o] && [o][1..] == [];
    assert Writes([o]) == o.effects + [] == o.effects;
  }

  lemma OneImageOutcome(p: int, c: string, s: Store, unsaved: set<(int, string)>)
    requires !KnownApproved(s.rows, p, c) && !ChecksumBelongsToOther(s.rows, p, c) && (p, c) !in unsaved
    ensures var w, ps := OneImageWorld(c, unsaved), [ProductWithGtin(p)];
            && RunStore(w, false, s, ps).rows == Demoted(s.rows, p) + [ApprovedRow(p, c)]
            && Insert(ApprovedRow(p, c)) in Writes(RunOutcomes(w, false, s, ps))
            && (HasRow(s.rows, p, c) ==> !NoDuplicateTrace(s, Writes(RunOutcomes(w, false, s, ps))))
  {
    var w, product := OneImageWorld(c, unsaved), ProductWithGtin(p);
    OneImageProduct(p, c, s.rows, unsaved);
    RunOfOne(w, s, product);
    ProcessRows(w, false, s, product);
    var ups, tail := UploadEffects(w, p, c), [Demote(p), Insert(ApprovedRow(p, c))];
    assert tail[1] in ups + tail;
    UploadsOnly(s, ups);
    NoDuplicateAppend(s, ups, tail);
    InsertionDuplicates(ApplyAll(s, ups), p, c);
  }

  /** "Re-running does not create duplicate records" is true of a table of rows exactly when it is
      settled: one pending or rejected first match that no other product shares is enough to break it. */
  lemma NoDuplicatesIffSettled(rows: seq<Row>, unsaved: set<(int, string)>)
    ensures NeverDuplicates(rows, unsaved) <==> Settled(rows, unsaved)
  {
    if Settled(rows, unsaved) {
      forall w: World, s: Store, ps: seq<Product> | s.rows == rows && w.unsaved == unsaved
        ensures NoDuplicateTrace(s, Writes(RunOutcomes(w, false, s, ps)))
      {
        SettledRun(w, s, ps);
      }
    } else {
      var i :| 0 <= i < |rows| && !SettledRow(rows, rows[i], unsaved);
      var s, p, c := Store(rows, {}), rows[i].product, rows[i].checksum.value;
      assert Owns(rows[i], p, c);
      OneImageOutcome(p, c, s, unsaved);
      assert !NoDuplicateTrace(s, Writes(RunOutcomes(OneImageWorld(c, unsaved), false, s, [ProductWithGtin(p)])));
    }
  }

  // ---------- running again ----------

  ghost predicate Recorded(rows: seq<Row>, c: string) {
    exists i :: 0 <= i < |rows| && rows[i].checksum == Some(c)
  }

  /** After a run over `ps`, a run over `qs` in the same world inserts and demotes nothing, leaves rows
      and objects untouched, and gives every product the final state it had before. */
  ghost predicate RerunIsQuiet(w: World, s: Store, ps: seq<Product>, qs: seq<Product>) {
    var first, t := RunOutcomes(w, false, s, ps), RunStore(w, false, s, ps);
    var again := RunOutcomes(w, false, t, qs);
    && (forall e :: e in Writes(again) ==> e.Upload? || e.Rollback?)
    && ApplyAll(t, Writes(again)) == t
    && |first| == |ps| && |again| == |qs|
    && forall j :: 0 <= j < |qs| ==> exists i :: 0 <= i < |ps| && ps[i] == qs[j] && again[j].state == first[i].state
  }

  ghost predicate Idempotent(rows: seq<Row>, unsaved: set<(int, string)>) {
    forall w: World, s: Store, ps: seq<Product> :: s.rows == rows && w.unsaved == unsaved && DistinctIds(ps) ==>
        RerunIsQuiet(w, s, ps, ps)
  }

  ghost predicate SameMetadata(cs: seq<Candidate>) {
    forall i, j :: 0 <= i < |cs| && 0 <= j < |cs| ==> cs[i].brand == cs[j].brand && cs[i].mpn == cs[j].mpn
  }

  /** All candidates of one product come from one reply, so they share brand and part number. */
  lemma CandidatesShareMetadata(w: World, p: Product)
    requires FindImages(w, p).Matched?
    ensures SameMetadata(FindImages(w, p).candidates)
  {
    var cs := FindImages(w, p).candidates;
    var d := if FindImages(w, p).how == ExactGtin then GtinReply(w, p.gtin.value) else BrandMpnReply(w, p);
    assert d.Record? && cs == RankedImages(d);
    forall i | 0 <= i < |cs| ensures cs[i].brand == d.brand && cs[i].mpn == d.mpn {
      RankedShareMetadata(d, cs[i]);
    }
  }

  /** What the second run knows about product `p`, whose first turn inserted `ins`: no save that
      raised has become a conflict since. */
  ghost predicate SecondView(rows: seq<Row>, later: seq<Row>, p: int, ins: Option<string>,
                             unsaved: set<(int, string)>) {
    && (forall c :: KnownApproved(later, p, c) <==> KnownApproved(rows, p, c) || ins == Some(c))
    && (forall c :: ChecksumBelongsToOther(rows, p, c) ==> ChecksumBelongsToOther(later, p, c))
    && (forall c :: (p, c) in unsaved && ChecksumBelongsToOther(later, p, c) ==> ChecksumBelongsToOther(rows, p, c))
  }

  /** A candidate that was not approved anew is judged as before. */
  lemma SecondJudge(w: World, rows: seq<Row>, later: seq<Row>, p: int, c: Candidate, ins: Option<string>)
    requires SecondView(rows, later, p, ins, w.unsaved)
    requires Process(SourceAt(w, c.url)).Processed? ==> ins != Some(Process(SourceAt(w, c.url)).checksum)
    ensures Judge(w, false, rows, p, c).Reject? ==> Judge(w, false, later, p, c).Reject?
    ensures Judge(w, false, rows, p, c).Raise? ==> Judge(w, false, later, p, c).Raise?
    ensures !Judge(w, false, rows, p, c).Approve? ==>
              forall e :: e in AttemptEffects(w, false, later, p, c) ==>
                  (e.Upload? && e in AttemptEffects(w, false, rows, p, c)) || e.Rollback?
  {
  }

  lemma {:induction false} SecondScan(w: World, rows: seq<Row>, later: seq<Row>, p: int, cs: seq<Candidate>, k: nat)
    requires k <= |cs| && SameMetadata(cs)
    requires SecondView(rows, later, p, Inserted(w, false, rows, p, cs, k), w.unsaved)
    ensures StateOf(Scan(w, false, later, p, cs, k)) == StateOf(Scan(w, false, rows, p, cs, k))
    ensures forall e :: e in ScanEffects(w, false, later, p, cs, k) ==>
              (e.Upload? && e in ScanEffects(w, false, rows, p, cs, k)) || e.Rollback?
    decreases |cs| - k
  {
    if k < |cs| {
      ScanMeans(w, false, rows, p, cs, k);
      var ins := Inserted(w, false, rows, p, cs, k);
      if Judge(w, false, rows, p, cs[k]).Approve? {
        assert Judge(w, false, later, p, cs[k]) == Approve(AlreadyApproved);
      } else {
        RejectedIsNotInserted(w, rows, p, cs, k);
        SecondJudge(w, rows, later, p, cs[k], ins);
        if Judge(w, false, rows, p, cs[k]).Reject? { SecondScan(w, rows, later, p, cs, k + 1); }
      }
    }
  }

  /** The scan does not insert the checksum of a candidate it passed over before: had it been
      refused, its twin would have been refused too. */
  lemma RejectedIsNotInserted(w: World, rows: seq<Row>, p: int, cs: seq<Candidate>, k: nat)
    requires k < |cs| && SameMetadata(cs) && !Judge(w, false, rows, p, cs[k]).Approve?
    ensures var x, ins := Process(SourceAt(w, cs[k].url)), Inserted(w, false, rows, p, cs, k);
            x.Processed? ==> ins != Some(x.checksum)
  {
    ScanMeans(w, false, rows, p, cs, k);
  }

  /** Insertion never takes over a checksum that another product has. */
  lemma {:induction false} InsertedIsUnconflicted(w: World, rows: seq<Row>, p: int, cs: seq<Candidate>, k: nat)
    requires k <= |cs|
    ensures var ins := Inserted(w, false, rows, p, cs, k); ins.Some? ==> !ChecksumBelongsToOther(rows, p, ins.value)
    decreases |cs| - k
  {
    if k < |cs| && Judge(w, false, rows, p, cs[k]).Reject? {
      InsertedIsUnconflicted(w, rows, p, cs, k + 1);
    }
  }

  /** So a recorded checksum stays where it is: no other product becomes its owner. */
  lemma OwnersStay(w: World, s: Store, q: Product, p: int, c: string)
    requires Recorded(s.rows, c)
    ensures var t := ApplyAll(s, ProcessProduct(w, false, s.rows, q).effects);
            Recorded(t.rows, c) && (ChecksumBelongsToOther(t.rows, p, c) <==> ChecksumBelongsToOther(s.rows, p, c))
  {
    var t := ApplyAll(s, ProcessProduct(w, false, s.rows, q).effects);
    var ins := ProductInsert(w, false, s.rows, q);
    ProcessRows(w, false, s, q);
    var i :| 0 <= i < |s.rows| && s.rows[i].checksum == Some(c);
    assert SameFacts(s.rows[i], t.rows[i]);
    match FindImages(w, q) {
      case Matched(cs, _) => InsertedIsUnconflicted(w, s.rows, q.id, cs, 0);
      case _ =>
    }
    GrownFacts(s.rows, t.rows, {q.id}, p, c);
    if j :| 0 <= j < |t.rows| && Foreign(t.rows[j], p, c) {
      if j < |s.rows| {
        assert SameFacts(s.rows[j], t.rows[j]) && Foreign(s.rows[j], p, c);
      } else {
        assert q.id != p && ins == Some(c) && !Foreign(s.rows[i], q.id, c);
        assert Foreign(s.rows[i], p, c);
      }
    }
  }

  lemma {:induction false} OwnersStayInRun(w: World, s: Store, ps: seq<Product>, p: int, c: string)
    requires Recorded(s.rows, c)
    ensures ChecksumBelongsToOther(RunStore(w, false, s, ps).rows, p, c) <==> ChecksumBelongsToOther(s.rows, p, c)
    decreases |ps|
  {
    if ps != [] {
      var u := ApplyAll(s, ProcessProduct(w, false, s.rows, ps[0]).effects);
      OwnersStay(w, s, ps[0], p, c);
      RunUnfolds(w, s, ps);
      OwnersStayInRun(w, u, ps[1..], p, c);
    }
  }

  /** A run is its first product and then the rest. */
  lemma RunUnfolds(w: World, s: Store, ps: seq<Product>)
    requires ps != []
    ensures var o := ProcessProduct(w, false, s.rows, ps[0]);
            var u := ApplyAll(s, o.effects);
            && RunOutcomes(w, false, s, ps) == [o] + RunOutcomes(w, false, u, ps[1..])
            && Writes(RunOutcomes(w, false, s, ps)) == o.effects + Writes(RunOutcomes(w, false, u, ps[1..]))
            && RunStore(w, false, s, ps) == RunStore(w, false, u, ps[1..])
  {
    var o := ProcessProduct(w, false, s.rows, ps[0]);
    var u := ApplyAll(s, o.effects);
    assert RunOutcomes(w, false, s, ps)[1..] == RunOutcomes(w, false, u, ps[1..]);
    ApplyAppend(s, o.effects, Writes(RunOutcomes(w, false, u, ps[1..])));
  }

  /** Saves that raise for product `p` are of checksums that some row has. */
  ghost predicate FailuresRecorded(rows: seq<Row>, unsaved: set<(int, string)>, p: int) {
    forall c :: (p, c) in unsaved ==> Recorded(rows, c)
  }

  /** The product's turn, seen again after the run: the same state, and only repeated uploads. */
  ghost predicate Repeats(w: World, s: Store, ps: seq<Product>, i: nat)
    requires i < |ps|
  {
    var first, o2 := RunOutcomes(w, false, s, ps), ProcessProduct(w, false, RunStore(w, false, s, ps).rows, ps[i]);
    && |first| == |ps| && o2.state == first[i].state
    && forall e :: e in o2.effects ==> (e.Upload? && e in Writes(first)) || e.Rollback?
  }

  lemma SecondLook(w: World, s: Store, ps: seq<Product>)
    requires ps != [] && DistinctIds(ps) && FailuresRecorded(s.rows, w.unsaved, ps[0].id)
    requires Settled(s.rows, w.unsaved) || ProductInsert(w, false, s.rows, ps[0]).None?
    ensures var o := ProcessProduct(w, false, s.rows, ps[0]);
            var o2 := ProcessProduct(w, false, RunStore(w, false, s, ps).rows, ps[0]);
            o2.state == o.state && forall e :: e in o2.effects ==> (e.Upload? && e in o.effects) || e.Rollback?
  {
    match FindImages(w, ps[0]) {
      case Matched(cs, _) =>
        SecondLookView(w, s, ps);
        CandidatesShareMetadata(w, ps[0]);
        SecondScan(w, s.rows, RunStore(w, false, s, ps).rows, ps[0].id, cs, 0);
      case _ =>
    }
  }

  lemma SecondLookView(w: World, s: Store, ps: seq<Product>)
    requires ps != [] && DistinctIds(ps) && FailuresRecorded(s.rows, w.unsaved, ps[0].id)
    requires Settled(s.rows, w.unsaved) || ProductInsert(w, false, s.rows, ps[0]).None?
    ensures SecondView(s.rows, RunStore(w, false, s, ps).rows, ps[0].id, ProductInsert(w, false, s.rows, ps[0]),
                       w.unsaved)
  {
    var p, t, ins := ps[0].id, RunStore(w, false, s, ps), ProductInsert(w, false, s.rows, ps[0]);
    var u := ApplyAll(s, ProcessProduct(w, false, s.rows, ps[0]).effects);
    ProcessRows(w, false, s, ps[0]);
    if ins.Some? {
      SettledProduct(w, s, ps[0]);
      InsertKeepsSettled(s.rows, p, ins.value, w.unsaved);
    }
    RunUnfolds(w, s, ps);
    RunExtends(w, u, ps[1..]);
    assert p !in Ids(ps[1..]);
    forall c ensures (KnownApproved(t.rows, p, c) <==> KnownApproved(s.rows, p, c) || ins == Some(c))
                     && (ChecksumBelongsToOther(s.rows, p, c) ==> ChecksumBelongsToOther(t.rows, p, c)) {
      GrownFacts(s.rows, u.rows, {p}, p, c);
      GrownFacts(u.rows, t.rows, Ids(ps[1..]), p, c);
    }
    forall c | (p, c) in w.unsaved
      ensures ChecksumBelongsToOther(t.rows, p, c) ==> ChecksumBelongsToOther(s.rows, p, c)
    {
      OwnersStayInRun(w, s, ps, p, c);
    }
  }

  lemma RecordedGrows(a: seq<Row>, b: seq<Row>, ids: set<int>, unsaved: set<(int, string)>, p: int)
    requires ExtendsBy(a, b, ids) && FailuresRecorded(a, unsaved, p)
    ensures FailuresRecorded(b, unsaved, p)
  {
    forall c | (p, c) in unsaved ensures Recorded(b, c) {
      var i :| 0 <= i < |a| && a[i].checksum == Some(c);
      assert SameFacts(a[i], b[i]);
    }
  }

  /** The rows that the turn of `ps[i]` sees. */
  ghost function RowsAt(w: World, s: Store, ps: seq<Product>, i: nat): seq<Row>
    requires i < |ps|
    decreases |ps|
  {
    if i == 0 then s.rows else RowsAt(w, ApplyAll(s, ProcessProduct(w, false, s.rows, ps[0]).effects), ps[1..], i - 1)
  }

  lemma {:induction false} Revisit(w: World, s: Store, ps: seq<Product>, i: nat)
    requires i < |ps| && DistinctIds(ps) && FailuresRecorded(s.rows, w.unsaved, ps[i].id)
    requires Settled(s.rows, w.unsaved) || ProductInsert(w, false, RowsAt(w, s, ps, i), ps[i]).None?
    ensures Repeats(w, s, ps, i)
    decreases |ps|
  {
    var u := ApplyAll(s, ProcessProduct(w, false, s.rows, ps[0]).effects);
    RunUnfolds(w, s, ps);
    RunLength(w, false, s, ps);
    if i == 0 {
      SecondLook(w, s, ps);
    } else {
      ProcessRows(w, false, s, ps[0]);
      RecordedGrows(s.rows, u.rows, {ps[0].id}, w.unsaved, ps[i].id);
      if Settled(s.rows, w.unsaved) { SettledProduct(w, s, ps[0]); }
      Revisit(w, u, ps[1..], i - 1);
    }
  }

  lemma {:induction false} RunExtends(w: World, s: Store, ps: seq<Product>)
    ensures ExtendsBy(s.rows, RunStore(w, false, s, ps).rows, Ids(ps))
    decreases |ps|
  {
    if ps != [] {
      var o := ProcessProduct(w, false, s.rows, ps[0]);
      var u := ApplyAll(s, o.effects);
      RunUnfolds(w, s, ps);
      ProcessRows(w, false, s, ps[0]);
      RunExtends(w, u, ps[1..]);
      ExtendsByTrans(s.rows, u.rows, RunStore(w, false, s, ps).rows, {ps[0].id}, Ids(ps[1..]));
      assert {ps[0].id} + Ids(ps[1..]) <= Ids(ps);
    }
  }

  /** Nothing new: uploads of what is stored, and blocks that raised. */
  ghost predicate Idle(t: Store, es: seq<Effect>) {
    forall e :: e in es ==> (e.Upload? && e.key in t.objects) || e.Rollback?
  }

  lemma {:induction false} IdleStays(t: Store, es: seq<Effect>)
    requires Idle(t, es)
    ensures ApplyAll(t, es) == t
    decreases |es|
  {
    if es != [] {
      assert es[0] in es && Apply(t, es[0]).objects == t.objects;
      IdleStays(t, es[1..]);
    }
  }

  lemma {:induction false} IdleRun(w: World, t: Store, qs: seq<Product>)
    requires forall j :: 0 <= j < |qs| ==> Idle(t, ProcessProduct(w, false, t.rows, qs[j]).effects)
    ensures |RunOutcomes(w, false, t, qs)| == |qs|
    ensures forall j :: 0 <= j < |qs| ==> RunOutcomes(w, false, t, qs)[j] == ProcessProduct(w, false, t.rows, qs[j])
    ensures Idle(t, Writes(RunOutcomes(w, false, t, qs)))
    decreases |qs|
  {
    if qs != [] {
      IdleStays(t, ProcessProduct(w, false, t.rows, qs[0]).effects);
      RunUnfolds(w, t, qs);
      IdleRun(w, t, qs[1..]);
    }
  }

  lemma {:induction false} UploadsAreStored(s: Store, es: seq<Effect>)
    ensures s.objects <= ApplyAll(s, es).objects
    ensures forall e :: e in es && e.Upload? ==> e.key in ApplyAll(s, es).objects
    decreases |es|
  {
    if es != [] {
      UploadsAreStored(Apply(s, es[0]), es[1..]);
      forall e | e in es && e.Upload? ensures e.key in ApplyAll(s, es).objects {
        assert e == es[0] || e in es[1..];
      }
    }
  }

  ghost predicate RepeatsFor(w: World, s: Store, ps: seq<Product>, q: Product) {
    exists i :: 0 <= i < |ps| && ps[i] == q && Repeats(w, s, ps, i)
  }

  /** Any batch of products whose turns repeat is quiet. */
  lemma RepeatsAreQuiet(w: World, s: Store, ps: seq<Product>, qs: seq<Product>)
    requires forall j :: 0 <= j < |qs| ==> RepeatsFor(w, s, ps, qs[j])
    ensures RerunIsQuiet(w, s, ps, qs)
  {
    var first, t := RunOutcomes(w, false, s, ps), RunStore(w, false, s, ps);
    RunLength(w, false, s, ps);
    UploadsAreStored(s, Writes(first));
    forall j | 0 <= j < |qs| ensures Idle(t, ProcessProduct(w, false, t.rows, qs[j]).effects) {
      var i :| 0 <= i < |ps| && ps[i] == qs[j] && Repeats(w, s, ps, i);
    }
    IdleRun(w, t, qs);
    IdleStays(t, Writes(RunOutcomes(w, false, t, qs)));
  }

  /** A forced run followed by the same forced run changes nothing more, for every world and every
      batch, exactly when the rows it starts from are settled (for instance, all approved) and every
      save that raises is of a checksum some row already has. */
  lemma IdempotentIffSettled(rows: seq<Row>, unsaved: set<(int, string)>)
    ensures Idempotent(rows, unsaved)
            <==> Settled(rows, unsaved) && forall p: int :: FailuresRecorded(rows, unsaved, p)
  {
    if p: int :| !FailuresRecorded(rows, unsaved, p) {
      var c :| (p, c) in unsaved && !Recorded(rows, c);
      var q := FreshProduct(rows, unsaved, p);
      OvertakenSave(rows, unsaved, p, q, c);
    } else if !Settled(rows, unsaved) {
      var i :| 0 <= i < |rows| && !SettledRow(rows, rows[i], unsaved);
      UnsettledRepeats(rows, unsaved, i);
    } else {
      forall w: World, s: Store, ps: seq<Product> | s.rows == rows && w.unsaved == unsaved && DistinctIds(ps)
        ensures RerunIsQuiet(w, s, ps, ps)
      {
        forall j | 0 <= j < |ps| ensures RepeatsFor(w, s, ps, ps[j]) {
          Revisit(w, s, ps, j);
        }
        RepeatsAreQuiet(w, s, ps, ps);
      }
    }
  }

  lemma UnsettledRepeats(rows: seq<Row>, unsaved: set<(int, string)>, i: nat)
    requires i < |rows| && !SettledRow(rows, rows[i], unsaved)
    ensures !Idempotent(rows, unsaved)
  {
    var s, p, c := Store(rows, {}), rows[i].product, rows[i].checksum.value;
    var w, ps := OneImageWorld(c, unsaved), [ProductWithGtin(p)];
    assert Owns(rows[i], p, c);
    OneImageOutcome(p, c, s, unsaved);
    var t := RunStore(w, false, s, ps);
    StillUnsettled(rows, p, c, i);
    OneImageOutcome(p, c, t, unsaved);
    assert !RerunIsQuiet(w, s, ps, ps);
  }

  /** A product that no row and no raising save mentions. */
  lemma FreshProduct(rows: seq<Row>, unsaved: set<(int, string)>, p: int) returns (q: int)
    ensures q != p && (forall c :: (q, c) !in unsaved) && forall i :: 0 <= i < |rows| ==> rows[i].product != q
  {
    var used := {p} + (set x | x in unsaved :: x.0) + (set r | r in rows :: r.product);
    q := Unused(used);
    forall c ensures (q, c) !in unsaved {
      assert (q, c) in unsaved ==> (q, c).0 in used;
    }
    forall i | 0 <= i < |rows| ensures rows[i].product != q { assert rows[i] in rows && rows[i].product in used; }
  }

  lemma {:induction false} Unused(used: set<int>) returns (q: int)
    ensures forall x :: x in used ==> x < q
    decreases |used|
  {
    if x :| x in used {
      q := Unused(used - {x});
      assert forall y :: y in used ==> y == x || y in used - {x};
      q := if x < q then q else x + 1;
    } else {
      q := 0;
    }
  }

  /** Product `p` cannot save an image that `q` then takes, so the next run rejects it for `p`. */
  lemma OvertakenRun(rows: seq<Row>, unsaved: set<(int, string)>, p: int, q: int, c: string)
    requires p != q && (p, c) in unsaved && (q, c) !in unsaved && !Recorded(rows, c)
    ensures var w, s, ps := OneImageWorld(c, unsaved), Store(rows, {}), [ProductWithGtin(p), ProductWithGtin(q)];
            var t := RunStore(w, false, s, ps);
            && |RunOutcomes(w, false, s, ps)| == 2
            && RunOutcomes(w, false, s, ps)[0].state == RetryableFailure
            && t.rows == Demoted(rows, q) + [ApprovedRow(q, c)]
            && ProcessProduct(w, false, t.rows, ps[0]).state == ImageRejected
  {
    var w, s, a, b := OneImageWorld(c, unsaved), Store(rows, {}), ProductWithGtin(p), ProductWithGtin(q);
    var u := ApplyAll(s, ProcessProduct(w, false, rows, a).effects);
    assert !KnownApproved(rows, p, c) && !ChecksumBelongsToOther(rows, p, c) && !KnownApproved(rows, q, c)
        && !ChecksumBelongsToOther(rows, q, c);
    OneImageProduct(p, c, rows, unsaved);
    ProcessRows(w, false, s, a);
    assert u.rows == rows;
    RunUnfolds(w, s, [a, b]);
    assert [a, b][1..] == [b];
    RunOfOne(w, u, b);
    OneImageOutcome(q, c, u, unsaved);
    var t := RunStore(w, false, s, [a, b]);
    OneImageProduct(p, c, t.rows, unsaved);
    assert Foreign(t.rows[|rows|], p, c);
    forall i | 0 <= i < |t.rows| ensures !Owns(t.rows[i], p, c) {
      assert i < |rows| ==> rows[i].checksum != Some(c) && t.rows[i] == DemoteRow(rows[i], q);
    }
  }

  lemma OvertakenSave(rows: seq<Row>, unsaved: set<(int, string)>, p: int, q: int, c: string)
    requires p != q && (p, c) in unsaved && (q, c) !in unsaved && !Recorded(rows, c)
    ensures !Idempotent(rows, unsaved)
  {
    var w, s, ps := OneImageWorld(c, unsaved), Store(rows, {}), [ProductWithGtin(p), ProductWithGtin(q)];
    OvertakenRun(rows, unsaved, p, q, c);
    var t := RunStore(w, false, s, ps);
    RunUnfolds(w, t, ps);
    assert RunOutcomes(w, false, t, ps)[0].state == ImageRejected;
    assert ps[0].id == p && ps[1].id == q;
    assert !RerunIsQuiet(w, s, ps, ps);
  }

  // ---------- the default mode, which skips finished products ----------

  ghost predicate DefaultMode(cfg: Config) {
    !cfg.dryRun && !cfg.forceRefresh && (cfg.limit.Some? ==> cfg.limit.value == 0)
  }

  ghost predicate DefaultRerunsAreQuiet(rows: seq<Row>, unsaved: set<(int, string)>) {
    forall w: World, s: Store, cfg: Config, catalog: seq<Product> ::
      s.rows == rows && w.unsaved == unsaved && DefaultMode(cfg) && DistinctIds(catalog) ==>
      var ps := LoadProducts(cfg, rows, catalog);
      RerunIsQuiet(w, s, ps, LoadProducts(cfg, RunStore(w, false, s, ps).rows, catalog))
  }

  lemma DoneAfterInsert(rows: seq<Row>, q: int, ins: Option<string>, p: int)
    ensures p == q && ins.Some? ==> AlreadyDone(AfterInsert(rows, q, ins), p)
    ensures p != q && AlreadyDone(rows, p) ==> AlreadyDone(AfterInsert(rows, q, ins), p)
  {
    var later := AfterInsert(rows, q, ins);
    if ins.Some? {
      assert later[|rows|] == ApprovedRow(q, ins.value);
      if i :| 0 <= i < |rows| && rows[i].product == p && rows[i].isPrimary && rows[i].review.Approved? && p != q {
        assert later[i] == rows[i];
      }
    }
  }

  /** A finished product outside the batch stays finished. */
  lemma {:induction false} StaysDone(w: World, s: Store, ps: seq<Product>, p: int)
    requires AlreadyDone(s.rows, p) && p !in Ids(ps)
    ensures AlreadyDone(RunStore(w, false, s, ps).rows, p)
    decreases |ps|
  {
    if ps != [] {
      RunUnfolds(w, s, ps);
      ProcessRows(w, false, s, ps[0]);
      assert ps[0].id in Ids(ps);
      DoneAfterInsert(s.rows, ps[0].id, ProductInsert(w, false, s.rows, ps[0]), p);
      StaysDone(w, ApplyAll(s, ProcessProduct(w, false, s.rows, ps[0]).effects), ps[1..], p);
    }
  }

  /** A product that got a new image is finished, so one that is not got none. */
  lemma {:induction false} InsertedIsDone(w: World, s: Store, ps: seq<Product>, i: nat)
    requires i < |ps| && DistinctIds(ps) && !AlreadyDone(RunStore(w, false, s, ps).rows, ps[i].id)
    ensures ProductInsert(w, false, RowsAt(w, s, ps, i), ps[i]).None?
    decreases |ps|
  {
    var u := ApplyAll(s, ProcessProduct(w, false, s.rows, ps[0]).effects);
    RunUnfolds(w, s, ps);
    if i == 0 {
      ProcessRows(w, false, s, ps[0]);
      DoneAfterInsert(s.rows, ps[0].id, ProductInsert(w, false, s.rows, ps[0]), ps[0].id);
      if ProductInsert(w, false, s.rows, ps[0]).Some? {
        StaysDone(w, u, ps[1..], ps[0].id);
      }
    } else {
      InsertedIsDone(w, u, ps[1..], i - 1);
    }
  }

  lemma DefaultRevisit(w: World, s: Store, cfg: Config, catalog: seq<Product>, q: Product)
    requires DefaultMode(cfg) && DistinctIds(catalog)
    requires forall p: int :: AlreadyDone(s.rows, p) || FailuresRecorded(s.rows, w.unsaved, p)
    requires var ps := LoadProducts(cfg, s.rows, catalog);
             q in LoadProducts(cfg, RunStore(w, false, s, ps).rows, catalog)
    ensures RepeatsFor(w, s, LoadProducts(cfg, s.rows, catalog), q)
  {
    var ps := LoadProducts(cfg, s.rows, catalog);
    var t := RunStore(w, false, s, ps);
    SelectFacts(cfg, s.rows, catalog);
    SelectFacts(cfg, t.rows, catalog);
    if q !in ps {
      assert q.id !in Ids(ps) by { OneProductPerId(catalog, ps, q); }
      StaysDone(w, s, ps, q.id);
      assert false;
    }
    var i :| 0 <= i < |ps| && ps[i] == q;
    InsertedIsDone(w, s, ps, i);
    Revisit(w, s, ps, i);
  }

  lemma OneProductPerId(catalog: seq<Product>, ps: seq<Product>, q: Product)
    requires DistinctIds(catalog) && q in catalog && q !in ps && forall p :: p in ps ==> p in catalog
    ensures q.id !in Ids(ps)
  {
    forall p | p in ps ensures p.id != q.id {
      var i, j :| 0 <= i < |catalog| && catalog[i] == p && 0 <= j < |catalog| && catalog[j] == q;
    }
  }

  /** In the default mode a second run is quiet whatever the rows, duplicates included, because a
      product that got an image is skipped: exactly when every save that raises is of a checksum some
      row already has, or of a finished product. */
  lemma DefaultRerunsAreQuietIff(rows: seq<Row>, unsaved: set<(int, string)>)
    ensures DefaultRerunsAreQuiet(rows, unsaved)
            <==> forall p: int :: AlreadyDone(rows, p) || FailuresRecorded(rows, unsaved, p)
  {
    if p: int :| !AlreadyDone(rows, p) && !FailuresRecorded(rows, unsaved, p) {
      var c :| (p, c) in unsaved && !Recorded(rows, c);
      var q := FreshProduct(rows, unsaved, p);
      DefaultOvertakenSave(rows, unsaved, p, q, c);
    } else {
      forall w: World, s: Store, cfg: Config, catalog: seq<Product> |
        s.rows == rows && w.unsaved == unsaved && DefaultMode(cfg) && DistinctIds(catalog)
        ensures var ps := LoadProducts(cfg, rows, catalog);
                RerunIsQuiet(w, s, ps, LoadProducts(cfg, RunStore(w, false, s, ps).rows, catalog))
      {
        var ps := LoadProducts(cfg, rows, catalog);
        var qs := LoadProducts(cfg, RunStore(w, false, s, ps).rows, catalog);
        forall j | 0 <= j < |qs| ensures RepeatsFor(w, s, ps, qs[j]) {
          DefaultRevisit(w, s, cfg, catalog, qs[j]);
        }
        RepeatsAreQuiet(w, s, ps, qs);
      }
    }
  }

  lemma DefaultOvertakenSave(rows: seq<Row>, unsaved: set<(int, string)>, p: int, q: int, c: string)
    requires p != q && (p, c) in unsaved && (q, c) !in unsaved && !Recorded(rows, c)
    requires !AlreadyDone(rows, p) && forall i :: 0 <= i < |rows| ==> rows[i].product != q
    ensures !DefaultRerunsAreQuiet(rows, unsaved)
  {
    var w, s, a, b := OneImageWorld(c, unsaved), Store(rows, {}), ProductWithGtin(p), ProductWithGtin(q);
    var cfg := Config(false, None, None, None, false);
    OvertakenRun(rows, unsaved, p, q, c);
    SelectBoth(cfg, rows, a, b);
    var t := RunStore(w, false, s, [a, b]);
    assert t.rows[|rows|] == ApprovedRow(q, c);
    assert !AlreadyDone(t.rows, p) by {
      if i :| 0 <= i < |t.rows| && t.rows[i].product == p && t.rows[i].isPrimary && t.rows[i].review.Approved? {
        assert i < |rows| && t.rows[i] == DemoteRow(rows[i], q);
      }
    }
    SelectBoth(cfg, t.rows, a, b);
    assert LoadProducts(cfg, rows, [a, b]) == [a, b] && LoadProducts(cfg, t.rows, [a, b]) == [a];
    RunOfOne(w, t, a);
    assert a.id == p && b.id == q;
    assert !RerunIsQuiet(w, s, [a, b], [a]);
    assert DefaultMode(cfg) && s.rows == rows && w.unsaved == unsaved;
  }

  lemma SelectBoth(cfg: Config, rows: seq<Row>, a: Product, b: Product)
    requires a.approved && b.approved && a.id != b.id && cfg == Config(false, None, None, None, false)
    ensures DistinctIds([a, b])
    ensures LoadProducts(cfg, rows, [a, b]) == (if AlreadyDone(rows, a.id) then [] else [a])
        + (if AlreadyDone(rows, b.id) then [] else [b])
  {
    assert [a, b][1..] == [b] && [b][1..] == [];
    assert SelectProducts(cfg, rows, [b]) == if AlreadyDone(rows, b.id) then [] else [b];
  }

  lemma StillUnsettled(rows: seq<Row>, p: int, c: string, i: nat)
    requires i < |rows| && Owns(rows[i], p, c) && !KnownApproved(rows, p, c) && !ChecksumBelongsToOther(rows, p, c)
    ensures var later := Demoted(rows, p) + [ApprovedRow(p, c)];
            !KnownApproved(later, p, c) && !ChecksumBelongsToOther(later, p, c)
  {
    var d := Demoted(rows, p);
    var later := d + [ApprovedRow(p, c)];
    DemotionKeepsFacts(rows, p, p, c);
    assert Owns(d[i], p, c) && later[i] == d[i];
    if j :| 0 <= j < |later| && Owns(later[j], p, c) && later[j].review.Approved?
            && forall k :: 0 <= k < j ==> !Owns(later[k], p, c) {
      assert j <= i && later[j] == d[j];
      forall k | 0 <= k < j ensures !Owns(d[k], p, c) { assert later[k] == d[k]; }
      assert KnownApproved(d, p, c);
    }
    forall j | 0 <= j < |later| ensures !Foreign(later[j], p, c) {
      assert j < |d| ==> later[j] == d[j] && !Foreign(d[j], p, c);
    }
  }

  /** The case the source has in mind: every stored row approved. */
  lemma AllApprovedIsSettled(rows: seq<Row>, unsaved: set<(int, string)>)
    requires forall r :: r in rows ==> r.review.Approved?
    ensures Settled(rows, unsaved)
  {
    forall i | 0 <= i < |rows| ensures SettledRow(rows, rows[i], unsaved) {
      if rows[i].checksum.Some? {
        var p, c := rows[i].product, rows[i].checksum.value;
        assert Owns(rows[i], p, c);
        var e := ExistingImage(rows, p, c);
        ExistingIsMember(rows, p, c);
      }
    }
  }

  lemma {:induction false} ExistingIsMember(rows: seq<Row>, p: int, c: string)
    ensures ExistingImage(rows, p, c).Some? ==> ExistingImage(rows, p, c).value in rows
  {
    if rows != [] && !Owns(rows[0], p, c) {
      ExistingIsMember(rows[1..], p, c);
    }
  }
}
