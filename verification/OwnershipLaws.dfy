/** What holds of the image rows and objects wherever a run stops. */
module OwnershipLaws {
  import opened Basics
  import opened CatalogStore
  import opened Icecat
  import opened PipelineSpec

  ghost predicate OnePrimaryEach(rows: seq<Row>) {
    forall i, j :: 0 <= i < j < |rows| && rows[i].isPrimary && rows[j].isPrimary ==> rows[i].product != rows[j].product
  }

  ghost predicate NoSharedChecksum(rows: seq<Row>) {
    forall i, j :: 0 <= i < j < |rows| && rows[i].checksum.Some? && rows[i].checksum == rows[j].checksum
                   ==> rows[i].product == rows[j].product
  }

  /** The row's card, summary and detail objects are all in storage. */
  ghost predicate BackedRow(r: Row, objects: set<ObjectKey>) {
    && r.checksum.Some?
    && r.storageKey == Some(ObjectKey(r.product, r.checksum.value, Card))
    && forall v :: ObjectKey(r.product, r.checksum.value, v) in objects
  }

  /** The invariant; rows from position `n` on are the pipeline's own. */
  ghost predicate Sound(s: Store, n: nat) {
    && n <= |s.rows|
    && OnePrimaryEach(s.rows)
    && NoSharedChecksum(s.rows)
    && forall i :: n <= i < |s.rows| ==> BackedRow(s.rows[i], s.objects)
  }

  /** When a single write may be made. */
  ghost predicate Safe(s: Store, e: Effect) {
    e.Insert? ==>
      && BackedRow(e.row, s.objects)
      && e.row.isPrimary
      && !HasPrimary(s.rows, e.row.product)
      && !ChecksumBelongsToOther(s.rows, e.row.product, e.row.checksum.value)
  }

  ghost predicate SafeTrace(s: Store, es: seq<Effect>)
    decreases |es|
  {
    es == [] || (Safe(s, es[0]) && SafeTrace(Apply(s, es[0]), es[1..]))
  }

  lemma SafeKeepsSound(s: Store, e: Effect, n: nat)
    requires Sound(s, n) && Safe(s, e)
    ensures Sound(Apply(s, e), n)
  {
    var t := Apply(s, e);
    match e {
      case Upload(_) | Rollback(_) =>
      case Demote(p) =>
        forall i | 0 <= i < |t.rows| ensures t.rows[i] == DemoteRow(s.rows[i], p) {}
      case Insert(row) =>
        forall i | 0 <= i < |s.rows| ensures t.rows[i] == s.rows[i]
                                             && (s.rows[i].isPrimary ==> s.rows[i].product != row.product)
                                             && (s.rows[i].checksum == row.checksum ==>
                                                 s.rows[i].product == row.product) {
          assert !Foreign(s.rows[i], row.product, row.checksum.value);
        }
    }
  }

  lemma {:induction false} SafeStop(s: Store, es: seq<Effect>, n: nat, stop: nat)
    requires Sound(s, n) && SafeTrace(s, es) && stop <= |es|
    ensures Sound(ApplyAll(s, es[..stop]), n)
    decreases stop
  {
    if stop != 0 {
      SafeKeepsSound(s, es[0], n);
      SafeStop(Apply(s, es[0]), es[1..], n, stop - 1);
      assert es[..stop][1..] == es[1..][..stop - 1];
    }
  }

  lemma {:induction false} SafeAppend(s: Store, a: seq<Effect>, b: seq<Effect>)
    requires SafeTrace(s, a) && SafeTrace(ApplyAll(s, a), b)
    ensures SafeTrace(s, a + b)
    decreases |a|
  {
    if a == [] {
      assert a + b == b;
    } else {
      assert (a + b)[1..] == a[1..] + b;
      SafeAppend(Apply(s, a[0]), a[1..], b);
    }
  }

  lemma {:induction false} UploadsOnly(s: Store, es: seq<Effect>)
    requires forall e :: e in es ==> e.Upload? || e.Rollback?
    ensures SafeTrace(s, es)
    ensures ApplyAll(s, es).rows == s.rows
    ensures forall e :: e in es && e.Upload? ==> e.key in ApplyAll(s, es).objects
    ensures s.objects <= ApplyAll(s, es).objects
    decreases |es|
  {
    if es != [] {
      UploadsOnly(Apply(s, es[0]), es[1..]);
      forall e | e in es && e.Upload? ensures e.key in ApplyAll(s, es).objects {
        assert e == es[0] || e in es[1..];
      }
    }
  }

  /** A candidate that is rejected or raises changes no row. */
  lemma RejectionKeepsRows(w: World, dry: bool, s: Store, p: int, c: Candidate)
    requires !Judge(w, dry, s.rows, p, c).Approve?
    ensures ApplyAll(s, AttemptEffects(w, dry, s.rows, p, c)).rows == s.rows
    ensures SafeTrace(s, AttemptEffects(w, dry, s.rows, p, c))
  {
    UploadsOnly(s, AttemptEffects(w, dry, s.rows, p, c));
  }

  lemma InsertIsSafe(w: World, s: Store, p: int, c: string)
    requires Uploadable(w, p, c) && !ChecksumBelongsToOther(s.rows, p, c)
    ensures SafeTrace(s, UploadEffects(w, p, c) + [Demote(p), Insert(ApprovedRow(p, c))])
  {
    var ups, tail := UploadEffects(w, p, c), [Demote(p), Insert(ApprovedRow(p, c))];
    UploadsOnly(s, ups);
    var t := ApplyAll(s, ups);
    assert Upload(ObjectKey(p, c, Card)) == ups[0] && Upload(ObjectKey(p, c, Summary)) == ups[1]
        && Upload(ObjectKey(p, c, Detail)) == ups[2];
    forall v ensures ObjectKey(p, c, v) in t.objects {
      match v { case Card => case Summary => case Detail => }
    }
    var u := Apply(t, Demote(p));
    forall i | 0 <= i < |u.rows| ensures !(u.rows[i].product == p && u.rows[i].isPrimary) && !Foreign(u.rows[i], p, c) {
      assert !Foreign(s.rows[i], p, c);
    }
    assert tail[1..] == [Insert(ApprovedRow(p, c))] && tail[1..][1..] == [];
    assert Safe(u, Insert(ApprovedRow(p, c)));
    SafeAppend(s, ups, tail);
  }

  lemma {:induction false} ScanIsSafe(w: World, dry: bool, s: Store, p: int, cs: seq<Candidate>, k: nat)
    requires k <= |cs|
    ensures SafeTrace(s, ScanEffects(w, dry, s.rows, p, cs, k))
    decreases |cs| - k
  {
    if k < |cs| {
      var here := AttemptEffects(w, dry, s.rows, p, cs[k]);
      match Judge(w, dry, s.rows, p, cs[k]) {
        case Reject(_) =>
          RejectionKeepsRows(w, dry, s, p, cs[k]);
          ScanIsSafe(w, dry, ApplyAll(s, here), p, cs, k + 1);
          SafeAppend(s, here, ScanEffects(w, dry, s.rows, p, cs, k + 1));
        case Approve(reason) =>
          if reason == AutoApproved {
            InsertIsSafe(w, s, p, Inspect(w, s.rows, p, cs[k]).checksum);
          }
          assert here + [] == here;
        case Raise =>
          RejectionKeepsRows(w, dry, s, p, cs[k]);
          assert here + [] == here;
      }
    }
  }

  lemma {:induction false} RunIsSafe(w: World, dry: bool, s: Store, ps: seq<Product>)
    ensures SafeTrace(s, Writes(RunOutcomes(w, dry, s, ps)))
    decreases |ps|
  {
    if ps != [] {
      var o := ProcessProduct(w, dry, s.rows, ps[0]);
      match FindImages(w, ps[0]) {
        case Matched(cs, _) => ScanIsSafe(w, dry, s, ps[0].id, cs, 0);
        case _ =>
      }
      RunIsSafe(w, dry, ApplyAll(s, o.effects), ps[1..]);
      SafeAppend(s, o.effects, Writes(RunOutcomes(w, dry, ApplyAll(s, o.effects), ps[1..])));
      assert RunOutcomes(w, dry, s, ps)[1..] == RunOutcomes(w, dry, ApplyAll(s, o.effects), ps[1..]);
    }
  }

  /** Wherever a run stops: at most one primary image per product, no checksum shared by two
      products, and every inserted row has its three objects in storage. */
  lemma OwnershipAtEveryStop(w: World, dry: bool, s: Store, ps: seq<Product>, stop: nat)
    requires OnePrimaryEach(s.rows) && NoSharedChecksum(s.rows)
    requires stop <= |Writes(RunOutcomes(w, dry, s, ps))|
    ensures Sound(ApplyAll(s, Writes(RunOutcomes(w, dry, s, ps))[..stop]), |s.rows|)
  {
    RunIsSafe(w, dry, s, ps);
    SafeStop(s, Writes(RunOutcomes(w, dry, s, ps)), |s.rows|, stop);
  }

  /** A demotion is followed at once by the insertion of the same product's new primary. */
  ghost predicate Paired(es: seq<Effect>) {
    forall i :: 0 <= i < |es| && es[i].Demote? ==>
      i + 1 < |es| && es[i + 1].Insert? && es[i + 1].row.product == es[i].product && es[i + 1].row.isPrimary
  }

  lemma PairedAppend(a: seq<Effect>, b: seq<Effect>)
    requires Paired(a) && Paired(b)
    ensures Paired(a + b)
  {
    var es := a + b;
    forall i | 0 <= i < |es| && es[i].Demote?
      ensures i + 1 < |es| && es[i + 1].Insert? && es[i + 1].row.product == es[i].product && es[i + 1].row.isPrimary
    {
      if i < |a| { assert a[i].Demote?; } else { assert b[i - |a|].Demote?; }
    }
  }

  lemma {:induction false} ScanIsPaired(w: World, dry: bool, rows: seq<Row>, p: int, cs: seq<Candidate>, k: nat)
    requires k <= |cs|
    ensures Paired(ScanEffects(w, dry, rows, p, cs, k))
    decreases |cs| - k
  {
    if k < |cs| {
      var here := AttemptEffects(w, dry, rows, p, cs[k]);
      assert Paired(here);
      if Judge(w, dry, rows, p, cs[k]).Reject? {
        ScanIsPaired(w, dry, rows, p, cs, k + 1);
        PairedAppend(here, ScanEffects(w, dry, rows, p, cs, k + 1));
      } else {
        assert here + [] == here;
      }
    }
  }

  lemma {:induction false} RunIsPaired(w: World, dry: bool, s: Store, ps: seq<Product>)
    ensures Paired(Writes(RunOutcomes(w, dry, s, ps)))
    decreases |ps|
  {
    if ps != [] {
      var o := ProcessProduct(w, dry, s.rows, ps[0]);
      match FindImages(w, ps[0]) {
        case Matched(cs, _) => ScanIsPaired(w, dry, s.rows, ps[0].id, cs, 0);
        case _ =>
      }
      RunIsPaired(w, dry, ApplyAll(s, o.effects), ps[1..]);
      PairedAppend(o.effects, Writes(RunOutcomes(w, dry, ApplyAll(s, o.effects), ps[1..])));
      assert RunOutcomes(w, dry, s, ps)[1..] == RunOutcomes(w, dry, ApplyAll(s, o.effects), ps[1..]);
    }
  }

  lemma {:induction false} PairedKeepsPrimary(s: Store, es: seq<Effect>, stop: nat, p: int)
    requires Paired(es) && stop <= |es| && (stop == 0 || !es[stop - 1].Demote?)
    requires HasPrimary(s.rows, p)
    ensures HasPrimary(ApplyAll(s, es[..stop]).rows, p)
    decreases stop
  {
    if stop != 0 {
      var t := Apply(s, es[0]);
      assert es[..stop][1..] == es[1..][..stop - 1];
      assert Paired(es[1..]);
      if es[0].Demote? {
        var u := Apply(t, es[1]);
        assert es[1..][..stop - 1][1..] == es[2..][..stop - 2];
        assert Paired(es[2..]);
        assert ApplyAll(s, es[..stop]) == ApplyAll(t, es[1..][..stop - 1]) == ApplyAll(u, es[2..][..stop - 2]);
        assert HasPrimary(u.rows, p) by {
          if es[0].product == p {
            assert u.rows[|t.rows|] == es[1].row;
          } else {
            var i :| 0 <= i < |s.rows| && s.rows[i].product == p && s.rows[i].isPrimary;
            assert u.rows[i] == s.rows[i];
          }
        }
        PairedKeepsPrimary(u, es[2..], stop - 2, p);
      } else {
        assert HasPrimary(t.rows, p) by {
          var i :| 0 <= i < |s.rows| && s.rows[i].product == p && s.rows[i].isPrimary;
          assert t.rows[i] == s.rows[i];
        }
        PairedKeepsPrimary(t, es[1..], stop - 1, p);
      }
    }
  }

  /** Outside the uncommitted gap between a demotion and its insertion, no product that had a
      primary image is ever without one. */
  lemma PrimaryNeverLost(w: World, dry: bool, s: Store, ps: seq<Product>, stop: nat, p: int)
    requires HasPrimary(s.rows, p)
    requires var es := Writes(RunOutcomes(w, dry, s, ps)); stop <= |es| && (stop == 0 || !es[stop - 1].Demote?)
    ensures HasPrimary(ApplyAll(s, Writes(RunOutcomes(w, dry, s, ps))[..stop]).rows, p)
  {
    RunIsPaired(w, dry, s, ps);
    PairedKeepsPrimary(s, Writes(RunOutcomes(w, dry, s, ps)), stop, p);
  }

  /** A completed insertion leaves its row as the product's only primary. */
  lemma InsertLeavesOnePrimary(w: World, dry: bool, s: Store, ps: seq<Product>, at: nat, i: nat)
    requires var es := Writes(RunOutcomes(w, dry, s, ps)); at < |es| && es[at].Insert?
    ensures var es := Writes(RunOutcomes(w, dry, s, ps));
            var rows := ApplyAll(s, es[..at + 1]).rows;
            i < |rows| ==> (rows[i].product == es[at].row.product && rows[i].isPrimary <==> i == |rows| - 1)
  {
    var es := Writes(RunOutcomes(w, dry, s, ps));
    RunIsSafe(w, dry, s, ps);
    assert es[..at] + es[at..] == es;
    SafeSplit(s, es[..at], es[at..]);
    assert es[..at + 1] == es[..at] + [es[at]];
    ApplyAppend(s, es[..at], [es[at]]);
    var t := ApplyAll(s, es[..at]);
    assert [es[at]][1..] == [] && Safe(t, es[at..][0]);
    if i < |t.rows| {
      assert ApplyAll(s, es[..at + 1]).rows[i] == t.rows[i];
    }
  }

  lemma {:induction false} SafeSplit(s: Store, a: seq<Effect>, b: seq<Effect>)
    requires SafeTrace(s, a + b)
    ensures SafeTrace(ApplyAll(s, a), b)
    decreases |a|
  {
    if a == [] {
      assert a + b == b;
    } else {
      assert (a + b)[1..] == a[1..] + b;
      SafeSplit(Apply(s, a[0]), a[1..], b);
    }
  }
}
