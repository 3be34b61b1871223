/** The image rows and stored objects the pipeline reads and writes. */
module CatalogStore {
  import opened Basics

  datatype Review = Pending | Approved | Rejected

  datatype Variant = Card | Summary | Detail

  /** `products/{product}/{checksum}/{variant}.webp`; a checksum is hexadecimal, so the path is injective. */
  datatype ObjectKey = ObjectKey(product: int, checksum: string, variant: Variant)

  datatype Row = Row(
    product: int,
    checksum: Option<string>,
    review: Review,
    isPrimary: bool,
    storageKey: Option<ObjectKey>)

  datatype Store = Store(rows: seq<Row>, objects: set<ObjectKey>)

  /** One write. A product's Demote and Insert are flushed together and then committed; Rollback
      stands for such a block that raised and left the rows as they were. */
  datatype Effect = Upload(key: ObjectKey) | Demote(product: int) | Insert(row: Row) | Rollback(product: int)

  predicate Owns(r: Row, p: int, c: string) {
    r.product == p && r.checksum == Some(c)
  }

  predicate HasRow(rows: seq<Row>, p: int, c: string) {
    exists i :: 0 <= i < |rows| && Owns(rows[i], p, c)
  }

  /** The first row for this product and checksum exists and is approved. */
  predicate KnownApproved(rows: seq<Row>, p: int, c: string) {
    exists i :: 0 <= i < |rows| && Owns(rows[i], p, c) && rows[i].review.Approved?
                && forall j :: 0 <= j < i ==> !Owns(rows[j], p, c)
  }

  predicate HasPrimary(rows: seq<Row>, p: int) {
    exists i :: 0 <= i < |rows| && rows[i].product == p && rows[i].isPrimary
  }

  predicate Foreign(r: Row, p: int, c: string) {
    r.product != p && r.checksum == Some(c)
  }

  /** Another product already has a row with this checksum. */
  predicate ChecksumBelongsToOther(rows: seq<Row>, p: int, c: string) {
    exists i :: 0 <= i < |rows| && Foreign(rows[i], p, c)
  }

  /** The first matching row in insertion order. */
  function ExistingImage(rows: seq<Row>, p: int, c: string): (r: Option<Row>)
    ensures r.None? <==> !HasRow(rows, p, c)
    ensures r.Some? && r.value.review.Approved? <==> KnownApproved(rows, p, c)
  {
    if rows == [] then None
    else if Owns(rows[0], p, c) then assert Owns(rows[0], p, c); Some(rows[0])
    else
      var rest := ExistingImage(rows[1..], p, c);
      assert HasRow(rows[1..], p, c) ==> HasRow(rows, p, c) by {
        if i :| 0 <= i < |rows[1..]| && Owns(rows[1..][i], p, c) { assert Owns(rows[i + 1], p, c); }
      }
      assert HasRow(rows, p, c) ==> HasRow(rows[1..], p, c) by {
        if i :| 0 <= i < |rows| && Owns(rows[i], p, c) { assert rows[1..][i - 1] == rows[i]; }
      }
      assert KnownApproved(rows[1..], p, c) <==> KnownApproved(rows, p, c) by { KnownTail(rows, p, c); }
      rest
  }

  lemma KnownTail(rows: seq<Row>, p: int, c: string)
    requires rows != [] && !Owns(rows[0], p, c)
    ensures KnownApproved(rows[1..], p, c) <==> KnownApproved(rows, p, c)
  {
    var tail := rows[1..];
    if i :| 0 <= i < |tail| && Owns(tail[i], p, c) && tail[i].review.Approved?
            && forall j :: 0 <= j < i ==> !Owns(tail[j], p, c) {
      forall j | 0 <= j < i + 1 ensures !Owns(rows[j], p, c) {
        assert j == 0 || rows[j] == tail[j - 1];
      }
      assert Owns(rows[i + 1], p, c);
    }
    if i :| 0 <= i < |rows| && Owns(rows[i], p, c) && rows[i].review.Approved?
            && forall j :: 0 <= j < i ==> !Owns(rows[j], p, c) {
      forall j | 0 <= j < i - 1 ensures !Owns(tail[j], p, c) {
        assert tail[j] == rows[j + 1];
      }
      assert tail[i - 1] == rows[i];
    }
  }

  function DemoteRow(r: Row, p: int): Row {
    if r.product == p && r.isPrimary then r.(isPrimary := false) else r
  }

  function Demoted(rows: seq<Row>, p: int): seq<Row> {
    seq(|rows|, i requires 0 <= i < |rows| => DemoteRow(rows[i], p))
  }

  function Apply(s: Store, e: Effect): Store {
    match e
    case Upload(key) => s.(objects := s.objects + {key})
    case Demote(p) => s.(rows := Demoted(s.rows, p))
    case Insert(row) => s.(rows := s.rows + [row])
    case Rollback(_) => s
  }

  function ApplyAll(s: Store, es: seq<Effect>): Store
    decreases |es|
  {
    if es == [] then s else ApplyAll(Apply(s, es[0]), es[1..])
  }

  lemma {:induction false} ApplyAppend(s: Store, a: seq<Effect>, b: seq<Effect>)
    ensures ApplyAll(s, a + b) == ApplyAll(ApplyAll(s, a), b)
    decreases |a|
  {
    if a == [] {
      assert a + b == b;
    } else {
      ApplyAppend(Apply(s, a[0]), a[1..], b);
      assert (a + b)[1..] == a[1..] + b;
    }
  }

  lemma ApplyPair(s: Store, e: Effect, f: Effect)
    ensures ApplyAll(s, [e, f]) == Apply(Apply(s, e), f)
  {
    var es := [e, f];
    assert es[1..] == [f] && es[1..][1..] == [];
    assert ApplyAll(Apply(s, e), es[1..]) == Apply(Apply(s, e), f);
  }
}
