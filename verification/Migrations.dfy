/** Schema migrations 0002, 0003 and 0004: guarded changes to tables, columns and indexes. */
module Migrations {
  import opened Basics

  datatype TableName = Batches | Records | Images | Reviews | Leases | OtherTable(name: string)

  datatype Column =
    | AmbiguousCount | StagedCount | CommittedCount | EntityType
    | IcecatId | AccessLevel | MatchMethod | SourceBrand | SourceMpn | SourceGtin | LicenseMetadata | RetrievedAt
    | OtherColumn(name: string)

  datatype Index = RecordBatchStatus | ReviewImage | ReviewDecision | ReviewCreated | OtherIndex(name: string)

  datatype SqlType = Integer | Varchar(length: nat) | Text | DateTime

  datatype ColumnDef = ColumnDef(sqlType: SqlType, nullable: bool, serverDefault: Option<string>)

  datatype Table = Table(columns: map<Column, ColumnDef>, indexes: set<Index>)

  type Schema = map<TableName, Table>

  const COUNT_COLUMNS := [AmbiguousCount, StagedCount, CommittedCount]
  const BATCH_COLUMNS := [AmbiguousCount, StagedCount, CommittedCount, EntityType]
  const BATCH_DROPS := [CommittedCount, StagedCount, AmbiguousCount, EntityType]
  const IMAGE_COLUMNS := [IcecatId, AccessLevel, MatchMethod, SourceBrand, SourceMpn, SourceGtin, LicenseMetadata,
                          RetrievedAt]
  const REVIEW_INDEXES := [ReviewImage, ReviewDecision, ReviewCreated]
  const REVIEW_INDEX_DROPS := [ReviewCreated, ReviewDecision, ReviewImage]

  /** The definition that a migration gives a column it adds. */
  function Definition(c: Column): ColumnDef {
    match c
    case AmbiguousCount | StagedCount | CommittedCount => ColumnDef(Integer, false, Some("0"))
    case EntityType => ColumnDef(Varchar(48), false, Some("PRODUCT"))
    case IcecatId => ColumnDef(Integer, true, None)
    case AccessLevel | MatchMethod => ColumnDef(Varchar(100), true, None)
    case SourceBrand | SourceMpn => ColumnDef(Varchar(160), true, None)
    case SourceGtin => ColumnDef(Varchar(32), true, None)
    case LicenseMetadata | OtherColumn(_) => ColumnDef(Text, true, None)
    case RetrievedAt => ColumnDef(DateTime, true, None)
  }

  /** The tables that are created whole; their columns are fixed. */
  datatype Created = Created(records: map<Column, ColumnDef>,
                             reviews: map<Column, ColumnDef>,
                             leases: map<Column, ColumnDef>)

  // ---------- what the operations amount to ----------

  function Missing(t: Table, names: seq<Column>): map<Column, ColumnDef> {
    map n | n in names && n !in t.columns :: Definition(n)
  }

  function AddMissing(t: Table, names: seq<Column>): Table {
    t.(columns := t.columns + Missing(t, names))
  }

  function DropPresent(t: Table, names: seq<Column>): Table {
    t.(columns := t.columns - set n | n in names)
  }

  function Upgrade0002(s: Schema, c: Created): Schema
    requires Batches in s
  {
    var u := s[Batches := AddMissing(s[Batches], BATCH_COLUMNS)];
    if Records in s then u else u[Records := Table(c.records, {RecordBatchStatus})]
  }

  function Downgrade0002(s: Schema): Schema
    requires Batches in s
  {
    s[Batches := DropPresent(s[Batches], BATCH_COLUMNS)] - {Records}
  }

  function Upgrade0003(s: Schema, c: Created): Schema {
    if Reviews in s then s else s[Reviews := Table(c.reviews, set i | i in REVIEW_INDEXES)]
  }

  function Downgrade0003(s: Schema): Schema {
    s - {Reviews}
  }

  function Upgrade0004(s: Schema, c: Created): Schema
    requires Images in s
  {
    var u := s[Images := AddMissing(s[Images], IMAGE_COLUMNS)];
    if Leases in s then u else u[Leases := Table(c.leases, {})]
  }

  function Downgrade0004(s: Schema): Schema
    requires Images in s
  {
    s[Images := DropPresent(s[Images], IMAGE_COLUMNS)] - {Leases}
  }

  /** The migrations themselves, changing a live schema in place. */
  class Database {
    var schema: Schema

    constructor (schema: Schema)
      ensures this.schema == schema
    {
      this.schema := schema;
    }

    /** Add each named column that the inspector did not list. */
    method AddMissingColumns(table: TableName, names: seq<Column>)
      requires table in schema
      modifies this
      ensures schema == old(schema)[table := AddMissing(old(schema)[table], names)]
    {
      var existing := schema[table].columns.Keys;
      ghost var t, before := schema[table], schema;
      AddMissingStart(t, names);
      for k := 0 to |names|
        invariant schema == before[table := AddMissing(t, names[..k])]
      {
        AddMissingStep(t, names, k);
        if names[k] !in existing {
          schema := schema[table := schema[table].(columns := schema[table].columns[names[k] := Definition(names[k])])];
        }
      }
      assert names[..|names|] == names;
    }

    method DropPresentColumns(table: TableName, names: seq<Column>)
      requires table in schema
      modifies this
      ensures schema == old(schema)[table := DropPresent(old(schema)[table], names)]
    {
      var existing := schema[table].columns.Keys;
      ghost var t := schema[table];
      assert names[..0] == [] && AddMissing(t, []).columns == t.columns == DropPresent(t, []).columns;
      for k := 0 to |names|
        invariant schema == old(schema)[table := DropPresent(t, names[..k])]
      {
        assert names[..k + 1] == names[..k] + [names[k]];
        if names[k] in existing {
          schema := schema[table := schema[table].(columns := schema[table].columns - {names[k]})];
        }
        assert schema[table].columns == DropPresent(t, names[..k + 1]).columns;
      }
      assert names[..|names|] == names;
    }

    method Run0002Upgrade(c: Created)
      requires Batches in schema
      modifies this
      ensures schema == Upgrade0002(old(schema), c)
    {
      ghost var t := schema[Batches];
      AddMissingColumns(Batches, COUNT_COLUMNS);
      AddMissingColumns(Batches, [EntityType]);
      AddMissingAppend(t, COUNT_COLUMNS, [EntityType]);
      assert COUNT_COLUMNS + [EntityType] == BATCH_COLUMNS;
      assert schema == old(schema)[Batches := AddMissing(t, BATCH_COLUMNS)];
      if Records in schema {
        return;
      }
      schema := schema[Records := Table(c.records, {})];
      CreateIndex(Records, RecordBatchStatus);
      assert schema[Records].indexes == {RecordBatchStatus};
    }

    method Run0002Downgrade()
      requires Batches in schema
      modifies this
      ensures schema == Downgrade0002(old(schema))
    {
      ghost var before := schema;
      if Records in schema {
        if RecordBatchStatus in schema[Records].indexes {
          schema := schema[Records := schema[Records].(indexes := schema[Records].indexes - {RecordBatchStatus})];
        }
        schema := schema - {Records};
      }
      assert schema == before - {Records};
      DropPresentColumns(Batches, BATCH_DROPS);
      assert (set n | n in BATCH_DROPS) == (set n | n in BATCH_COLUMNS);
    }

    method Run0003Upgrade(c: Created)
      modifies this
      ensures schema == Upgrade0003(old(schema), c)
    {
      if Reviews in schema {
        return;
      }
      schema := schema[Reviews := Table(c.reviews, {})];
      CreateIndex(Reviews, ReviewImage);
      CreateIndex(Reviews, ReviewDecision);
      CreateIndex(Reviews, ReviewCreated);
      assert schema[Reviews].indexes == set i | i in REVIEW_INDEXES;
    }

    method CreateIndex(table: TableName, i: Index)
      requires table in schema
      modifies this
      ensures schema == old(schema)[table := old(schema)[table].(indexes := old(schema)[table].indexes + {i})]
    {
      schema := schema[table := schema[table].(indexes := schema[table].indexes + {i})];
    }

    method Run0003Downgrade()
      modifies this
      ensures schema == Downgrade0003(old(schema))
    {
      if Reviews !in schema {
        return;
      }
      for k := 0 to |REVIEW_INDEX_DROPS|
        invariant Reviews in schema && schema - {Reviews} == old(schema) - {Reviews}
      {
        var name := REVIEW_INDEX_DROPS[k];
        if name in schema[Reviews].indexes {
          schema := schema[Reviews := schema[Reviews].(indexes := schema[Reviews].indexes - {name})];
        }
      }
      schema := schema - {Reviews};
    }

    method Run0004Upgrade(c: Created)
      requires Images in schema
      modifies this
      ensures schema == Upgrade0004(old(schema), c)
    {
      AddMissingColumns(Images, IMAGE_COLUMNS);
      if Leases !in schema {
        schema := schema[Leases := Table(c.leases, {})];
      }
    }

    method Run0004Downgrade()
      requires Images in schema
      modifies this
      ensures schema == Downgrade0004(old(schema))
    {
      DropPresentColumns(Images, IMAGE_COLUMNS);
      if Leases in schema {
        schema := schema - {Leases};
      }
    }
  }

  lemma AddMissingStart(t: Table, names: seq<Column>)
    ensures AddMissing(t, names[..0]) == t
  {
    assert AddMissing(t, names[..0]).columns == t.columns;
  }

  lemma MissingStep(t: Table, names: seq<Column>, n: Column)
    ensures Missing(t, names + [n])
            == if n in t.columns then Missing(t, names) else Missing(t, names)[n := Definition(n)]
  {
  }

  lemma AddMissingStep(t: Table, names: seq<Column>, k: nat)
    requires k < |names|
    ensures AddMissing(t, names[..k + 1]) ==
            var u := AddMissing(t, names[..k]);
            if names[k] in t.columns then u else u.(columns := u.columns[names[k] := Definition(names[k])])
  {
    assert names[..k + 1] == names[..k] + [names[k]];
    MissingStep(t, names[..k], names[k]);
  }

  /** Columns are added in two groups. */
  lemma AddMissingAppend(t: Table, names: seq<Column>, more: seq<Column>)
    requires forall n :: n in more ==> n !in names
    ensures AddMissing(AddMissing(t, names), more) == AddMissing(t, names + more)
  {
    assert AddMissing(AddMissing(t, names), more).columns == AddMissing(t, names + more).columns;
  }

  /** `u` has the columns of `t` as they were, and those of `names` that were missing as declared. */
  ghost predicate Completed(t: Table, u: Table, names: seq<Column>) {
    && u.columns.Keys == t.columns.Keys + (set n | n in names)
    && (forall n :: n in t.columns ==> u.columns[n] == t.columns[n])
    && (forall n :: n in names && n !in t.columns ==> u.columns[n] == Definition(n))
    && u.indexes == t.indexes
  }

  lemma AddMissingCompletes(t: Table, names: seq<Column>)
    ensures Completed(t, AddMissing(t, names), names)
  {
    assert AddMissing(t, names).columns.Keys == t.columns.Keys + set n | n in names;
  }

  // ---------- laws ----------

  /** What revision 0001 always leaves: the two tables the later revisions alter. */
  ghost predicate Founded(s: Schema) {
    Batches in s && Images in s
  }

  ghost function UpgradeAll(s: Schema, c: Created): Schema
    requires Founded(s)
  {
    Upgrade0004(Upgrade0003(Upgrade0002(s, c), c), c)
  }

  ghost function DowngradeAll(s: Schema): Schema
    requires Founded(s)
  {
    Downgrade0002(Downgrade0003(Downgrade0004(s)))
  }

  /** Neither table has a column, and no table exists, that the migrations add. */
  ghost predicate HasNoAddition(s: Schema)
    requires Founded(s)
  {
    && (forall n :: n in BATCH_COLUMNS ==> n !in s[Batches].columns)
    && (forall n :: n in IMAGE_COLUMNS ==> n !in s[Images].columns)
    && Records !in s && Reviews !in s && Leases !in s
  }

  lemma AddTwice(t: Table, names: seq<Column>)
    ensures AddMissing(AddMissing(t, names), names) == AddMissing(t, names)
  {
    assert Missing(AddMissing(t, names), names) == map[];
  }

  /** Each upgrade can be repeated, as after a partial `create_all`, without changing anything more. */
  lemma UpgradesAreIdempotent(s: Schema, c: Created)
    requires Founded(s)
    ensures Upgrade0002(Upgrade0002(s, c), c) == Upgrade0002(s, c)
    ensures Upgrade0003(Upgrade0003(s, c), c) == Upgrade0003(s, c)
    ensures Upgrade0004(Upgrade0004(s, c), c) == Upgrade0004(s, c)
  {
    AddTwice(s[Batches], BATCH_COLUMNS);
    AddTwice(s[Images], IMAGE_COLUMNS);
  }

  lemma UpgradedTables(s: Schema, c: Created)
    requires Founded(s)
    ensures var u := UpgradeAll(s, c);
            && (forall t :: t in u <==> t in s || t in {Records, Reviews, Leases})
            && u[Batches] == AddMissing(s[Batches], BATCH_COLUMNS) && u[Images] == AddMissing(s[Images], IMAGE_COLUMNS)
            && (forall t :: t in s && t != Batches && t != Images ==> u[t] == s[t])
  {
  }

  lemma AddedTables(s: Schema, c: Created)
    requires Founded(s)
    ensures var u := UpgradeAll(s, c);
            && (Records !in s ==> Records in u && u[Records] == Table(c.records, {RecordBatchStatus}))
            && (Reviews !in s ==>
                  Reviews in u && u[Reviews] == Table(c.reviews, {ReviewImage, ReviewDecision, ReviewCreated}))
            && (Leases !in s ==> Leases in u && u[Leases] == Table(c.leases, {}))
  {
    assert (set i | i in REVIEW_INDEXES) == {ReviewImage, ReviewDecision, ReviewCreated};
  }

  /** Whatever part of the additions was already there, the same tables and columns exist afterwards,
      every other table is untouched, and nothing that was there is redefined. */
  lemma UpgradeReachesTarget(s: Schema, c: Created)
    requires Founded(s)
    ensures var u := UpgradeAll(s, c);
            && Founded(u)
            && (forall t :: t in u <==> t in s || t in {Records, Reviews, Leases})
            && Completed(s[Batches], u[Batches], BATCH_COLUMNS)
            && Completed(s[Images], u[Images], IMAGE_COLUMNS)
            && (forall t :: t in s && t != Batches && t != Images ==> u[t] == s[t])
            && (Records !in s ==> u[Records] == Table(c.records, {RecordBatchStatus}))
            && (Reviews !in s ==> u[Reviews] == Table(c.reviews, {ReviewImage, ReviewDecision, ReviewCreated}))
            && (Leases !in s ==> u[Leases] == Table(c.leases, {}))
  {
    UpgradedTables(s, c);
    AddedTables(s, c);
    AddMissingCompletes(s[Batches], BATCH_COLUMNS);
    AddMissingCompletes(s[Images], IMAGE_COLUMNS);
  }

  /** The columns added to import batches. */
  const BATCH_ADDITIONS := map[
    AmbiguousCount := ColumnDef(Integer, false, Some("0")),
    StagedCount := ColumnDef(Integer, false, Some("0")),
    CommittedCount := ColumnDef(Integer, false, Some("0")),
    EntityType := ColumnDef(Varchar(48), false, Some("PRODUCT"))]

  /** The columns added to product images. */
  const IMAGE_ADDITIONS := map[
    IcecatId := ColumnDef(Integer, true, None),
    AccessLevel := ColumnDef(Varchar(100), true, None),
    MatchMethod := ColumnDef(Varchar(100), true, None),
    SourceBrand := ColumnDef(Varchar(160), true, None),
    SourceMpn := ColumnDef(Varchar(160), true, None),
    SourceGtin := ColumnDef(Varchar(32), true, None),
    LicenseMetadata := ColumnDef(Text, true, None),
    RetrievedAt := ColumnDef(DateTime, true, None)]

  lemma BatchAddition(n: Column)
    ensures n in BATCH_COLUMNS <==> n in BATCH_ADDITIONS
    ensures n in BATCH_COLUMNS ==> BATCH_ADDITIONS[n] == Definition(n)
  {
  }

  lemma ImageAddition(n: Column)
    ensures n in IMAGE_COLUMNS <==> n in IMAGE_ADDITIONS
    ensures n in IMAGE_COLUMNS ==> IMAGE_ADDITIONS[n] == Definition(n)
  {
  }

  lemma AddsExactly(t: Table, names: seq<Column>, added: map<Column, ColumnDef>)
    requires forall n :: n in names <==> n in added
    requires forall n :: n in names ==> n !in t.columns && added[n] == Definition(n)
    ensures AddMissing(t, names).columns == t.columns + added
  {
    assert Missing(t, names) == added;
  }

  /** What a schema without any of the additions gets, column by column. */
  lemma AddedColumns(s: Schema, c: Created)
    requires Founded(s) && HasNoAddition(s)
    ensures UpgradeAll(s, c)[Batches].columns == s[Batches].columns + BATCH_ADDITIONS
    ensures UpgradeAll(s, c)[Images].columns == s[Images].columns + IMAGE_ADDITIONS
  {
    UpgradedTables(s, c);
    forall n ensures n in BATCH_COLUMNS <==> n in BATCH_ADDITIONS
             ensures n in BATCH_COLUMNS ==> BATCH_ADDITIONS[n] == Definition(n) { BatchAddition(n); }
    forall n ensures n in IMAGE_COLUMNS <==> n in IMAGE_ADDITIONS
             ensures n in IMAGE_COLUMNS ==> IMAGE_ADDITIONS[n] == Definition(n) { ImageAddition(n); }
    AddsExactly(s[Batches], BATCH_COLUMNS, BATCH_ADDITIONS);
    AddsExactly(s[Images], IMAGE_COLUMNS, IMAGE_ADDITIONS);
  }

  /** A pre-existing table keeps whatever indexes it has: the upgrades guarantee theirs exactly when
      the table was absent or already indexed. */
  lemma IndexesAreGuaranteedIff(s: Schema, c: Created)
    requires Founded(s)
    ensures RecordBatchStatus in UpgradeAll(s, c)[Records].indexes
        <==> Records !in s || RecordBatchStatus in s[Records].indexes
    ensures (forall i :: i in REVIEW_INDEXES ==> i in UpgradeAll(s, c)[Reviews].indexes)
            <==> Reviews !in s || forall i :: i in REVIEW_INDEXES ==> i in s[Reviews].indexes
  {
  }

  lemma DropAdded(t: Table, names: seq<Column>)
    ensures DropPresent(AddMissing(t, names), names) == DropPresent(t, names)
  {
    assert DropPresent(AddMissing(t, names), names).columns == DropPresent(t, names).columns;
  }

  lemma RoundTripTables(s: Schema, c: Created, t: TableName)
    requires Founded(s)
    ensures var r := DowngradeAll(UpgradeAll(s, c));
            && (t in r <==> t in s && t !in {Records, Reviews, Leases})
            && (t in r && t != Batches && t != Images ==> r[t] == s[t])
            && r[Batches] == DropPresent(AddMissing(s[Batches], BATCH_COLUMNS), BATCH_COLUMNS)
            && r[Images] == DropPresent(AddMissing(s[Images], IMAGE_COLUMNS), IMAGE_COLUMNS)
  {
  }

  /** Down after up: the three tables are gone, and the altered tables have lost the listed columns. */
  lemma RoundTripResult(s: Schema, c: Created)
    requires Founded(s)
    ensures var r := DowngradeAll(UpgradeAll(s, c));
            && (forall t :: t in r <==> t in s && t !in {Records, Reviews, Leases})
            && (forall t :: t in r && t != Batches && t != Images ==> r[t] == s[t])
            && r[Batches] == DropPresent(s[Batches], BATCH_COLUMNS)
            && r[Images] == DropPresent(s[Images], IMAGE_COLUMNS)
  {
    var r := DowngradeAll(UpgradeAll(s, c));
    forall t ensures (t in r <==> t in s && t !in {Records, Reviews, Leases})
        && (t in r && t != Batches && t != Images ==> r[t] == s[t]) {
      RoundTripTables(s, c, t);
    }
    RoundTripTables(s, c, Batches);
    DropAdded(s[Batches], BATCH_COLUMNS);
    DropAdded(s[Images], IMAGE_COLUMNS);
  }

  /** Upgrading 0002 to 0004 and downgrading again is the identity exactly on schemas that had none
      of the added objects; anything of theirs that was already there is lost. */
  lemma RoundTripIff(s: Schema, c: Created)
    requires Founded(s)
    ensures DowngradeAll(UpgradeAll(s, c)) == s <==> HasNoAddition(s)
  {
    RoundTripResult(s, c);
    var r := DowngradeAll(UpgradeAll(s, c));
    if HasNoAddition(s) {
      assert DropPresent(s[Batches], BATCH_COLUMNS).columns == s[Batches].columns;
      assert DropPresent(s[Images], IMAGE_COLUMNS).columns == s[Images].columns;
    }
  }
}
