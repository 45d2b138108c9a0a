/** The scope builders: from request filters to filter objects for asset queries. */
module ScopeBuilders {
  import opened Prelude
  import opened Sql
  import opened WhereCompiler
  import opened WhereMeaning
  import opened AssetQueries

  /** The optional asset filters; an empty string counts as absent. */
  datatype AssetFilters = AssetFilters(
    assetType: Option<string>,
    status: StatusFilter,
    enrollmentStatus: Option<string>,
    complianceStatus: Option<string>,
    assignedUser: Option<string>,
    serialNumber: Option<string>)

  datatype StatusFilter = AnyStatus | OneStatus(status: string) | StatusIn(statuses: seq<string>)

  function Entry(key: string, value: Json): Json {
    Obj([Field(key, value)])
  }

  function TextValue(s: Option<string>): Option<Json> {
    if s.Some? && s.value != "" then Some(Str(s.value)) else None
  }

  function StatusValue(st: StatusFilter): Option<Json> {
    match st
    case AnyStatus => None
    case OneStatus(s) => TextValue(Some(s))
    case StatusIn(ss) => Some(Entry("in", Arr(seq(|ss|, (i: nat) requires i < |ss| => Str(ss[i])))))
  }

  function ContainsValue(s: Option<string>): Option<Json> {
    if s.Some? && s.value != "" then Some(Entry("contains", Str(s.value))) else None
  }

  /** The condition for one filter, when it is given. */
  function Optional(key: string, value: Option<Json>): seq<Json> {
    if value.Some? then [Entry(key, value.value)] else []
  }

  function AssetConditions(companyId: string, f: AssetFilters): seq<Json> {
    [Entry("companyId", Str(companyId))]
    + Optional("assetType", TextValue(f.assetType))
    + Optional("status", StatusValue(f.status))
    + Optional("enrollmentStatus", TextValue(f.enrollmentStatus))
    + Optional("complianceStatus", TextValue(f.complianceStatus))
    + Optional("assignedUser", TextValue(f.assignedUser))
    + Optional("serialNumber", ContainsValue(f.serialNumber))
  }

  function AndScope(conditions: seq<Json>): seq<Field> {
    [Field("AND", Arr(conditions))]
  }

  // ----- what the filters ask for -----

  ghost predicate MeetsText(c: Collation, cell: Json, s: Option<string>) {
    s.Some? && s.value != "" ==> Related(c, cell, Str(s.value))
  }

  ghost predicate MeetsStatus(c: Collation, cell: Json, st: StatusFilter) {
    match st
    case AnyStatus => true
    case OneStatus(s) => s != "" ==> Related(c, cell, Str(s))
    case StatusIn(ss) => exists s | s in ss :: Related(c, cell, Str(s))
  }

  /** The row belongs to the company and meets every supplied filter. */
  ghost predicate MeetsFilters(c: Collation, companyId: string, f: AssetFilters, row: Row) {
    && Related(c, Cell(row, "companyId"), Str(companyId))
    && MeetsText(c, Cell(row, "assetType"), f.assetType)
    && MeetsStatus(c, Cell(row, "status"), f.status)
    && MeetsText(c, Cell(row, "enrollmentStatus"), f.enrollmentStatus)
    && MeetsText(c, Cell(row, "complianceStatus"), f.complianceStatus)
    && MeetsText(c, Cell(row, "assignedUser"), f.assignedUser)
    && (f.serialNumber.Some? && f.serialNumber.value != "" ==>
          !Cell(row, "serialNumber").Null? && c.like(Cell(row, "serialNumber"), Str("%" + f.serialNumber.value + "%")))
  }

  ghost function CompanyAssets(c: Collation, companyId: string, f: AssetFilters, rows: seq<Row>): seq<Row> {
    if rows == [] then []
    else (if MeetsFilters(c, companyId, f, rows[0]) then [rows[0]] else []) + CompanyAssets(c, companyId, f, rows[1..])
  }

  // ----- the scope says the same -----

  lemma {:induction false} FlattenAppend(a: seq<Json>, b: seq<Json>)
    ensures Flatten(a + b) == Flatten(a) + Flatten(b)
  {
    if a == [] {
      assert a + b == b;
    } else {
      FlattenAppend(a[1..], b);
      assert (a + b)[1..] == a[1..] + b;
    }
  }

  lemma FlattenOptional(key: string, v: Option<Json>)
    ensures Flatten(Optional(key, v)) == if v.Some? then [Field(key, v.value)] else []
  {
    if v.Some? {
      assert [Entry(key, v.value)][1..] == [];
      assert Flatten([Entry(key, v.value)]) == [Field(key, v.value)] + Flatten([]);
    }
  }

  /** The fields that the asset conditions consist of. */
  predicate AsksFor(companyId: string, f: AssetFilters, g: Field) {
    || (g.key == "companyId" && g.value == Str(companyId))
    || (g.key == "assetType" && TextValue(f.assetType) == Some(g.value))
    || (g.key == "status" && StatusValue(f.status) == Some(g.value))
    || (g.key == "enrollmentStatus" && TextValue(f.enrollmentStatus) == Some(g.value))
    || (g.key == "complianceStatus" && TextValue(f.complianceStatus) == Some(g.value))
    || (g.key == "assignedUser" && TextValue(f.assignedUser) == Some(g.value))
    || (g.key == "serialNumber" && ContainsValue(f.serialNumber) == Some(g.value))
  }

  lemma OneMoreCondition(a: seq<Json>, key: string, v: Option<Json>, g: Field)
    ensures g in Flatten(a + Optional(key, v)) <==> g in Flatten(a) || (g.key == key && v == Some(g.value))
  {
    hide Flatten, Optional;
    FlattenAppend(a, Optional(key, v));
    FlattenOptional(key, v);
  }

  lemma AssetConditionFields(companyId: string, f: AssetFilters, g: Field)
    ensures g in Flatten(AssetConditions(companyId, f)) <==> AsksFor(companyId, f, g)
  {
    hide Flatten, Optional, TextValue, StatusValue, ContainsValue;
    var a := [Entry("companyId", Str(companyId))];
    var b := a + Optional("assetType", TextValue(f.assetType));
    var d := b + Optional("status", StatusValue(f.status));
    var e := d + Optional("enrollmentStatus", TextValue(f.enrollmentStatus));
    var h := e + Optional("complianceStatus", TextValue(f.complianceStatus));
    var i := h + Optional("assignedUser", TextValue(f.assignedUser));
    OptionalSome("companyId", Str(companyId));
    FlattenOptional("companyId", Some(Str(companyId)));
    OneMoreCondition(a, "assetType", TextValue(f.assetType), g);
    OneMoreCondition(b, "status", StatusValue(f.status), g);
    OneMoreCondition(d, "enrollmentStatus", TextValue(f.enrollmentStatus), g);
    OneMoreCondition(e, "complianceStatus", TextValue(f.complianceStatus), g);
    OneMoreCondition(h, "assignedUser", TextValue(f.assignedUser), g);
    OneMoreCondition(i, "serialNumber", ContainsValue(f.serialNumber), g);
    assert AssetConditions(companyId, f) == i + Optional("serialNumber", ContainsValue(f.serialNumber));
  }

  lemma OptionalSome(key: string, v: Json)
    ensures Optional(key, Some(v)) == [Entry(key, v)]
  {
  }

  lemma TextMeans(c: Collation, row: Row, key: string, s: Option<string>)
    ensures TextValue(s).Some? ==> Scalar(TextValue(s).value)
    ensures MeetsText(c, Cell(row, key), s)
            <==> (TextValue(s).Some? ==> FieldHolds(c, Field(key, TextValue(s).value), row))
  {
  }

  lemma StatusMeans(c: Collation, row: Row, st: StatusFilter)
    ensures StatusValue(st).Some? ==> Scalar(StatusValue(st).value) || IsIn(StatusValue(st).value)
    ensures MeetsStatus(c, Cell(row, "status"), st)
            <==> (StatusValue(st).Some? ==> FieldHolds(c, Field("status", StatusValue(st).value), row))
  {
    if st.StatusIn? {
      var v := StatusValue(st).value;
      var items := v.fields[0].value.items;
      assert forall i :: 0 <= i < |items| ==> items[i] == Str(st.statuses[i]);
      assert v.fields[0] in v.fields;
      var cell := Cell(row, "status");
      assert FieldHolds(c, Field("status", v), row) <==> OperatorHolds(c, cell, "in", v.fields[0].value);
      if exists s | s in st.statuses :: Related(c, cell, Str(s)) {
        var s :| s in st.statuses && Related(c, cell, Str(s));
        var i :| 0 <= i < |st.statuses| && st.statuses[i] == s;
        assert items[i] in items && Related(c, cell, items[i]);
      }
      if OperatorHolds(c, cell, "in", v.fields[0].value) {
        var x :| x in items && Related(c, cell, x);
        var i :| 0 <= i < |items| && items[i] == x;
        assert st.statuses[i] in st.statuses;
      }
    }
  }

  lemma ContainsMeans(c: Collation, row: Row, s: Option<string>)
    ensures ContainsValue(s).Some? ==> IsContains(ContainsValue(s).value)
    ensures (s.Some? && s.value != "" ==>
               !Cell(row, "serialNumber").Null? && c.like(Cell(row, "serialNumber"), Str("%" + s.value + "%")))
            <==> (ContainsValue(s).Some? ==> FieldHolds(c, Field("serialNumber", ContainsValue(s).value), row))
  {
    if ContainsValue(s).Some? {
      var v := ContainsValue(s).value;
      assert v.fields[0] in v.fields;
    }
  }

  lemma AskedSupported(companyId: string, f: AssetFilters, g: Field)
    requires AsksFor(companyId, f, g)
    ensures Scalar(g.value) || IsContains(g.value) || IsIn(g.value)
  {
    hide StatusValue;
    StatusMeans(Collation((a: Json, b: Json) => 0, (a: Json, b: Json) => false), map[], f.status);
  }

  lemma AskedMeans(c: Collation, companyId: string, f: AssetFilters, row: Row)
    ensures (forall g | AsksFor(companyId, f, g) :: FieldHolds(c, g, row)) <==> MeetsFilters(c, companyId, f, row)
  {
    hide TextValue, StatusValue, ContainsValue, FieldHolds, MeetsText, MeetsStatus;
    TextMeans(c, row, "assetType", f.assetType);
    StatusMeans(c, row, f.status);
    TextMeans(c, row, "enrollmentStatus", f.enrollmentStatus);
    TextMeans(c, row, "complianceStatus", f.complianceStatus);
    TextMeans(c, row, "assignedUser", f.assignedUser);
    ContainsMeans(c, row, f.serialNumber);
    CompanyMeans(c, companyId, row);
    assert AsksFor(companyId, f, Field("companyId", Str(companyId)));
  }

  /** The asset scope is a supported filter that asks for exactly the supplied filters within the company. */
  lemma AssetScopeMeans(c: Collation, companyId: string, f: AssetFilters, row: Row)
    ensures SupportedAssets(AndScope(AssetConditions(companyId, f)))
    ensures AssetHolds(c, AndScope(AssetConditions(companyId, f)), row) <==> MeetsFilters(c, companyId, f, row)
  {
    hide Flatten, AssetConditions, AsksFor, FieldHolds, MeetsFilters, IsIn, IsContains;
    var conditions := AssetConditions(companyId, f);
    var scope := AndScope(conditions);
    assert scope[0] in scope;
    forall g: Field
      ensures g in Flatten(conditions) <==> AsksFor(companyId, f, g)
      ensures AsksFor(companyId, f, g) ==> Scalar(g.value) || IsContains(g.value) || IsIn(g.value)
    {
      AssetConditionFields(companyId, f, g);
      if AsksFor(companyId, f, g) { AskedSupported(companyId, f, g); }
    }
    AskedMeans(c, companyId, f, row);
    var company := Field("companyId", Str(companyId));
    assert AsksFor(companyId, f, company) by { CompanyIsAsked(companyId, f); }
    assert company in Flatten(conditions);
    if AssetHolds(c, scope, row) {
      assert AssetEntryHolds(c, scope[0], row);
    }
  }

  lemma CompanyIsAsked(companyId: string, f: AssetFilters)
    ensures AsksFor(companyId, f, Field("companyId", Str(companyId)))
  {
  }

  lemma CompanyMeans(c: Collation, companyId: string, row: Row)
    ensures FieldHolds(c, Field("companyId", Str(companyId)), row)
            <==> Related(c, Cell(row, "companyId"), Str(companyId))
  {
  }

  lemma {:induction false} CompanyAssetsMatch(c: Collation, companyId: string, f: AssetFilters, rows: seq<Row>)
    ensures MatchingAssets(c, AndScope(AssetConditions(companyId, f)), rows) == CompanyAssets(c, companyId, f, rows)
  {
    hide AssetHolds, MeetsFilters, AndScope;
    if rows != [] {
      AssetScopeMeans(c, companyId, f, rows[0]);
      CompanyAssetsMatch(c, companyId, f, rows[1..]);
    }
  }

  /**
   * From scope to rows: for every company, filter set, table and page, findMany on the
   * asset scope returns the page of exactly that company's rows meeting every supplied
   * filter (a skip without a take is rejected), and count is their number.
   */
  lemma ScopeToRows(c: Collation, db: Database, companyId: string, f: AssetFilters, skip: Option<nat>,
      take: Option<nat>)
    ensures FindMany(c, db, AndScope(AssetConditions(companyId, f)), skip, take)
            == if skip.Some? && take.None? then None
               else Some(Page(CompanyAssets(c, companyId, f, Rows(db, "Asset")),
                              if skip.Some? then skip.value else 0, take))
    ensures Count(c, db, AndScope(AssetConditions(companyId, f)))
            == Some(|CompanyAssets(c, companyId, f, Rows(db, "Asset"))|)
  {
    hide MatchingAssets, CompanyAssets, FindMany, Count;
    AssetScopeMeans(c, companyId, f, map[]);
    FindManyCorrect(c, db, AndScope(AssetConditions(companyId, f)), skip, take);
    CountCorrect(c, db, AndScope(AssetConditions(companyId, f)));
    CompanyAssetsMatch(c, companyId, f, Rows(db, "Asset"));
  }

  // ----- the builders in the form in which they run -----

  method BuildAssetScope(companyId: string, f: AssetFilters) returns (scope: seq<Field>)
    ensures scope == AndScope(AssetConditions(companyId, f))
  {
    var conditions := [Entry("companyId", Str(companyId))];
    ghost var built := conditions;
    if f.assetType.Some? && f.assetType.value != "" {
      conditions := conditions + [Entry("assetType", Str(f.assetType.value))];
    }
    built := built + Optional("assetType", TextValue(f.assetType));
    assert conditions == built;
    if StatusValue(f.status).Some? {
      conditions := conditions + [Entry("status", StatusValue(f.status).value)];
    }
    built := built + Optional("status", StatusValue(f.status));
    assert conditions == built;
    if f.enrollmentStatus.Some? && f.enrollmentStatus.value != "" {
      conditions := conditions + [Entry("enrollmentStatus", Str(f.enrollmentStatus.value))];
    }
    built := built + Optional("enrollmentStatus", TextValue(f.enrollmentStatus));
    assert conditions == built;
    if f.complianceStatus.Some? && f.complianceStatus.value != "" {
      conditions := conditions + [Entry("complianceStatus", Str(f.complianceStatus.value))];
    }
    built := built + Optional("complianceStatus", TextValue(f.complianceStatus));
    assert conditions == built;
    if f.assignedUser.Some? && f.assignedUser.value != "" {
      conditions := conditions + [Entry("assignedUser", Str(f.assignedUser.value))];
    }
    built := built + Optional("assignedUser", TextValue(f.assignedUser));
    assert conditions == built;
    if f.serialNumber.Some? && f.serialNumber.value != "" {
      conditions := conditions + [Entry("serialNumber", Entry("contains", Str(f.serialNumber.value)))];
    }
    built := built + Optional("serialNumber", ContainsValue(f.serialNumber));
    assert conditions == built;
    scope := AndScope(conditions);
  }

  /** Every non-null additional entry becomes one more condition of the company scope. */
  method BuildCompanyScope(companyId: string, additional: seq<Field>) returns (scope: seq<Field>)
    ensures |scope| == 1 && scope[0].key == "AND" && scope[0].value.Arr?
    ensures Flatten(scope[0].value.items) == [Field("companyId", Str(companyId))] + NonNull(additional)
  {
    hide Flatten, Optional, NonNull;
    var conditions := [Entry("companyId", Str(companyId))];
    FlattenOptional("companyId", Some(Str(companyId)));
    OptionalSome("companyId", Str(companyId));
    NothingNonNull();
    var i := 0;
    while i < |additional|
      invariant 0 <= i <= |additional|
      invariant Flatten(conditions) == [Field("companyId", Str(companyId))] + NonNull(additional[..i])
    {
      var f := additional[i];
      NonNullSnoc(additional[..i], f);
      assert additional[..i + 1] == additional[..i] + [f];
      if !f.value.Null? {
        FlattenAppend(conditions, [Entry(f.key, f.value)]);
        FlattenOptional(f.key, Some(f.value));
        OptionalSome(f.key, f.value);
        conditions := conditions + [Entry(f.key, f.value)];
      }
      i := i + 1;
    }
    assert additional[..i] == additional;
    scope := AndScope(conditions);
  }

  function NonNull(fields: seq<Field>): seq<Field> {
    if fields == [] then [] else (if fields[0].value.Null? then [] else [fields[0]]) + NonNull(fields[1..])
  }

  lemma NothingNonNull()
    ensures NonNull([]) == []
  {
  }

  lemma {:induction false} NonNullSnoc(fields: seq<Field>, f: Field)
    ensures NonNull(fields + [f]) == NonNull(fields) + if f.value.Null? then [] else [f]
  {
    if fields == [] {
      assert fields + [f] == [f] && [f][1..] == [];
    } else {
      NonNullSnoc(fields[1..], f);
      assert (fields + [f])[1..] == fields[1..] + [f];
    }
  }

  // ----- merging scopes -----

  /** scope.AND when it is an array. */
  function AndOf(scope: Json): Option<seq<Json>> {
    match Property(scope, "AND")
    case Some(Arr(items)) => Some(items)
    case _ => None
  }

  /** What one scope adds to the merged list. */
  function Contribution(scope: Json): seq<Json> {
    if AndOf(scope).Some? then AndOf(scope).value
    else if Entries(scope) != [] then [scope]
    else []
  }

  function Gather(scopes: seq<Json>): seq<Json> {
    if scopes == [] then [] else Contribution(scopes[0]) + Gather(scopes[1..])
  }

  function Pack(conditions: seq<Json>): Json {
    if conditions == [] then Obj([])
    else if |conditions| == 1 then conditions[0]
    else Obj(AndScope(conditions))
  }

  function Merge(scopes: seq<Json>): Json {
    Pack(Gather(scopes))
  }

  lemma GatherStep(scopes: seq<Json>, i: nat)
    requires i < |scopes|
    ensures Gather(scopes[i..]) == Contribution(scopes[i]) + Gather(scopes[i + 1..])
  {
    assert scopes[i..][1..] == scopes[i + 1..];
  }

  method MergeScopes(scopes: seq<Json>) returns (merged: Json)
    ensures merged == Merge(scopes)
  {
    hide Gather, AndOf, Entries;
    assert scopes[0..] == scopes;
    var all: seq<Json> := [];
    var i := 0;
    while i < |scopes|
      invariant 0 <= i <= |scopes|
      invariant all + Gather(scopes[i..]) == Gather(scopes)
    {
      ghost var before := all;
      if AndOf(scopes[i]).Some? {
        all := all + AndOf(scopes[i]).value;
      } else if Entries(scopes[i]) != [] {
        all := all + [scopes[i]];
      }
      GatherStep(scopes, i);
      assert before + (Contribution(scopes[i]) + Gather(scopes[i + 1..])) == all + Gather(scopes[i + 1..]);
      i := i + 1;
    }
    NothingGathered();
    assert scopes[i..] == [] && all + [] == all;
    merged := Pack(all);
  }

  lemma NothingGathered()
    ensures Gather([]) == []
  {
  }

  /** An OR array, which only the top level reads as a group; inside an AND group it is read as a column. */
  predicate IsOrGroup(f: Field) {
    f.key == "OR" && f.value.Arr?
  }

  predicate HasOr(conditions: seq<Json>) {
    exists d | d in conditions :: exists f | f in Entries(d) :: IsOrGroup(f)
  }

  /** A filter object without an AND array; it may have an OR array. */
  predicate AndFree(scope: Json) {
    scope.Obj? && forall f | f in scope.fields :: !(f.key == "AND" && f.value.Arr?)
  }

  predicate IsAndGroup(f: Field) {
    f.key == "AND" && f.value.Arr?
  }

  /** A filter object with an AND array of such conditions, with or without other entries beside it. */
  predicate Grouped(scope: Json) {
    scope.Obj? && AndOf(scope).Some? && (forall d | d in AndOf(scope).value :: AndFree(d))
    && forall f | f in scope.fields && IsAndGroup(f) :: f.value.items == AndOf(scope).value
  }

  /** Some scope is an AND group with an OR array under it. */
  predicate OrUnderAnd(scopes: seq<Json>) {
    exists s | s in scopes :: Grouped(s) && HasOr(AndOf(s).value)
  }

  /** The entries beside an AND array hold. */
  ghost predicate BesideHolds(c: Collation, scope: Json, row: Row) {
    forall f | f in Entries(scope) && !IsAndGroup(f) :: AssetEntryHolds(c, f, row)
  }

  /** The entries beside the AND array of every scope that has one hold. */
  ghost predicate AllBesideHold(c: Collation, scopes: seq<Json>, row: Row) {
    forall s | s in scopes && Grouped(s) :: BesideHolds(c, s, row)
  }

  ghost predicate ScopeHolds(c: Collation, scope: Json, row: Row) {
    AssetHolds(c, Entries(scope), row)
  }

  ghost predicate AllHold(c: Collation, scopes: seq<Json>, row: Row) {
    forall s | s in scopes :: ScopeHolds(c, s, row)
  }

  /** The table has no column of that name that could hold an OR array. */
  predicate NoOrColumn(row: Row) {
    Cell(row, "OR").Null?
  }

  lemma {:induction false} LookupFound(fields: seq<Field>, key: string)
    ensures Lookup(fields, key).Some? ==> Field(key, Lookup(fields, key).value) in fields
  {
    if fields != [] {
      LookupFound(fields[1..], key);
      if fields[0].key == key {
        assert Field(key, fields[0].value) == fields[0];
      }
    }
  }

  lemma AndFreeHasNone(scope: Json)
    requires AndFree(scope)
    ensures AndOf(scope) == None
  {
    LookupFound(scope.fields, "AND");
  }

  lemma {:induction false} FlattenMember(items: seq<Json>, g: Field)
    ensures g in Flatten(items) <==> exists d | d in items :: g in Entries(d)
  {
    if items != [] {
      FlattenMember(items[1..], g);
      assert forall d :: d in items <==> d == items[0] || d in items[1..];
    }
  }

  /** How an entry of an AND-free condition is read inside an AND group. */
  lemma InsideGroup(c: Collation, g: Field, row: Row)
    requires !(g.key == "AND" && g.value.Arr?) && (IsOrGroup(g) ==> NoOrColumn(row))
    ensures FieldHolds(c, g, row) <==> AssetEntryHolds(c, g, row) && !IsOrGroup(g)
  {
  }

  /** An AND group holds when all its conditions do, unless one has an OR array: then it holds of no row. */
  lemma GroupHolds(c: Collation, conditions: seq<Json>, row: Row)
    requires (forall d | d in conditions :: AndFree(d)) && (HasOr(conditions) ==> NoOrColumn(row))
    ensures ScopeHolds(c, Obj(AndScope(conditions)), row) <==> AllHold(c, conditions, row) && !HasOr(conditions)
  {
    hide FieldHolds, Flatten, IsOrGroup, NoOrColumn;
    var scope := AndScope(conditions);
    assert scope[0] in scope;
    assert ScopeHolds(c, Obj(scope), row) <==> forall g | g in Flatten(conditions) :: FieldHolds(c, g, row);
    forall d, g | d in conditions && g in Entries(d)
      ensures g in Flatten(conditions)
      ensures FieldHolds(c, g, row) <==> AssetEntryHolds(c, g, row) && !IsOrGroup(g)
    {
      FlattenMember(conditions, g);
      InsideGroup(c, g, row);
    }
    if AllHold(c, conditions, row) && !HasOr(conditions) {
      forall g | g in Flatten(conditions)
        ensures FieldHolds(c, g, row)
      {
        FlattenMember(conditions, g);
        var d :| d in conditions && g in Entries(d);
        assert ScopeHolds(c, d, row) && AssetEntryHolds(c, g, row);
      }
    }
  }

  lemma GroupedHolds(c: Collation, scope: Json, row: Row)
    requires Grouped(scope) && (HasOr(AndOf(scope).value) ==> NoOrColumn(row))
    ensures ScopeHolds(c, scope, row)
            <==> AllHold(c, AndOf(scope).value, row) && !HasOr(AndOf(scope).value) && BesideHolds(c, scope, row)
  {
    var conditions := AndOf(scope).value;
    GroupHolds(c, conditions, row);
    LookupFound(scope.fields, "AND");
    hide HasOr, AndFree, AllHold, AssetEntryHolds, NoOrColumn;
    var group := AndScope(conditions)[0];
    assert group in scope.fields && IsAndGroup(group);
    assert ScopeHolds(c, Obj(AndScope(conditions)), row) <==> AssetEntryHolds(c, group, row);
    forall f | f in scope.fields && IsAndGroup(f)
      ensures f == group
    {
    }
  }

  lemma ContributionHolds(c: Collation, scope: Json, row: Row)
    requires (AndFree(scope) || Grouped(scope)) && (HasOr(Contribution(scope)) ==> NoOrColumn(row))
    ensures forall d | d in Contribution(scope) :: AndFree(d)
    ensures ScopeHolds(c, scope, row) <==>
            AllHold(c, Contribution(scope), row)
            && (Grouped(scope) ==> !HasOr(AndOf(scope).value) && BesideHolds(c, scope, row))
  {
    hide FieldHolds, Flatten, NoOrColumn, AssetEntryHolds;
    if Grouped(scope) {
      GroupedHolds(c, scope, row);
    } else {
      AndFreeHasNone(scope);
    }
  }

  lemma HasOrAppend(a: seq<Json>, b: seq<Json>)
    ensures HasOr(a + b) <==> HasOr(a) || HasOr(b)
  {
    assert forall d :: d in a + b <==> d in a || d in b;
  }

  lemma {:induction false} GatherHolds(c: Collation, scopes: seq<Json>, row: Row)
    requires (forall s | s in scopes :: AndFree(s) || Grouped(s)) && (HasOr(Gather(scopes)) ==> NoOrColumn(row))
    ensures forall d | d in Gather(scopes) :: AndFree(d)
    ensures AllHold(c, scopes, row)
            <==> AllHold(c, Gather(scopes), row) && !OrUnderAnd(scopes) && AllBesideHold(c, scopes, row)
  {
    hide ScopeHolds, AndFree, BesideHolds, Contribution, HasOr, NoOrColumn;
    if scopes != [] {
      HasOrAppend(Contribution(scopes[0]), Gather(scopes[1..]));
      ContributionHolds(c, scopes[0], row);
      GatherHolds(c, scopes[1..], row);
      assert forall s :: s in scopes <==> s == scopes[0] || s in scopes[1..];
      assert forall d :: d in Gather(scopes) <==> d in Contribution(scopes[0]) || d in Gather(scopes[1..]);
    }
  }

  lemma PackHolds(c: Collation, ds: seq<Json>, row: Row)
    requires (forall d | d in ds :: AndFree(d)) && (HasOr(ds) ==> NoOrColumn(row))
    ensures ScopeHolds(c, Pack(ds), row) <==> AllHold(c, ds, row) && (|ds| <= 1 || !HasOr(ds))
  {
    hide AndFree, HasOr, NoOrColumn;
    if |ds| > 1 {
      GroupHolds(c, ds, row);
    } else if |ds| == 1 {
      assert forall d :: d in ds <==> d == ds[0];
    }
  }

  /**
   * What merging means, for scopes each with an AND array, entries beside it included, or
   * AND-free, OR arrays included. The merged scope asks for every gathered condition and
   * for no entry beside an AND array, but it holds of no row when there are several
   * conditions and one has an OR array, which then is lost under AND. So on a row that
   * meets the conditions it means the conjunction of the scopes exactly when the OR is not
   * lost if and only if no scope had lost it before and all entries beside hold; and always
   * without OR arrays and entries beside.
   */
  lemma MergeMeansConjunction(c: Collation, scopes: seq<Json>, row: Row)
    requires (forall s | s in scopes :: AndFree(s) || Grouped(s)) && (HasOr(Gather(scopes)) ==> NoOrColumn(row))
    ensures var ds := Gather(scopes);
            var lost := |ds| > 1 && HasOr(ds);
            var kept := !OrUnderAnd(scopes) && AllBesideHold(c, scopes, row);
            && (ScopeHolds(c, Merge(scopes), row) <==> AllHold(c, ds, row) && !lost)
            && (AllHold(c, scopes, row) <==> AllHold(c, ds, row) && kept)
            && ((ScopeHolds(c, Merge(scopes), row) <==> AllHold(c, scopes, row))
                <==> (AllHold(c, ds, row) ==> (!lost <==> kept)))
    ensures !HasOr(Gather(scopes)) && (forall s | s in scopes && Grouped(s) :: |s.fields| == 1) ==>
              (ScopeHolds(c, Merge(scopes), row) <==> AllHold(c, scopes, row))
  {
    GatherHolds(c, scopes, row);
    PackHolds(c, Gather(scopes), row);
    if OrUnderAnd(scopes) {
      GroupGathered(scopes);
    }
    forall s | s in scopes && Grouped(s) && |s.fields| == 1
      ensures BesideHolds(c, s, row)
    {
      LookupFound(s.fields, "AND");
    }
  }

  lemma {:induction false} GroupGathered(scopes: seq<Json>)
    requires OrUnderAnd(scopes)
    ensures HasOr(Gather(scopes))
  {
    hide HasOr, Contribution;
    HasOrAppend(Contribution(scopes[0]), Gather(scopes[1..]));
    var s :| s in scopes && Grouped(s) && HasOr(AndOf(s).value);
    if s == scopes[0] {
      assert Contribution(s) == AndOf(s).value by { GroupContributes(s); }
    } else {
      assert s in scopes[1..];
      GroupGathered(scopes[1..]);
    }
  }

  lemma GroupContributes(s: Json)
    requires Grouped(s)
    ensures Contribution(s) == AndOf(s).value
  {
  }

  /**
   * A company scope and an OR scope that both hold of a row: merged, the OR array lands
   * under AND and the row is lost.
   */
  lemma MergedOrIsLost(c: Collation, companyId: string, branches: seq<Json>, row: Row)
    requires NoOrColumn(row)
    requires var company, either := Entry("companyId", Str(companyId)), Entry("OR", Arr(branches));
             ScopeHolds(c, company, row) && ScopeHolds(c, either, row)
    ensures var scopes := [Entry("companyId", Str(companyId)), Entry("OR", Arr(branches))];
            && AllHold(c, scopes, row) && !ScopeHolds(c, Merge(scopes), row)
            && Name("OR") in AssetWhere(Entries(Merge(scopes)))
  {
    OrBecomesColumn(companyId, branches);
    hide AssetEntryHolds, AssetWhere;
    var company, either := Entry("companyId", Str(companyId)), Entry("OR", Arr(branches));
    AndFreeHasNone(company);
    AndFreeHasNone(either);
    GatherTwo(company, either);
    assert Gather([company, either]) == [company, either];
    assert either.fields[0] in Entries(either) && IsOrGroup(either.fields[0]);
    assert either in [company, either] && HasOr([company, either]);
    MergeMeansConjunction(c, [company, either], row);
  }

  /** The text of that merged scope names a column OR, so a table without one rejects the query. */
  lemma OrBecomesColumn(companyId: string, branches: seq<Json>)
    ensures var ds := [Entry("companyId", Str(companyId)), Entry("OR", Arr(branches))];
            Name("OR") in AssetWhere(AndScope(ds))
  {
    var f, g := Field("companyId", Str(companyId)), Field("OR", Arr(branches));
    var ds := [Entry("companyId", Str(companyId)), Entry("OR", Arr(branches))];
    assert ds[1..] == [Obj([g])] && ds[1..][1..] == [];
    assert Flatten([]) == [] && Entries(ds[0]) == [f] && Entries(ds[1]) == [g];
    assert Flatten([ds[1]]) == [g] + [];
    assert Flatten(ds) == [f] + [g] == [f, g];
    assert [f, g][1..] == [g] && [g][1..] == [];
    var p, r := AndPiece(f.key, f.value), AndPiece(g.key, g.value);
    assert r.tokens == [Name("OR"), Op(Eq), Mark] && r.tokens[0] in r.tokens;
    assert AndPieces([]) == [] && AndPieces([g]) == [r] + [];
    assert AndPieces([f, g]) == [p] + [r] == [p, r];
    assert [p, r][1..] == [r] && [r][1..] == [];
    assert Texts([]) == [] && Texts([r]) == [r.tokens] + [];
    assert Texts([p, r]) == [p.tokens] + [r.tokens] == [p.tokens, r.tokens];
    assert [p.tokens, r.tokens][1..] == [r.tokens];
    assert Join([p.tokens, r.tokens], And) == p.tokens + [And] + r.tokens;
    var group := Group([p, r], And);
    assert group[0].tokens == [LParen] + (p.tokens + [And] + r.tokens) + [RParen];
    var where := AndScope(ds);
    assert where[1..] == [] && AssetPieces(where) == group + [] == group;
    assert group == [group[0]] && group[1..] == [];
    assert Texts(group) == [group[0].tokens] + [] == [group[0].tokens];
    assert Join([group[0].tokens], And) == group[0].tokens;
  }

  lemma {:induction false} GatherAppend(a: seq<Json>, b: seq<Json>)
    ensures Gather(a + b) == Gather(a) + Gather(b)
  {
    hide Contribution;
    if a == [] {
      assert a + b == b;
    } else {
      GatherAppend(a[1..], b);
      assert (a + b)[1..] == a[1..] + b;
    }
  }

  /** A single condition that asks for nothing; packed on its own it is the empty scope. */
  predicate Blank(conditions: seq<Json>) {
    conditions == [Obj([])]
  }

  function Kept(conditions: seq<Json>): seq<Json> {
    if Blank(conditions) then [] else conditions
  }

  lemma ContributionOfPacked(ds: seq<Json>)
    requires forall d | d in ds :: AndFree(d)
    ensures Contribution(Pack(ds)) == Kept(ds)
  {
    if |ds| == 1 {
      assert ds[0] in ds;
      AndFreeHasNone(ds[0]);
      assert ds == [ds[0]];
      assert ds[0].fields == [] ==> ds[0] == Obj([]);
    } else if |ds| > 1 {
      assert Lookup(AndScope(ds), "AND") == Some(Arr(ds));
    }
  }

  lemma GatherTwo(x: Json, y: Json)
    ensures Gather([x, y]) == Contribution(x) + Contribution(y)
  {
    hide Contribution;
    assert [x, y][1..] == [y] && [y][1..] == [];
    assert Gather([y]) == Contribution(y) + [];
  }

  /** Packing tells lists of AND-free conditions apart, but for a blank one and none at all. */
  lemma PackInjective(xs: seq<Json>, ys: seq<Json>)
    requires (forall d | d in xs :: AndFree(d)) && (forall d | d in ys :: AndFree(d))
    ensures Pack(xs) == Pack(ys) <==> Kept(xs) == Kept(ys)
  {
    hide Contribution;
    ContributionOfPacked(xs);
    ContributionOfPacked(ys);
  }

  lemma GatherMerged(a: seq<Json>, b: seq<Json>)
    requires forall d | d in Gather(a) + Gather(b) :: AndFree(d)
    ensures Gather([Merge(a), Merge(b)]) == Kept(Gather(a)) + Kept(Gather(b))
    ensures forall d | d in Kept(Gather(a)) + Kept(Gather(b)) :: d in Gather(a) + Gather(b)
  {
    hide Contribution, Pack, Gather, AndFree;
    var xs, ys := Gather(a), Gather(b);
    assert forall d | d in xs :: d in xs + ys;
    assert forall d | d in ys :: d in xs + ys;
    ContributionOfPacked(xs);
    ContributionOfPacked(ys);
    GatherTwo(Merge(a), Merge(b));
  }

  /**
   * Merging merged parts is merging the concatenation, for AND-free conditions, exactly
   * when no part comes down to one empty condition beside conditions of the other part.
   */
  lemma MergeOfMerged(a: seq<Json>, b: seq<Json>)
    requires forall d | d in Gather(a) + Gather(b) :: AndFree(d)
    ensures Merge([Merge(a), Merge(b)]) == Merge(a + b)
            <==> (Blank(Gather(a)) ==> Gather(b) == []) && (Blank(Gather(b)) ==> Gather(a) == [])
  {
    hide Contribution, Pack, Gather, AndFree;
    var xs, ys := Gather(a), Gather(b);
    GatherAppend(a, b);
    GatherMerged(a, b);
    var kept := Kept(xs) + Kept(ys);
    PackInjective(kept, xs + ys);
    if Blank(xs) || Blank(ys) {
      assert |kept| < |xs + ys|;
    }
  }

  lemma BlankAsksNothing(c: Collation, conditions: seq<Json>, row: Row)
    ensures AllHold(c, Kept(conditions), row) <==> AllHold(c, conditions, row)
    ensures HasOr(Kept(conditions)) <==> HasOr(conditions)
  {
    hide AssetEntryHolds;
    if Blank(conditions) {
      assert forall d | d in conditions :: d == Obj([]);
    }
  }

  lemma AllHoldAppend(c: Collation, a: seq<Json>, b: seq<Json>, row: Row)
    ensures AllHold(c, a + b, row) <==> AllHold(c, a, row) && AllHold(c, b, row)
  {
    hide ScopeHolds;
    assert forall d :: d in a + b <==> d in a || d in b;
  }

  /**
   * In meaning, merging merged parts and merging the concatenation agree on a row exactly
   * unless one part is one empty condition, the other one condition with an OR array, and
   * that condition holds: dropping the empty one saves the OR from being put under AND.
   */
  lemma MergeOfMergedMeans(c: Collation, a: seq<Json>, b: seq<Json>, row: Row)
    requires (forall d | d in Gather(a) + Gather(b) :: AndFree(d)) && (HasOr(Gather(a) + Gather(b)) ==> NoOrColumn(row))
    ensures var xs, ys := Gather(a), Gather(b);
            var saved := (Blank(xs) && |ys| == 1 && HasOr(ys)) || (Blank(ys) && |xs| == 1 && HasOr(xs));
            (ScopeHolds(c, Merge([Merge(a), Merge(b)]), row) <==> ScopeHolds(c, Merge(a + b), row))
            <==> !(saved && AllHold(c, xs + ys, row))
  {
    var xs, ys := Gather(a), Gather(b);
    BlankHasNoOr(xs);
    BlankHasNoOr(ys);
    hide AndFree, Gather, ScopeHolds, AllHold, HasOr, NoOrColumn, Pack;
    var kept := Kept(xs) + Kept(ys);
    GatherAppend(a, b);
    GatherMerged(a, b);
    BlankAsksNothing(c, xs, row);
    BlankAsksNothing(c, ys, row);
    AllHoldAppend(c, xs, ys, row);
    AllHoldAppend(c, Kept(xs), Kept(ys), row);
    HasOrAppend(xs, ys);
    HasOrAppend(Kept(xs), Kept(ys));
    PackHolds(c, kept, row);
    PackHolds(c, xs + ys, row);
  }

  lemma BlankHasNoOr(conditions: seq<Json>)
    ensures Blank(conditions) || conditions == [] ==> !HasOr(conditions)
  {
  }

  /**
   * A scope with entries beside its AND array keeps only the array when it is merged: the
   * merged scope means the same exactly when on a row that meets the conditions all the
   * entries beside hold.
   */
  lemma EntriesBesideAndAreDropped(c: Collation, scope: Json, row: Row)
    requires Grouped(scope) && !HasOr(AndOf(scope).value)
    ensures Merge([scope]) == Pack(AndOf(scope).value)
    ensures (ScopeHolds(c, Merge([scope]), row) <==> ScopeHolds(c, scope, row))
            <==> (AllHold(c, AndOf(scope).value, row) ==> BesideHolds(c, scope, row))
  {
    assert Gather([scope]) == Contribution(scope) + Gather([]) by { assert [scope][1..] == []; }
    assert Gather([scope]) == AndOf(scope).value;
    PackHolds(c, AndOf(scope).value, row);
    GroupedHolds(c, scope, row);
  }

  // ----- merged scopes in queries -----

  lemma {:induction false} MatchingMerged(c: Collation, scopes: seq<Json>, rows: seq<Row>)
    requires forall s | s in scopes :: AndFree(s) || Grouped(s)
    requires !HasOr(Gather(scopes)) && forall s | s in scopes && Grouped(s) :: |s.fields| == 1
    ensures MatchingAssets(c, Entries(Merge(scopes)), rows) == RowsOfAll(c, scopes, rows)
  {
    hide AndFree, Grouped, HasOr, Gather, AssetHolds, AllHold;
    if rows != [] {
      MergeMeansConjunction(c, scopes, rows[0]);
      assert AssetHolds(c, Entries(Merge(scopes)), rows[0]) <==> ScopeHolds(c, Merge(scopes), rows[0]);
      MatchingMerged(c, scopes, rows[1..]);
    }
  }

  /** The rows, in table order, that meet every scope. */
  ghost function RowsOfAll(c: Collation, scopes: seq<Json>, rows: seq<Row>): seq<Row> {
    if rows == [] then []
    else (if AllHold(c, scopes, rows[0]) then [rows[0]] else []) + RowsOfAll(c, scopes, rows[1..])
  }

  /**
   * From merged scopes to rows: with AND groups alone or AND-free conditions without OR
   * arrays, findMany on the merged scope returns the page of exactly the rows that meet
   * every scope, and count is their number, wherever the merged scope is in the supported
   * filter language.
   */
  lemma MergedScopeToRows(c: Collation, db: Database, scopes: seq<Json>, skip: Option<nat>, take: Option<nat>)
    requires forall s | s in scopes :: AndFree(s) || Grouped(s)
    requires !HasOr(Gather(scopes)) && forall s | s in scopes && Grouped(s) :: |s.fields| == 1
    requires SupportedAssets(Entries(Merge(scopes)))
    ensures FindMany(c, db, Entries(Merge(scopes)), skip, take)
            == if skip.Some? && take.None? then None
               else Some(Page(RowsOfAll(c, scopes, Rows(db, "Asset")), if skip.Some? then skip.value else 0, take))
    ensures Count(c, db, Entries(Merge(scopes))) == Some(|RowsOfAll(c, scopes, Rows(db, "Asset"))|)
  {
    hide FindMany, Count, MatchingAssets, RowsOfAll, Merge, SupportedAssets, Grouped, AndFree, HasOr;
    MatchingMerged(c, scopes, Rows(db, "Asset"));
    FindManyCorrect(c, db, Entries(Merge(scopes)), skip, take);
    CountCorrect(c, db, Entries(Merge(scopes)));
  }
}
