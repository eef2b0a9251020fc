/** The table-schema resource directory registered by `registerResources`: resources with
    URIs `airtable://{baseId}/{tableId}/schema`, one per table of every base, that can be
    listed and read. Both callbacks are functions of one snapshot of the Airtable service. */
module SchemaResources {
  import opened Wrappers
  import opened AirtableStore
  import Seqs

  const JsonMimeType := "application/json"
  const UriScheme := "airtable://"
  const SchemaSuffix := "/schema"

  /** The template the directory is registered under; its variables are filled in by the
      protocol library before the read callback runs. */
  const UriTemplate := "airtable://{baseId}/{tableId}/schema"

  /** The message of the error raised when a template variable is missing or empty. */
  const InvalidUriMessage := "Invalid resource URI: missing baseId or tableId"

  /** One entry of a resource listing. */
  datatype ResourceDescriptor = ResourceDescriptor(uri: string, mimeType: string, name: string)

  /** The object serialised into the text of a read: the fields of the table that the
      read callback selects, with the requested base id added. */
  datatype TableProjection = TableProjection(
    baseId: string,
    tableId: string,
    name: string,
    description: Option<string>,
    primaryFieldId: string,
    fields: seq<Field>,
    views: seq<View>)

  /** One content item of a read; `payload` stands for the JSON text it is serialised to. */
  datatype ResourceContent = ResourceContent(uri: string, mimeType: string, payload: TableProjection)

  /** The answer of a read. */
  datatype ReadResult = ReadResult(contents: seq<ResourceContent>)

  /** The ways a read fails: a missing id, a table the base does not have, or a failed
      schema lookup whose error propagates unchanged. */
  datatype ResourceError =
    | InvalidUri
    | TableNotFound(tableId: string, baseId: string)
    | Service(failure: ServiceFailure)

  /** A template variable as handed over by the protocol library: a single string, or a
      list of strings when the variable was matched more than once. */
  datatype TemplateValue = Scalar(text: string) | Multiple(items: seq<string>)

  // ---------------------------------------------------------------------------
  // Listing
  // ---------------------------------------------------------------------------

  /** The URI of the schema resource of a table. */
  function SchemaUri(baseId: string, tableId: string): string
  {
    UriScheme + baseId + "/" + tableId + SchemaSuffix
  }

  /** The descriptor `list()` produces for one table of one base. */
  function Describe(base: Base, table: Table): ResourceDescriptor
  {
    ResourceDescriptor(
      SchemaUri(base.id, table.id),
      JsonMimeType,
      base.name + ": " + table.name + " schema")
  }

  /** `schema.tables.map(...)`: the descriptors of one base's tables, in schema order. */
  function DescribeTables(base: Base, tables: seq<Table>): seq<ResourceDescriptor>
  {
    seq(|tables|, j requires 0 <= j < |tables| => Describe(base, tables[j]))
  }

  /** `Promise.all(bases.map(...))`: fetch each base's schema and describe its tables,
      keeping the order of `bases`. One failed lookup fails the whole result. */
  function DescribeBases(store: Store, bases: seq<Base>): (r: Result<seq<seq<ResourceDescriptor>>, ServiceFailure>)
    ensures r.Success? <==> SchemasAvailable(store, bases)
    ensures r.Success? ==>
      && |r.value| == |bases|
      && forall i | 0 <= i < |bases| :: r.value[i] == DescribeTables(bases[i], TablesOf(store, bases[i].id))
    ensures r.Failure? ==> exists i | 0 <= i < |bases| :: GetBaseSchema(store, bases[i].id) == Failure(r.error)
  {
    if bases == [] then Success([])
    else
      match GetBaseSchema(store, bases[0].id)
      case Failure(e) => Failure(e)
      case Success(schema) =>
        var rest := DescribeBases(store, bases[1..]);
        assert forall b | b in bases[1..] :: b in bases;
        match rest
        case Failure(e) =>
          assert exists i | 0 <= i < |bases[1..]| :: GetBaseSchema(store, bases[1..][i].id) == Failure(e);
          var i :| 0 <= i < |bases[1..]| && GetBaseSchema(store, bases[1..][i].id) == Failure(e);
          assert GetBaseSchema(store, bases[i + 1].id) == Failure(e);
          Failure(e)
        case Success(perBase) =>
          assert forall b | b in bases :: b == bases[0] || b in bases[1..];
          Success([DescribeTables(bases[0], schema.tables)] + perBase)
  }

  /** The `list()` callback: every table of every base, bases in `listBases` order and the
      tables of each base in schema order. */
  function ListResources(store: Store): (r: Result<seq<ResourceDescriptor>, ServiceFailure>)
    ensures r.Success? <==> ListBases(store).Success? && SchemasAvailable(store, ListBases(store).value)
    ensures r.Failure? ==>
      || ListBases(store) == Failure(r.error)
      || (&& ListBases(store).Success?
          && exists b | b in ListBases(store).value :: GetBaseSchema(store, b.id) == Failure(r.error))
  {
    match ListBases(store)
    case Failure(e) => Failure(e)
    case Success(bases) =>
      match DescribeBases(store, bases)
      case Failure(e) =>
        var i :| 0 <= i < |bases| && GetBaseSchema(store, bases[i].id) == Failure(e);
        assert bases[i] in bases;
        Failure(e)
      case Success(perBase) => Success(Seqs.Flatten(perBase))
  }

  // ---------------------------------------------------------------------------
  // Read
  // ---------------------------------------------------------------------------

  /** A template variable reduced to one id: the first element of a list, a scalar as it
      is, and nothing when the variable is absent or the list is empty. */
  function Resolve(v: Option<TemplateValue>): (r: Option<string>)
    ensures v == None ==> r == None
    ensures forall s :: v == Some(Scalar(s)) ==> r == Some(s)
    ensures v.Some? && v.value.Multiple? ==>
      r == if v.value.items == [] then None else Some(v.value.items[0])
  {
    match v
    case None => None
    case Some(Scalar(s)) => Some(s)
    case Some(Multiple(items)) => if items == [] then None else Some(items[0])
  }

  /** JavaScript truthiness of a `string | undefined` id: present and not empty. */
  predicate IdGiven(id: Option<string>)
  {
    id.Some? && id.value != ""
  }

  /** `k` is the position of the first table whose id is `tableId`. */
  predicate FirstWithId(tables: seq<Table>, tableId: string, k: int)
  {
    && 0 <= k < |tables|
    && tables[k].id == tableId
    && forall j | 0 <= j < k :: tables[j].id != tableId
  }

  /** `tables.find((t) => t.id === tableId)`. */
  function FindTable(tables: seq<Table>, tableId: string): (r: Option<Table>)
    ensures r.None? <==> forall j | 0 <= j < |tables| :: tables[j].id != tableId
    ensures r.Some? ==> exists k :: FirstWithId(tables, tableId, k) && tables[k] == r.value
  {
    if tables == [] then None
    else if tables[0].id == tableId then
      assert FirstWithId(tables, tableId, 0);
      Some(tables[0])
    else
      var r := FindTable(tables[1..], tableId);
      if r.Some? then
        var k :| FirstWithId(tables[1..], tableId, k) && tables[1..][k] == r.value;
        assert FirstWithId(tables, tableId, k + 1);
        r
      else
        assert forall j | 1 <= j < |tables| :: tables[j] == tables[1..][j - 1];
        r
  }

  /** The object the read callback serialises for a table of a base. */
  function Project(baseId: string, table: Table): TableProjection
  {
    TableProjection(baseId, table.id, table.name, table.description, table.primaryFieldId, table.fields, table.views)
  }

  /** `result` is one JSON content item for `uri` holding the first table of `tables` whose
      id is `tableId`, tagged with `baseId` and `tableId`. */
  ghost predicate ServesTable(uri: string, baseId: string, tableId: string, tables: seq<Table>, result: ReadResult)
  {
    && |result.contents| == 1
    && result.contents[0].uri == uri
    && result.contents[0].mimeType == JsonMimeType
    && exists k :: FirstWithId(tables, tableId, k) && result.contents[0].payload == TableProjection(
         baseId, tableId, tables[k].name, tables[k].description, tables[k].primaryFieldId, tables[k].fields, tables[k].views)
  }

  /** The read callback for `uri`, given the template variables `baseId` and `tableId`. */
  function Read(store: Store, uri: string, baseVar: Option<TemplateValue>, tableVar: Option<TemplateValue>): (r: Result<ReadResult, ResourceError>)
    // A missing or empty id is rejected whatever the store holds, hence before any lookup.
    ensures r == Failure(InvalidUri) <==> !IdGiven(Resolve(baseVar)) || !IdGiven(Resolve(tableVar))
    ensures r != Failure(InvalidUri) ==>
      var baseId, tableId := Resolve(baseVar).value, Resolve(tableVar).value;
      match GetBaseSchema(store, baseId)
      case Failure(e) => r == Failure(Service(e))
      case Success(schema) =>
        && (r == Failure(TableNotFound(tableId, baseId)) <==> forall t | t in schema.tables :: t.id != tableId)
        && (r.Success? <==> exists t | t in schema.tables :: t.id == tableId)
        && (r.Success? ==> ServesTable(uri, baseId, tableId, schema.tables, r.value))
  {
    var baseId := Resolve(baseVar);
    var tableId := Resolve(tableVar);
    if !IdGiven(baseId) || !IdGiven(tableId) then Failure(InvalidUri)
    else
      match GetBaseSchema(store, baseId.value)
      case Failure(e) => Failure(Service(e))
      case Success(schema) =>
        match FindTable(schema.tables, tableId.value)
        case None => Failure(TableNotFound(tableId.value, baseId.value))
        case Some(table) =>
          Success(ReadResult([ResourceContent(uri, JsonMimeType, Project(baseId.value, table))]))
  }

  /** The text of the error a failed read raises; a failed lookup's own error is passed on. */
  function ErrorMessage(e: ResourceError): (m: Option<string>)
    ensures m.None? <==> e.Service?
  {
    match e
    case InvalidUri => Some(InvalidUriMessage)
    case TableNotFound(tableId, baseId) => Some("Table " + tableId + " not found in base " + baseId)
    case Service(_) => None
  }

  /** A base id that arrives as a non-empty list reads exactly as its first element would. */
  lemma ReadListBaseVariable(store: Store, uri: string, ids: seq<string>, tableVar: Option<TemplateValue>)
    requires ids != []
    ensures Read(store, uri, Some(Multiple(ids)), tableVar) == Read(store, uri, Some(Scalar(ids[0])), tableVar)
  {
  }

  /** A table id that arrives as a non-empty list reads exactly as its first element would. */
  lemma ReadListTableVariable(store: Store, uri: string, baseVar: Option<TemplateValue>, ids: seq<string>)
    requires ids != []
    ensures Read(store, uri, baseVar, Some(Multiple(ids))) == Read(store, uri, baseVar, Some(Scalar(ids[0])))
  {
  }

  /** An empty list, like an absent variable, leaves no id and the read is rejected. */
  lemma ReadEmptyListRejected(store: Store, uri: string, v: Option<TemplateValue>)
    ensures Read(store, uri, Some(Multiple([])), v) == Failure(InvalidUri)
    ensures Read(store, uri, v, Some(Multiple([]))) == Failure(InvalidUri)
    ensures Read(store, uri, None, v) == Failure(InvalidUri)
    ensures Read(store, uri, v, None) == Failure(InvalidUri)
  {
  }

  /** The text of the read callback's own errors: the invalid-URI message for a missing or
      empty id, and "Table <tableId> not found in base <baseId>" exactly when the base's
      schema has no table with the id. */
  lemma ReadErrorMessages(store: Store, uri: string, baseVar: Option<TemplateValue>, tableVar: Option<TemplateValue>)
    ensures var r := Read(store, uri, baseVar, tableVar);
      !IdGiven(Resolve(baseVar)) || !IdGiven(Resolve(tableVar)) ==>
        r.Failure? && ErrorMessage(r.error) == Some(InvalidUriMessage)
    ensures var r := Read(store, uri, baseVar, tableVar);
      IdGiven(Resolve(baseVar)) && IdGiven(Resolve(tableVar)) ==>
        var baseId, tableId := Resolve(baseVar).value, Resolve(tableVar).value;
        GetBaseSchema(store, baseId).Success? ==>
          ((r.Failure? && ErrorMessage(r.error) == Some("Table " + tableId + " not found in base " + baseId))
           <==> forall t | t in GetBaseSchema(store, baseId).value.tables :: t.id != tableId)
  {
  }

  // ---------------------------------------------------------------------------
  // Properties of the listing
  // ---------------------------------------------------------------------------

  /** The per-base descriptors of a prefix of the bases are the prefix of the per-base
      descriptors. */
  lemma DescribeBasesPrefix(store: Store, bases: seq<Base>, i: nat)
    requires SchemasAvailable(store, bases) && i <= |bases|
    ensures SchemasAvailable(store, bases[..i])
    ensures DescribeBases(store, bases[..i]).value == DescribeBases(store, bases).value[..i]
  {
  }

  /** Each base contributes as many descriptors as its schema has tables. */
  lemma {:induction false} DescribeBasesLength(store: Store, bases: seq<Base>)
    requires SchemasAvailable(store, bases)
    ensures Seqs.TotalLength(DescribeBases(store, bases).value) == TableCount(store, bases)
  {
    if bases != [] {
      assert forall b | b in bases[1..] :: b in bases;
      var xss := DescribeBases(store, bases).value;
      assert xss[1..] == DescribeBases(store, bases[1..]).value;
      DescribeBasesLength(store, bases[1..]);
    }
  }

  /** A successful listing has one descriptor per table, summed over all listed bases. */
  lemma ListingLength(store: Store, ds: seq<ResourceDescriptor>)
    requires ListResources(store) == Success(ds)
    ensures |ds| == TableCount(store, ListBases(store).value)
  {
    var bases := ListBases(store).value;
    Seqs.FlattenLength(DescribeBases(store, bases).value);
    DescribeBasesLength(store, bases);
  }

  /** A successful listing holds table `j` of base `i` right after the tables of the bases
      before `i`: bases in listing order, tables in schema order. */
  lemma ListingOrder(store: Store, ds: seq<ResourceDescriptor>, i: nat, j: nat)
    requires ListResources(store) == Success(ds)
    requires i < |ListBases(store).value|
    requires j < |TablesOf(store, ListBases(store).value[i].id)|
    ensures SchemasAvailable(store, ListBases(store).value[..i])
    ensures TableCount(store, ListBases(store).value[..i]) + j < |ds|
    ensures ds[TableCount(store, ListBases(store).value[..i]) + j]
         == Describe(ListBases(store).value[i], TablesOf(store, ListBases(store).value[i].id)[j])
  {
    var bases := ListBases(store).value;
    var xss := DescribeBases(store, bases).value;
    DescribeBasesPrefix(store, bases, i);
    DescribeBasesLength(store, bases[..i]);
    Seqs.FlattenIndex(xss, i, j);
  }

  /** `d` is the descriptor `list()` makes for table `t` of the listed base `b`. */
  ghost predicate ListedFrom(store: Store, d: ResourceDescriptor, b: Base, t: Table)
  {
    && ListBases(store).Success?
    && b in ListBases(store).value
    && GetBaseSchema(store, b.id).Success?
    && t in TablesOf(store, b.id)
    && d.uri == SchemaUri(b.id, t.id)
    && d.mimeType == JsonMimeType
    && d.name == b.name + ": " + t.name + " schema"
  }

  /** Every listed descriptor comes from a listed base and a table of that base's schema,
      and carries that table's URI, the JSON media type and the "<base>: <table> schema" name. */
  lemma ListedDescriptorsOrigin(store: Store, ds: seq<ResourceDescriptor>)
    requires ListResources(store) == Success(ds)
    ensures forall d | d in ds :: exists b, t :: ListedFrom(store, d, b, t)
  {
    var bases := ListBases(store).value;
    var xss := DescribeBases(store, bases).value;
    forall d | d in ds
      ensures exists b, t :: ListedFrom(store, d, b, t)
    {
      Seqs.FlattenMember(xss, d);
      var i :| 0 <= i < |xss| && d in xss[i];
      var j :| 0 <= j < |xss[i]| && xss[i][j] == d;
      assert bases[i] in bases;
      var t := TablesOf(store, bases[i].id)[j];
      assert ListedFrom(store, d, bases[i], t);
    }
  }

  /** Reading back `d` with the ids of base `b` and table `t` gives one JSON content item
      for `d.uri` tagged with those ids, holding `t` itself when the schema's table ids are
      distinct. */
  ghost predicate ReadsBack(store: Store, d: ResourceDescriptor, b: Base, t: Table)
  {
    var r := Read(store, d.uri, Some(Scalar(b.id)), Some(Scalar(t.id)));
    && r.Success?
    && |r.value.contents| == 1
    && r.value.contents[0].uri == d.uri
    && r.value.contents[0].mimeType == d.mimeType
    && r.value.contents[0].payload.baseId == b.id
    && r.value.contents[0].payload.tableId == t.id
    && (GetBaseSchema(store, b.id).Success? && DistinctTableIds(TablesOf(store, b.id)) ==>
          r.value.contents[0].payload == Project(b.id, t))
  }

  /** Round trip: every descriptor of a successful listing can be read back from the same
      snapshot with the ids it was made from, provided they are not empty. */
  lemma ListedResourcesReadable(store: Store, ds: seq<ResourceDescriptor>)
    requires ListResources(store) == Success(ds)
    ensures forall d | d in ds :: exists b, t ::
      ListedFrom(store, d, b, t) && (b.id != "" && t.id != "" ==> ReadsBack(store, d, b, t))
  {
    ListedDescriptorsOrigin(store, ds);
    forall d | d in ds
      ensures exists b, t ::
        ListedFrom(store, d, b, t) && (b.id != "" && t.id != "" ==> ReadsBack(store, d, b, t))
    {
      var b, t :| ListedFrom(store, d, b, t);
      if b.id != "" && t.id != "" {
        TableReadable(store, d.uri, b, t);
      }
    }
  }

  /** Reading a table that the base's schema holds succeeds and returns that table's
      projection (the first one with its id). */
  lemma TableReadable(store: Store, uri: string, b: Base, t: Table)
    requires GetBaseSchema(store, b.id).Success? && t in TablesOf(store, b.id)
    requires b.id != "" && t.id != ""
    ensures var r := Read(store, uri, Some(Scalar(b.id)), Some(Scalar(t.id)));
      && r.Success?
      && |r.value.contents| == 1
      && r.value.contents[0].uri == uri
      && r.value.contents[0].mimeType == JsonMimeType
      && r.value.contents[0].payload.baseId == b.id
      && r.value.contents[0].payload.tableId == t.id
      && (DistinctTableIds(TablesOf(store, b.id)) ==> r.value.contents[0].payload == Project(b.id, t))
  {
  }

  // ---------------------------------------------------------------------------
  // Uniqueness of listed URIs
  // ---------------------------------------------------------------------------

  /** No two descriptors share a URI. */
  predicate UrisDistinct(ds: seq<ResourceDescriptor>)
  {
    forall a, c | 0 <= a < c < |ds| :: ds[a].uri != ds[c].uri
  }

  /** A schema URI determines its base id and table id, as long as the base id holds no
      slash (the table id may). */
  lemma SchemaUriInjective(b1: string, t1: string, b2: string, t2: string)
    requires '/' !in b1 && '/' !in b2
    requires SchemaUri(b1, t1) == SchemaUri(b2, t2)
    ensures b1 == b2 && t1 == t2
  {
    var u := SchemaUri(b1, t1);
    var p := |UriScheme|;
    assert u == UriScheme + b1 + "/" + t1 + SchemaSuffix;
    assert u == UriScheme + b2 + "/" + t2 + SchemaSuffix;
    assert u[p + |b1|] == '/';
    assert u[p + |b2|] == '/';
    assert b1 == u[p..p + |b1|] == b2;
    assert t1 == u[p + |b1| + 1..|u| - |SchemaSuffix|] == t2;
  }

  /** The descriptors of one base have distinct URIs when its id is slash-free and its
      table ids are distinct. */
  lemma DescribeTablesUrisDistinct(base: Base, tables: seq<Table>)
    requires '/' !in base.id && DistinctTableIds(tables)
    ensures UrisDistinct(DescribeTables(base, tables))
  {
    var ds := DescribeTables(base, tables);
    forall a, c | 0 <= a < c < |ds| ensures ds[a].uri != ds[c].uri {
      if ds[a].uri == ds[c].uri {
        SchemaUriInjective(base.id, tables[a].id, base.id, tables[c].id);
      }
    }
  }

  /** Two descriptor lists with distinct URIs each and no URI in common concatenate to a
      list with distinct URIs. */
  lemma ConcatUrisDistinct(xs: seq<ResourceDescriptor>, ys: seq<ResourceDescriptor>)
    requires UrisDistinct(xs) && UrisDistinct(ys)
    requires forall x, y | x in xs && y in ys :: x.uri != y.uri
    ensures UrisDistinct(xs + ys)
  {
  }

  /** A descriptor of a later base never has the URI of a table of the first base, when
      base ids are distinct and slash-free. */
  lemma LaterBaseUriDiffers(store: Store, bases: seq<Base>, d: ResourceDescriptor, t: Table)
    requires SchemasAvailable(store, bases) && bases != []
    requires DistinctBaseIds(bases) && forall b | b in bases :: '/' !in b.id
    requires d in Seqs.Flatten(DescribeBases(store, bases).value[1..])
    ensures d.uri != SchemaUri(bases[0].id, t.id)
  {
    var rest := DescribeBases(store, bases).value[1..];
    Seqs.FlattenMember(rest, d);
    var i :| 0 <= i < |rest| && d in rest[i];
    var tables := TablesOf(store, bases[i + 1].id);
    var j :| 0 <= j < |rest[i]| && rest[i][j] == d;
    assert d.uri == SchemaUri(bases[i + 1].id, tables[j].id);
    assert bases[i + 1] in bases;
    if d.uri == SchemaUri(bases[0].id, t.id) {
      SchemaUriInjective(bases[0].id, t.id, bases[i + 1].id, tables[j].id);
    }
  }

  /** When base ids are distinct and slash-free and each schema's table ids are distinct,
      the per-base descriptors, concatenated, have distinct URIs. */
  lemma {:induction false} DescribedUrisDistinct(store: Store, bases: seq<Base>)
    requires SchemasAvailable(store, bases)
    requires DistinctBaseIds(bases)
    requires forall b | b in bases :: '/' !in b.id && DistinctTableIds(TablesOf(store, b.id))
    ensures UrisDistinct(Seqs.Flatten(DescribeBases(store, bases).value))
  {
    if bases != [] {
      var xss := DescribeBases(store, bases).value;
      var tail := bases[1..];
      assert forall b | b in tail :: b in bases;
      assert DistinctBaseIds(tail) by {
        forall i, j | 0 <= i < j < |tail| ensures tail[i].id != tail[j].id {
          assert tail[i] == bases[i + 1] && tail[j] == bases[j + 1];
        }
      }
      assert xss[1..] == DescribeBases(store, tail).value;
      DescribedUrisDistinct(store, tail);
      assert bases[0] in bases;
      var tables := TablesOf(store, bases[0].id);
      DescribeTablesUrisDistinct(bases[0], tables);
      forall x: ResourceDescriptor, y: ResourceDescriptor | x in xss[0] && y in Seqs.Flatten(xss[1..]) ensures x.uri != y.uri {
        var a :| 0 <= a < |tables| && x == Describe(bases[0], tables[a]);
        LaterBaseUriDiffers(store, bases, y, tables[a]);
      }
      ConcatUrisDistinct(xss[0], Seqs.Flatten(xss[1..]));
    }
  }

  /** A listing over distinct, slash-free base ids whose schemas have distinct table ids
      has distinct URIs. */
  lemma ListedUrisDistinct(store: Store, ds: seq<ResourceDescriptor>)
    requires ListResources(store) == Success(ds)
    requires DistinctBaseIds(ListBases(store).value)
    requires forall b | b in ListBases(store).value :: '/' !in b.id && DistinctTableIds(TablesOf(store, b.id))
    ensures UrisDistinct(ds)
  {
    DescribedUrisDistinct(store, ListBases(store).value);
  }

  /** `SchemaUri` applied to the placeholder names gives the registered template. */
  lemma SchemaUriFitsTemplate()
    ensures SchemaUri("{baseId}", "{tableId}") == UriTemplate
  {
  }

  /** The slash-free condition on base ids is needed: base `a/b` with table `c` and base
      `a` with table `b/c` share a URI. */
  lemma SlashedBaseIdsCollide()
    ensures SchemaUri("a/b", "c") == SchemaUri("a", "b/c")
  {
  }
}
