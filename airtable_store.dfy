/** A snapshot of the Airtable service as the resource directory sees it: the list of
    bases (`listBases`) and each base's schema (`getBaseSchema`). Both remote calls are
    modelled as lookups into an immutable snapshot that may answer with a failure. */
module AirtableStore {
  import opened Wrappers

  /** A base as returned by `listBases`. */
  datatype Base = Base(id: string, name: string, permissionLevel: string)

  /** A field of a table, passed through unchanged by the resource directory. */
  datatype Field = Field(id: string, name: string, fieldType: string, description: Option<string>)

  /** A view of a table, passed through unchanged by the resource directory. */
  datatype View = View(id: string, name: string, viewType: string)

  /** A table as it appears in a base schema; `description` is optional. */
  datatype Table = Table(
    id: string,
    name: string,
    description: Option<string>,
    primaryFieldId: string,
    fields: seq<Field>,
    views: seq<View>)

  /** The answer of `getBaseSchema`: the base's tables, in schema order. */
  datatype BaseSchema = BaseSchema(tables: seq<Table>)

  /** Why a remote call failed: a failure the service reported, or a base it does not know. */
  datatype ServiceFailure = RemoteError(message: string) | UnknownBase(baseId: string)

  /** The backing store at one instant: the outcome of listing the bases, and the outcome
      of fetching the schema of each base id the service answers for. */
  datatype Store = Store(
    baseList: Result<seq<Base>, ServiceFailure>,
    schemas: map<string, Result<BaseSchema, ServiceFailure>>)

  /** `listBases()` against the snapshot. */
  function ListBases(store: Store): Result<seq<Base>, ServiceFailure>
  {
    store.baseList
  }

  /** `getBaseSchema(baseId)` against the snapshot; an id the snapshot has no answer for
      is rejected as an unknown base. */
  function GetBaseSchema(store: Store, baseId: string): Result<BaseSchema, ServiceFailure>
  {
    if baseId in store.schemas then store.schemas[baseId] else Failure(UnknownBase(baseId))
  }

  /** Every base of `bases` has a schema the service returns. */
  predicate SchemasAvailable(store: Store, bases: seq<Base>)
  {
    forall b | b in bases :: GetBaseSchema(store, b.id).Success?
  }

  /** The tables of a base whose schema the service returns. */
  function TablesOf(store: Store, baseId: string): seq<Table>
    requires GetBaseSchema(store, baseId).Success?
  {
    GetBaseSchema(store, baseId).value.tables
  }

  /** The number of tables over all `bases`, each counted in its own schema. */
  function TableCount(store: Store, bases: seq<Base>): nat
    requires SchemasAvailable(store, bases)
  {
    if bases == [] then 0 else |TablesOf(store, bases[0].id)| + TableCount(store, bases[1..])
  }

  /** No two bases of the list share an id. */
  predicate DistinctBaseIds(bases: seq<Base>)
  {
    forall i, j | 0 <= i < j < |bases| :: bases[i].id != bases[j].id
  }

  /** No two tables of a schema share an id. */
  predicate DistinctTableIds(tables: seq<Table>)
  {
    forall i, j | 0 <= i < j < |tables| :: tables[i].id != tables[j].id
  }
}
