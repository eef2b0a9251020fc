# Table-schema resources of airtable-mcp-server, in Dafny

This project models the resource directory that `registerResources` adds to the
airtable-mcp-server: one resource per Airtable table, addressed as
`airtable://{baseId}/{tableId}/schema`, that a client can list and read.

- **Listing** (`SchemaResources.ListResources`) asks the service for its bases. Then,
  base by base, it asks for the base's schema and describes each table with its URI, the
  media type `application/json` and the name `"<base name>: <table name> schema"`. The
  per-base lists are concatenated. A failed call fails the whole listing.
- **Reading** (`SchemaResources.Read`) takes the requested URI and the template variables
  `baseId` and `tableId`. A variable that arrives as a list is reduced to its first
  element. A missing or empty id is rejected with `Invalid resource URI: missing baseId or
  tableId`. The table is then looked up by id in the base's schema. When no table has that
  id the read fails with `Table <tableId> not found in base <baseId>`. Otherwise it returns
  one JSON content item under the requested URI, holding the base id, the table id and the
  table's name, description, primary field id, fields and views.

The Airtable service is a snapshot (`AirtableStore.Store`). It holds the outcome of
`listBases` and, per base id, the outcome of `getBaseSchema`. Either call may fail. A base
id the snapshot has no answer for fails as an unknown base. Both callbacks are pure
functions of the snapshot, so the model is made of datatypes, recursive functions and
lemmas. `Promise.all` over the bases is an order-preserving recursion
(`SchemaResources.DescribeBases`), and `.flat()` is `Seqs.Flatten`.

Beyond the listed behaviour, the model proves two further facts:

- Every listed descriptor can be read back from the same snapshot (`ListedResourcesReadable`).
- Listed URIs are pairwise distinct when base ids are distinct and contain no `/`, and
  each schema's table ids are distinct (`ListedUrisDistinct`). The slash condition is
  needed. With base `a/b` and table `c`, and base `a` and table `b/c`, both URIs are
  `airtable://a/b/c/schema` (`SlashedBaseIdsCollide`).

Files: `wrappers.dfy` (Option, Result), `seqs.dfy` (flattening), `airtable_store.dfy`
(the store snapshot), `schema_resources.dfy` (listing, read and their properties),
`schema_resource_examples.dfy` (a one-base, one-table store that agrees with the unit
tests' mock service on `base1`).

## Model

| member | source | states |
|---|---|---|
| `Seqs.Flatten` | src/resources/index.ts:21 | `.flat()` at depth 1: the inner lists one after another; pinned down by `FlattenLength`, `FlattenIndex` and `FlattenMember` |
| `Seqs.FlattenLength` | src/resources/index.ts:21 | `.flat()` keeps every element: the flattened length is the sum of the inner lengths |
| `Seqs.FlattenIndex` | src/resources/index.ts:21 | `.flat()` keeps the order: element `j` of inner list `i` lands after all elements of the lists before `i` |
| `Seqs.FlattenMember` | src/resources/index.ts:21 | an element of the flattened list is an element of some inner list, and conversely |
| `AirtableStore.ListBases` | src/resources/index.ts:10 | `listBases()` against the snapshot: the stored outcome, a base list or a failure; its failure fails the listing (`ListResources`) |
| `AirtableStore.GetBaseSchema` | src/resources/index.ts:12 | `getBaseSchema(baseId)` against the snapshot: the stored outcome for a known id, and an `UnknownBase` failure for an id the snapshot has no answer for; its failure fails the listing and is passed on by `Read` |
| `SchemaResources.SchemaUri` | src/resources/index.ts:14 | `airtable://<baseId>/<tableId>/schema`; `SchemaUriInjective` shows it determines both ids for slash-free base ids, and `SlashedBaseIdsCollide` that the condition is needed |
| `SchemaResources.Describe` | src/resources/index.ts:13-17 | the descriptor of one table: its schema URI, `application/json` and `<base name>: <table name> schema`; pinned down for every listed entry by `ListedDescriptorsOrigin` and `ListingOrder` |
| `SchemaResources.DescribeTables` | src/resources/index.ts:13-17 | `schema.tables.map(...)`: one descriptor per table, in schema order; its URIs are distinct under `DescribeTablesUrisDistinct` |
| `SchemaResources.DescribeBases` | src/resources/index.ts:11-18 | succeeds exactly when every base's schema lookup succeeds; then it holds one entry per base, in base order, each describing that base's tables in schema order; on failure the error is the one some base's lookup failed with |
| `SchemaResources.ListResources` | src/resources/index.ts:9-23 | succeeds exactly when `listBases` succeeds and every listed base's schema lookup succeeds, so no partial listing is returned; a failure carries the error of `listBases` or of some base's lookup |
| `SchemaResources.DescribeBasesLength` | src/resources/index.ts:11-18 | each base contributes as many descriptors as its schema has tables |
| `SchemaResources.ListingLength` | src/resources/index.ts:10-21 | a successful listing has as many descriptors as there are tables, summed over all listed bases |
| `SchemaResources.ListingOrder` | src/resources/index.ts:10-21 | the descriptor of table `j` of base `i` sits right after the descriptors of all tables of the bases before `i`: bases in `listBases` order, tables in schema order |
| `SchemaResources.ListedDescriptorsOrigin` | src/resources/index.ts:13-17 | every listed descriptor comes from a listed base and a table of its schema, with URI `airtable://<baseId>/<tableId>/schema`, media type `application/json` and name `<base name>: <table name> schema` |
| `SchemaResources.Resolve` | src/resources/index.ts:35-36 | a scalar variable is used as is, a list variable is replaced by its first element, and an absent variable or an empty list gives no id; its effect on a read is stated by `ReadListBaseVariable`, `ReadListTableVariable` and `ReadEmptyListRejected` |
| `SchemaResources.ReadListBaseVariable` | src/resources/index.ts:35 | for every store, URI and table variable, a base id given as a non-empty list reads exactly as its first element |
| `SchemaResources.ReadListTableVariable` | src/resources/index.ts:36 | for every store, URI and base variable, a table id given as a non-empty list reads exactly as its first element |
| `SchemaResources.ReadEmptyListRejected` | src/resources/index.ts:35-40 | an absent variable or an empty list for either id makes every read fail with `InvalidUri` |
| `SchemaResources.IdGiven` | src/resources/index.ts:38 | JavaScript truthiness of an id that is a string or `undefined`: present and not empty; `Read` fails with `InvalidUri` exactly when it is false for either id |
| `SchemaResources.FindTable` | src/resources/index.ts:43 | finds nothing exactly when no table has the id; otherwise returns the first table with that id |
| `SchemaResources.Project` | src/resources/index.ts:54-62 | the serialised object: the requested base id and the table's id, name, description, primary field id, fields and views; `TableReadable` shows a read returns it for the table asked for |
| `SchemaResources.Read` | src/resources/index.ts:34-66 | fails with `InvalidUri` exactly when an id is missing or empty, whatever the store holds; a failed schema lookup propagates its error; fails with `TableNotFound(tableId, baseId)` exactly when no table has the id; otherwise succeeds with one `application/json` item under the input URI, tagged with the requested ids and holding the first matching table's name, description, primary field id, fields and views |
| `SchemaResources.ErrorMessage` | src/resources/index.ts:38-47 | the read callback's own errors carry a message of their own, while a failed lookup's error is passed on as it is; the texts are stated by `ReadErrorMessages` |
| `SchemaResources.ReadErrorMessages` | src/resources/index.ts:38-47 | a missing or empty id makes the read fail with `Invalid resource URI: missing baseId or tableId`; with both ids given and the schema found, the read fails with `Table <tableId> not found in base <baseId>` exactly when no table has the id |
| `SchemaResources.TableReadable` | src/resources/index.ts:42-62 | reading, with non-empty ids, a table that the base's schema holds succeeds and returns that table's projection when the schema's table ids are distinct |
| `SchemaResources.ListedResourcesReadable` | src/resources/index.ts:9-66 | round trip: every descriptor of a successful listing reads back from the same snapshot under its own URI with the ids it was made from, provided they are non-empty |
| `SchemaResources.SchemaUriInjective` | src/resources/index.ts:14 | a schema URI determines its base id and table id when the base ids hold no slash |
| `SchemaResources.DescribeTablesUrisDistinct` | src/resources/index.ts:13-17 | one base's descriptors have distinct URIs when its table ids are distinct and its id holds no slash |
| `SchemaResources.DescribedUrisDistinct` | src/resources/index.ts:11-21 | the concatenated per-base descriptors have distinct URIs under distinct, slash-free base ids and distinct table ids per schema |
| `SchemaResources.ListedUrisDistinct` | src/resources/index.ts:9-23 | a successful listing has pairwise distinct URIs under the same conditions |
| `SchemaResources.SlashedBaseIdsCollide` | src/resources/index.ts:14 | without the slash-free condition two different base/table pairs can share a URI: base `a/b` with table `c` and base `a` with table `b/c` |
| `SchemaResources.SchemaUriFitsTemplate` | src/resources/index.ts:7 | `SchemaUri` applied to the placeholder names `{baseId}` and `{tableId}` gives the registered template `airtable://{baseId}/{tableId}/schema` |
| `SchemaResourceExamples.ListTestStore` | src/mcpServer.test.ts:132-148 | listing the one-base, one-table store that agrees with the unit tests' mock gives exactly the descriptor `airtable://base1/tbl1/schema`, `application/json`, `Test Base: Test Table schema` |
| `SchemaResourceExamples.ReadTestStore` | src/mcpServer.test.ts:150-175 | reading `tbl1` of `base1` gives the expected projection, and list-valued variables read the same as their first elements |
| `SchemaResourceExamples.ReadTestStoreFailures` | src/resources/index.ts:38-47 | an empty list or empty string as an id, an unknown table and an unknown base each give their own failure |

## Left out

- Matching a URI against the template `airtable://{baseId}/{tableId}/schema` is done by the
  protocol library's `ResourceTemplate`. `Read` takes the extracted variables as input,
  and the round trip reads back with the ids a descriptor was made from.
- The read returns `uri.toString()` of a URL the protocol library has already parsed. The
  model echoes the URI string unchanged. If an id holds characters that URL serialisation
  percent-encodes, the returned URI would differ from the listed one; the model does not
  capture that.
- The protocol library also does the rest of the server's work, and none of it is modelled.
  This covers JSON-RPC dispatch, sessions, the tool-call envelope, the tool registry and
  the tools themselves.
- The `description` that appears in listed resources is merged in by the protocol library
  from the registration metadata. `list()` does not produce it.
- The Airtable service's network calls are replaced by a snapshot. Concurrent
  `getBaseSchema` calls are modelled as a sequential, order-preserving map.
- DescribeBases: when several schema lookups fail, the source reports whichever
  rejection settles first, which depends on timing. The model reports the first failure in
  base order, and its contract promises only that the error is that of some failing base.
- The read's `text` is the `JSON.stringify` of the projection. The model keeps the
  projection as a record (`TableProjection`). An absent description is `None`, which
  `JSON.stringify` would omit.
- Field options and other per-field or per-view attributes beyond id, name, type and
  description are not modelled. They are copied through unchanged.
- ErrorMessage: only the directory's own two messages are modelled. The text of the
  service's errors is not. Dafny cannot tell the two long message literals apart, so
  `ReadErrorMessages` states the invalid-URI message one way only (a missing id gives it),
  not that no other failure gives it.
- Transport selection, the HTTP endpoint, signal handling, the command-line API key and
  server composition are I/O plumbing and are not modelled (src/main.ts, src/index.ts,
  src/transports/shared.ts, src/server.ts).
