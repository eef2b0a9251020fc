/** A one-base, one-table store that agrees with the unit tests' mock service on `base1`
    (the mock answers every base id with the same schema; this store knows only `base1`),
    and what listing and reading it give. */
module SchemaResourceExamples {
  import opened Wrappers
  import opened AirtableStore
  import opened SchemaResources
  import Seqs

  function TestTable(): Table
  {
    Table("tbl1", "Test Table", Some("Test Description"), "fld1", [], [])
  }

  function TestStore(): Store
  {
    Store(
      Success([Base("base1", "Test Base", "create")]),
      map["base1" := Success(BaseSchema([TestTable()]))])
  }

  /** Listing this store gives exactly one descriptor for `tbl1` of `base1`. */
  lemma ListTestStore()
    ensures ListResources(TestStore()) == Success([ResourceDescriptor(
      "airtable://base1/tbl1/schema", "application/json", "Test Base: Test Table schema")])
  {
    var store, base := TestStore(), Base("base1", "Test Base", "create");
    var d := Describe(base, TestTable());
    assert GetBaseSchema(store, "base1") == Success(BaseSchema([TestTable()]));
    assert [base][1..] == [];
    assert DescribeBases(store, [base][1..]) == Success([]);
    assert [[d]] + [] == [[d]];
    assert DescribeTables(base, [TestTable()]) == [d];
    assert DescribeBases(store, [base]) == Success([[d]]);
    assert Seqs.Flatten([[d]]) == [d];
    assert d.uri == "airtable://base1/tbl1/schema";
    assert d.name == "Test Base: Test Table schema";
  }

  /** Reading `tbl1` of `base1` gives its projection under the requested URI, whether the
      variables arrive as strings or as lists. */
  lemma ReadTestStore(uri: string)
    ensures Read(TestStore(), uri, Some(Scalar("base1")), Some(Scalar("tbl1")))
         == Success(ReadResult([ResourceContent(uri, "application/json",
              TableProjection("base1", "tbl1", "Test Table", Some("Test Description"), "fld1", [], []))]))
    ensures Read(TestStore(), uri, Some(Multiple(["base1", "other"])), Some(Multiple(["tbl1"])))
         == Read(TestStore(), uri, Some(Scalar("base1")), Some(Scalar("tbl1")))
  {
  }

  /** The failures of a read against this store: an empty list or an empty string as
      an id, a table the base does not have, a base this store does not know. */
  lemma ReadTestStoreFailures(uri: string)
    ensures Read(TestStore(), uri, Some(Multiple([])), Some(Scalar("tbl1"))) == Failure(InvalidUri)
    ensures Read(TestStore(), uri, Some(Scalar("base1")), Some(Scalar(""))) == Failure(InvalidUri)
    ensures Read(TestStore(), uri, Some(Scalar("base1")), Some(Scalar("tbl2"))) == Failure(TableNotFound("tbl2", "base1"))
    ensures Read(TestStore(), uri, Some(Scalar("base2")), Some(Scalar("tbl1"))) == Failure(Service(UnknownBase("base2")))
  {
  }
}
