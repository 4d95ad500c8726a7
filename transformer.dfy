/**
 * The record transformer: one flat facility row becomes one nested feed
 * record. Every field is read with `dict.get`, so the mapping is total and
 * a missing column becomes null.
 */
module Transformer {
  import opened FeedValues
  import Decimal

  const EntityIdPrefix: string := "facility-"

  /** The only columns the transformer reads. */
  const SourceColumns: set<string> := {
    "id", "name", "phone", "url", "latitude", "longitude",
    "country", "locality", "region", "postal_code", "street_address"
  }

  const TopLevelKeys: seq<string> := ["entity_id", "name", "telephone", "url", "location"]
  const LocationKeys: seq<string> := ["latitude", "longitude", "address"]
  const AddressKeys: seq<string> := ["country", "locality", "region", "postal_code", "street_address"]

  /** The text of the string leaf at `path`, if there is one. */
  function TextAt(j: Json, path: seq<string>): Option<string>
  {
    match At(j, path)
    case Some(Leaf(Str(s))) => Some(s)
    case _ => None
  }

  /** `transform_facility_for_feed_short`: one dict literal, written here as
      three functions, one per nesting level. No precondition: it is defined
      on every row, including the empty one. */
  function TransformFacilityForFeedShort(row: Row): (r: Json)
    ensures TextAt(r, ["entity_id"]) == Some(EntityIdPrefix + Show(Get(row, "id")))
  {
    Obj([
      Field("entity_id", Leaf(Str(EntityIdPrefix + Show(Get(row, "id"))))),
      Field("name", Leaf(Get(row, "name"))),
      Field("telephone", Leaf(Get(row, "phone"))),
      Field("url", Leaf(Get(row, "url"))),
      Field("location", LocationOf(row))
    ])
  }

  function LocationOf(row: Row): Json
  {
    Obj([
      Field("latitude", Leaf(Get(row, "latitude"))),
      Field("longitude", Leaf(Get(row, "longitude"))),
      Field("address", AddressOf(row))
    ])
  }

  function AddressOf(row: Row): Json
  {
    Obj([
      Field("country", Leaf(Get(row, "country"))),
      Field("locality", Leaf(Get(row, "locality"))),
      Field("region", Leaf(Get(row, "region"))),
      Field("postal_code", Leaf(Get(row, "postal_code"))),
      Field("street_address", Leaf(Get(row, "street_address")))
    ])
  }

  /** One step down an object of at most five fields: the value of the
      first field with `key`. The keys before position `i` are listed one by
      one, which keeps the proof cheap on literal keys. */
  lemma LookupField(fields: seq<Field>, i: nat, key: string, v: Json)
    requires i < |fields| <= 5 && fields[i] == Field(key, v)
    requires i > 0 ==> fields[0].key != key
    requires i > 1 ==> fields[1].key != key
    requires i > 2 ==> fields[2].key != key
    requires i > 3 ==> fields[3].key != key
    ensures At(Obj(fields), [key]) == Some(v)
  {
    assert forall k :: 0 <= k < i ==> fields[k].key != key by {
      forall k | 0 <= k < i
        ensures fields[k].key != key
      {
        assert k == 0 || k == 1 || k == 2 || k == 3;
      }
    }
    MemberAt(fields, i);
    assert [key][1..] == [];
  }

  lemma TopLevelLeaves(row: Row)
    ensures At(TransformFacilityForFeedShort(row), ["name"]) == Some(Leaf(Get(row, "name")))
    ensures At(TransformFacilityForFeedShort(row), ["telephone"]) == Some(Leaf(Get(row, "phone")))
    ensures At(TransformFacilityForFeedShort(row), ["url"]) == Some(Leaf(Get(row, "url")))
    ensures At(TransformFacilityForFeedShort(row), ["location"]) == Some(LocationOf(row))
  {
    var fields := TransformFacilityForFeedShort(row).fields;
    LookupField(fields, 1, "name", Leaf(Get(row, "name")));
    LookupField(fields, 2, "telephone", Leaf(Get(row, "phone")));
    LookupField(fields, 3, "url", Leaf(Get(row, "url")));
    LookupField(fields, 4, "location", LocationOf(row));
  }

  lemma LocationLeaves(row: Row)
    ensures At(LocationOf(row), ["latitude"]) == Some(Leaf(Get(row, "latitude")))
    ensures At(LocationOf(row), ["longitude"]) == Some(Leaf(Get(row, "longitude")))
    ensures At(LocationOf(row), ["address"]) == Some(AddressOf(row))
  {
    var fields := LocationOf(row).fields;
    LookupField(fields, 0, "latitude", Leaf(Get(row, "latitude")));
    LookupField(fields, 1, "longitude", Leaf(Get(row, "longitude")));
    LookupField(fields, 2, "address", AddressOf(row));
  }

  lemma AddressLeaves(row: Row)
    ensures At(AddressOf(row), ["country"]) == Some(Leaf(Get(row, "country")))
    ensures At(AddressOf(row), ["locality"]) == Some(Leaf(Get(row, "locality")))
    ensures At(AddressOf(row), ["region"]) == Some(Leaf(Get(row, "region")))
    ensures At(AddressOf(row), ["postal_code"]) == Some(Leaf(Get(row, "postal_code")))
    ensures At(AddressOf(row), ["street_address"]) == Some(Leaf(Get(row, "street_address")))
  {
    var fields := AddressOf(row).fields;
    LookupField(fields, 0, "country", Leaf(Get(row, "country")));
    LookupField(fields, 1, "locality", Leaf(Get(row, "locality")));
    LookupField(fields, 2, "region", Leaf(Get(row, "region")));
    LookupField(fields, 3, "postal_code", Leaf(Get(row, "postal_code")));
    LookupField(fields, 4, "street_address", Leaf(Get(row, "street_address")));
  }

  /** Every leaf other than `entity_id` is the row's value under its source
      column (`phone` for `telephone`), or null when the row lacks that
      column. */
  lemma CopiesColumns(row: Row)
    ensures At(TransformFacilityForFeedShort(row), ["name"]) == Some(Leaf(Get(row, "name")))
    ensures At(TransformFacilityForFeedShort(row), ["telephone"]) == Some(Leaf(Get(row, "phone")))
    ensures At(TransformFacilityForFeedShort(row), ["url"]) == Some(Leaf(Get(row, "url")))
    ensures At(TransformFacilityForFeedShort(row), ["location", "latitude"]) == Some(Leaf(Get(row, "latitude")))
    ensures At(TransformFacilityForFeedShort(row), ["location", "longitude"]) == Some(Leaf(Get(row, "longitude")))
    ensures At(TransformFacilityForFeedShort(row), ["location", "address", "country"]) == Some(Leaf(Get(row, "country")))
    ensures At(TransformFacilityForFeedShort(row), ["location", "address", "locality"]) == Some(Leaf(Get(row, "locality")))
    ensures At(TransformFacilityForFeedShort(row), ["location", "address", "region"]) == Some(Leaf(Get(row, "region")))
    ensures At(TransformFacilityForFeedShort(row), ["location", "address", "postal_code"]) == Some(Leaf(Get(row, "postal_code")))
    ensures At(TransformFacilityForFeedShort(row), ["location", "address", "street_address"]) == Some(Leaf(Get(row, "street_address")))
  {
    var r := TransformFacilityForFeedShort(row);
    var location := LocationOf(row);
    var address := AddressOf(row);
    TopLevelLeaves(row);
    LocationLeaves(row);
    AddressLeaves(row);
    assert At(r, ["location", "latitude"]) == At(location, ["latitude"]) by {
      assert ["location", "latitude"][1..] == ["latitude"];
    }
    assert At(r, ["location", "longitude"]) == At(location, ["longitude"]) by {
      assert ["location", "longitude"][1..] == ["longitude"];
    }
    assert At(r, ["location", "address", "country"]) == At(address, ["country"]) by {
      assert ["location", "address", "country"][1..] == ["address", "country"];
      assert ["address", "country"][1..] == ["country"];
    }
    assert At(r, ["location", "address", "locality"]) == At(address, ["locality"]) by {
      assert ["location", "address", "locality"][1..] == ["address", "locality"];
      assert ["address", "locality"][1..] == ["locality"];
    }
    assert At(r, ["location", "address", "region"]) == At(address, ["region"]) by {
      assert ["location", "address", "region"][1..] == ["address", "region"];
      assert ["address", "region"][1..] == ["region"];
    }
    assert At(r, ["location", "address", "postal_code"]) == At(address, ["postal_code"]) by {
      assert ["location", "address", "postal_code"][1..] == ["address", "postal_code"];
      assert ["address", "postal_code"][1..] == ["postal_code"];
    }
    assert At(r, ["location", "address", "street_address"]) == At(address, ["street_address"]) by {
      assert ["location", "address", "street_address"][1..] == ["address", "street_address"];
      assert ["address", "street_address"][1..] == ["street_address"];
    }
  }

  /** Every feed record has the same nested key layout, whatever the row:
      the object under `location` is `LocationOf(row)` and the one under
      `location.address` is `AddressOf(row)` (`TopLevelLeaves`,
      `LocationLeaves`). */
  lemma OutputShape(row: Row)
    ensures Keys(TransformFacilityForFeedShort(row)) == TopLevelKeys
    ensures Keys(LocationOf(row)) == LocationKeys
    ensures Keys(AddressOf(row)) == AddressKeys
  {
    assert Keys(TransformFacilityForFeedShort(row)) == TopLevelKeys by {
      assert |Keys(TransformFacilityForFeedShort(row))| == 5;
    }
    assert Keys(LocationOf(row)) == LocationKeys by {
      assert |Keys(LocationOf(row))| == 3;
    }
    assert Keys(AddressOf(row)) == AddressKeys by {
      assert |Keys(AddressOf(row))| == 5;
    }
  }

  /** Columns outside `SourceColumns` never influence the record. */
  lemma ExtraColumnsIgnored(row1: Row, row2: Row)
    requires forall c :: c in SourceColumns ==> Get(row1, c) == Get(row2, c)
    ensures TransformFacilityForFeedShort(row1) == TransformFacilityForFeedShort(row2)
  {
    assert "id" in SourceColumns && "name" in SourceColumns && "phone" in SourceColumns;
    assert "url" in SourceColumns && "latitude" in SourceColumns && "longitude" in SourceColumns;
    assert "country" in SourceColumns && "locality" in SourceColumns && "region" in SourceColumns;
    assert "postal_code" in SourceColumns && "street_address" in SourceColumns;
  }

  /** `telephone` is copied from the `phone` column; a `telephone` column in
      the row is not looked at. */
  lemma TelephoneComesFromPhone(row: Row, v: Value)
    ensures At(TransformFacilityForFeedShort(row), ["telephone"]) == Some(Leaf(Get(row, "phone")))
    ensures TransformFacilityForFeedShort(row["telephone" := v]) == TransformFacilityForFeedShort(row)
  {
    TopLevelLeaves(row);
    ExtraColumnsIgnored(row["telephone" := v], row);
  }

  /** A row without an id still gets an entity id: the sentinel `facility-None`. */
  lemma MissingIdGivesSentinel(row: Row)
    requires "id" !in row
    ensures TextAt(TransformFacilityForFeedShort(row), ["entity_id"]) == Some("facility-None")
  {
    assert Show(Get(row, "id")) == "None";
    assert EntityIdPrefix + "None" == "facility-None";
  }

  /** The sentinel is not reserved: a row whose id is the text "None" gets
      the same entity id as a row without an id. */
  lemma SentinelIsAmbiguous(row1: Row, row2: Row)
    requires "id" !in row1
    requires "id" in row2 && row2["id"] == Str("None")
    ensures TextAt(TransformFacilityForFeedShort(row1), ["entity_id"])
         == TextAt(TransformFacilityForFeedShort(row2), ["entity_id"])
  {
  }

  /** Integer ids (the database's primary key) give distinct entity ids. */
  lemma EntityIdsDistinct(row1: Row, row2: Row)
    requires Get(row1, "id").Int? && Get(row2, "id").Int?
    requires Get(row1, "id") != Get(row2, "id")
    ensures TextAt(TransformFacilityForFeedShort(row1), ["entity_id"])
         != TextAt(TransformFacilityForFeedShort(row2), ["entity_id"])
  {
    var s1 := Show(Get(row1, "id"));
    var s2 := Show(Get(row2, "id"));
    if EntityIdPrefix + s1 == EntityIdPrefix + s2 {
      assert s1 == (EntityIdPrefix + s1)[|EntityIdPrefix|..];
      assert s2 == (EntityIdPrefix + s2)[|EntityIdPrefix|..];
      Decimal.IntToStringInjective(Get(row1, "id").i, Get(row2, "id").i);
    }
  }

  /** The fully populated sample row maps to the expected nested record. */
  lemma SampleRecord()
    ensures TransformFacilityForFeedShort(map[
        "id" := Int(123),
        "name" := Str("Test Name"),
        "phone" := Str("555-1234"),
        "url" := Str("http://testName.com"),
        "latitude" := Number("40.7128"),
        "longitude" := Number("-74.006"),
        "country" := Str("US"),
        "locality" := Str("New York"),
        "region" := Str("NY"),
        "postal_code" := Str("10007"),
        "street_address" := Str("123 Main St")
      ]) == Obj([
        Field("entity_id", Leaf(Str("facility-123"))),
        Field("name", Leaf(Str("Test Name"))),
        Field("telephone", Leaf(Str("555-1234"))),
        Field("url", Leaf(Str("http://testName.com"))),
        Field("location", Obj([
          Field("latitude", Leaf(Number("40.7128"))),
          Field("longitude", Leaf(Number("-74.006"))),
          Field("address", Obj([
            Field("country", Leaf(Str("US"))),
            Field("locality", Leaf(Str("New York"))),
            Field("region", Leaf(Str("NY"))),
            Field("postal_code", Leaf(Str("10007"))),
            Field("street_address", Leaf(Str("123 Main St")))
          ]))
        ]))
      ])
  {
    var row := map[
        "id" := Int(123),
        "name" := Str("Test Name"),
        "phone" := Str("555-1234"),
        "url" := Str("http://testName.com"),
        "latitude" := Number("40.7128"),
        "longitude" := Number("-74.006"),
        "country" := Str("US"),
        "locality" := Str("New York"),
        "region" := Str("NY"),
        "postal_code" := Str("10007"),
        "street_address" := Str("123 Main St")
      ];
    assert Get(row, "id") == Int(123);
    assert Get(row, "name") == Str("Test Name");
    assert Get(row, "phone") == Str("555-1234");
    assert Get(row, "url") == Str("http://testName.com");
    assert Get(row, "latitude") == Number("40.7128");
    assert Get(row, "longitude") == Number("-74.006");
    assert Get(row, "country") == Str("US");
    assert Get(row, "locality") == Str("New York");
    assert Get(row, "region") == Str("NY");
    assert Get(row, "postal_code") == Str("10007");
    assert Get(row, "street_address") == Str("123 Main St");
    assert Decimal.NatToString(123) == "123" by {
      assert Decimal.NatToString(12) == "12" by {
        assert Decimal.NatToString(1) == "1";
      }
    }
    assert EntityIdPrefix + "123" == "facility-123";
  }
}
