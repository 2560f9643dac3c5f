/** Fetching the OSDR dataset index and upserting one item per dataset. */
module FetchOsdr {
  import opened Wrappers
  import opened GoErrors
  import opened Text
  import opened Cells
  import opened Repository
  import opened ServiceErrors
  import opened JsonPick
  import opened OsdrEntity
  import opened OsdrStore
  import opened Schema
  import OsdrColumns
  import opened FetchIss

  /** The raw payload kept for a dataset: its re-encoded JSON object, or
      nothing when encoding fails (the error is dropped). */
  function RawOf(details: map<string, Json>, marshal: Json -> Result<Bytes, GoError>): Bytes
  {
    match marshal(Obj(details))
    case Ok(b) => b
    case Err(_) => []
  }

  /** The item stored for one dataset: its key serves as both identifier
      and title; the database assigns the identity. */
  function ItemFor(key: string, details: map<string, Json>, marshal: Json -> Result<Bytes, GoError>): (o: OsdrItem)
    ensures o.datasetId == Some(key) && o.title == Some(key)
    ensures o.status == None && o.updatedAt == None && o.insertedAt == ZeroTime
    ensures o.raw == RawOf(details, marshal)
  {
    OsdrItem(0, Some(key), Some(key), None, None, ZeroTime, RawOf(details, marshal))
  }

  /** The database assigns the item's identity: its row starts with
      DEFAULT. */
  lemma {:induction false} ItemIdentityIsDefault(key: string, details: map<string, Json>, marshal: Json -> Result<Bytes, GoError>)
    ensures var row := GetValuesForEntity(AsDto(ItemFor(key, details, marshal)));
      row.Ok? && row.value[0] == DefaultMarker
  {
  }

  /** The keys, among `keys`, whose value is an object: the datasets. */
  function Datasets(index: map<string, Json>, keys: set<string>): (r: set<string>)
    ensures r <= keys
  {
    set k | k in keys && k in index && index[k].Obj?
  }

  /** The datasets, among `keys`, whose item the repository accepted. */
  function Written(index: map<string, Json>, keys: set<string>,
                   marshal: Json -> Result<Bytes, GoError>,
                   toSql: InsertStatement -> Result<Sql, GoError>,
                   exec: Sql -> Option<GoError>): (r: set<string>)
    ensures r <= Datasets(index, keys)
  {
    set k | k in keys && k in index && index[k].Obj?
              && SaveError(ItemFor(k, index[k].fields, marshal), toSql, exec).None?
  }

  /** Visiting one more key adds it to the datasets exactly when its value
      is an object. */
  lemma {:induction false} DatasetsStep(index: map<string, Json>, keys: set<string>, k: string)
    requires k in index && k !in keys
    ensures Datasets(index, keys + {k}) == Datasets(index, keys) + (if index[k].Obj? then {k} else {})
  {
  }

  /** Visiting one more key adds it to the written datasets exactly when
      its value is an object whose item the repository accepts. */
  lemma {:induction false} WrittenStep(index: map<string, Json>, keys: set<string>, k: string,
                    marshal: Json -> Result<Bytes, GoError>,
                    toSql: InsertStatement -> Result<Sql, GoError>,
                    exec: Sql -> Option<GoError>)
    requires k in index && k !in keys
    ensures index[k].Obj? && SaveError(ItemFor(k, index[k].fields, marshal), toSql, exec).None? ==>
      Written(index, keys + {k}, marshal, toSql, exec) == Written(index, keys, marshal, toSql, exec) + {k}
      && |Written(index, keys + {k}, marshal, toSql, exec)| == |Written(index, keys, marshal, toSql, exec)| + 1
    ensures !(index[k].Obj? && SaveError(ItemFor(k, index[k].fields, marshal), toSql, exec).None?) ==>
      Written(index, keys + {k}, marshal, toSql, exec) == Written(index, keys, marshal, toSql, exec)
  {
  }

  /** The loop of FetchAndStoreOSDR over the dataset index: the map is
      walked in an unspecified order; each object-valued entry is upserted
      and a failed upsert is skipped.  Returns the count of accepted items
      and the keys whose item was handed to the repository. */
  method StoreDatasets(
    dataMap: map<string, Json>,
    marshal: Json -> Result<Bytes, GoError>,
    toSql: InsertStatement -> Result<Sql, GoError>,
    exec: Sql -> Option<GoError>)
    returns (written: nat, attempted: set<string>)
    ensures attempted == Datasets(dataMap, dataMap.Keys)
    ensures written == |Written(dataMap, dataMap.Keys, marshal, toSql, exec)|
  {
    written, attempted := 0, {};
    var remaining, visited := dataMap.Keys, {};
    while remaining != {}
      invariant visited <= dataMap.Keys && remaining == dataMap.Keys - visited
      invariant attempted == Datasets(dataMap, visited)
      invariant written == |Written(dataMap, visited, marshal, toSql, exec)|
      decreases remaining
    {
      var datasetKey :| datasetKey in remaining;
      var value := dataMap[datasetKey];
      DatasetsStep(dataMap, visited, datasetKey);
      WrittenStep(dataMap, visited, datasetKey, marshal, toSql, exec);
      remaining, visited := remaining - {datasetKey}, visited + {datasetKey};
      if value.Obj? {
        var entity := OsdrItem(0, Some(datasetKey), Some(datasetKey), None, None, ZeroTime, RawOf(value.fields, marshal));
        assert entity == ItemFor(datasetKey, value.fields, marshal);
        attempted := attempted + {datasetKey};
        var executed, saveErr := SaveOSDR(entity, toSql, exec);
        if saveErr.None? {
          written := written + 1;
        }
      }
    }
    assert visited == dataMap.Keys;
  }

  /** FetchAndStoreOSDR.  Besides the count and the error it returns the
      keys whose item was handed to the repository. */
  method FetchAndStoreOSDR(
    fetched: Result<Json, GoError>,
    marshal: Json -> Result<Bytes, GoError>,
    toSql: InsertStatement -> Result<Sql, GoError>,
    exec: Sql -> Option<GoError>)
    returns (written: nat, err: Option<ServiceError>, attempted: set<string>)
    ensures fetched.Err? ==>
      (written == 0 && attempted == {} && err == Some(ClassifyFetchError(fetched.error, 0)))
    ensures fetched.Ok? && !fetched.value.Obj? ==>
      (written == 0 && attempted == {}
       && err == Some(NewUpstreamGenericError(Failure("unexpected response format"))))
    ensures fetched.Ok? && fetched.value.Obj? ==>
      (err == None
       && attempted == Datasets(fetched.value.fields, fetched.value.fields.Keys)
       && written == |Written(fetched.value.fields, fetched.value.fields.Keys, marshal, toSql, exec)|)
  {
    if fetched.Err? {
      var errMsg := ToLower(ErrorText(fetched.error));
      if Contains(errMsg, "timeout") || Contains(errMsg, "deadline exceeded") {
        return 0, Some(NewUpstreamTimeoutError(fetched.error)), {};
      }
      return 0, Some(NewUpstreamGenericError(fetched.error)), {};
    }
    if !fetched.value.Obj? {
      return 0, Some(NewUpstreamGenericError(Failure("unexpected response format"))), {};
    }
    written, attempted := StoreDatasets(fetched.value.fields, marshal, toSql, exec);
    err := None;
  }

  /** Every item the use case builds carries a dataset identifier, so every
      save is an upsert keyed on dataset_id, never a plain insert. */
  lemma {:induction false} ItemsAreUpserted(key: string, details: map<string, Json>, marshal: Json -> Result<Bytes, GoError>)
    ensures SaveOsdrStatement(ItemFor(key, details, marshal)).suffix
         == Some(DatasetConflictPrefix + UpsertSetList(OsdrColumns.Descriptor))
  {
    SaveOsdrStatementShape(ItemFor(key, details, marshal));
  }

  /** The count never exceeds the number of datasets in the index, and
      equals it when the repository accepts every item. */
  lemma {:induction false} WrittenBounds(index: map<string, Json>,
                      marshal: Json -> Result<Bytes, GoError>,
                      toSql: InsertStatement -> Result<Sql, GoError>,
                      exec: Sql -> Option<GoError>)
    ensures |Written(index, index.Keys, marshal, toSql, exec)| <= |Datasets(index, index.Keys)|
    ensures (forall k :: k in index && index[k].Obj? ==>
               SaveError(ItemFor(k, index[k].fields, marshal), toSql, exec).None?) ==>
      |Written(index, index.Keys, marshal, toSql, exec)| == |Datasets(index, index.Keys)|
  {
    SubsetCardinality(Written(index, index.Keys, marshal, toSql, exec), Datasets(index, index.Keys));
    if forall k :: k in index && index[k].Obj? ==>
         SaveError(ItemFor(k, index[k].fields, marshal), toSql, exec).None? {
      assert Written(index, index.Keys, marshal, toSql, exec) == Datasets(index, index.Keys);
    }
  }

  lemma {:induction false} SubsetCardinality<T>(a: set<T>, b: set<T>)
    requires a <= b
    ensures |a| <= |b|
    decreases b
  {
    if a != {} {
      var x :| x in a;
      SubsetCardinality(a - {x}, b - {x});
    }
  }
}
