/** The in-memory metadata store: a list of records that stands for a map keyed by workspace and document. */
module MetadataStore {
  import opened Documents
  import opened Wrappers

  ghost function AsMap(records: seq<Record>): map<DocKey, Record> {
    if records == [] then map[] else AsMap(records[1..])[records[0].Key() := records[0]]
  }

  /** No key occurs twice. */
  ghost predicate OneRecordPerKey(records: seq<Record>) {
    records == [] || (records[0].Key() !in AsMap(records[1..]) && OneRecordPerKey(records[1..]))
  }

  /** `[record for record in records if not (its key is key)]`. */
  function Without(records: seq<Record>, key: DocKey): seq<Record> {
    if records == [] then []
    else (if records[0].Key() == key then [] else [records[0]]) + Without(records[1..], key)
  }

  /** `next((record for record in records if its key is key), None)`. */
  function First(records: seq<Record>, key: DocKey): Option<Record> {
    if records == [] then None
    else if records[0].Key() == key then Some(records[0])
    else First(records[1..], key)
  }

  function Lookup(m: map<DocKey, Record>, key: DocKey): Option<Record> {
    if key in m then Some(m[key]) else None
  }

  /** The list finds a key's record exactly when the map holds it. */
  lemma {:induction false} FirstIsLookup(records: seq<Record>, key: DocKey)
    ensures First(records, key) == Lookup(AsMap(records), key)
    ensures First(records, key).Some? ==> First(records, key).value.Key() == key
  {
    if records != [] {
      FirstIsLookup(records[1..], key);
    }
  }

  lemma {:induction false} WithoutFacts(records: seq<Record>, key: DocKey)
    requires OneRecordPerKey(records)
    ensures AsMap(Without(records, key)) == AsMap(records) - {key}
    ensures OneRecordPerKey(Without(records, key))
  {
    if records != [] {
      var first, rest := records[0], Without(records[1..], key);
      WithoutFacts(records[1..], key);
      if first.Key() == key {
        assert [] + rest == rest;
        RemoveStored(AsMap(records[1..]), key, first);
      } else {
        assert ([first] + rest)[1..] == rest;
        StoreBeside(AsMap(records[1..]), key, first.Key(), first);
      }
    }
  }

  lemma RemoveStored(m: map<DocKey, Record>, key: DocKey, record: Record)
    ensures m[key := record] - {key} == m - {key}
  {
  }

  lemma StoreBeside(m: map<DocKey, Record>, key: DocKey, other: DocKey, record: Record)
    requires other != key
    ensures (m - {key})[other := record] == m[other := record] - {key}
  {
  }

  lemma {:induction false} AppendFacts(records: seq<Record>, record: Record)
    requires OneRecordPerKey(records) && record.Key() !in AsMap(records)
    ensures OneRecordPerKey(records + [record])
    ensures AsMap(records + [record]) == AsMap(records)[record.Key() := record]
  {
    if records != [] {
      AppendFacts(records[1..], record);
      assert (records + [record])[1..] == records[1..] + [record];
    }
  }

  class InMemoryDocumentMetadataStore {
    var records: seq<Record>

    ghost predicate Valid()
      reads this
    {
      OneRecordPerKey(records)
    }

    /** What the store stands for. */
    ghost function View(): map<DocKey, Record>
      reads this
    {
      AsMap(records)
    }

    constructor ()
      ensures Valid() && View() == map[]
    {
      records := [];
    }

    method RecordDocument(record: Record)
      requires Valid()
      modifies this
      ensures Valid() && View() == old(View())[record.Key() := record]
    {
      WithoutFacts(records, record.Key());
      AppendFacts(Without(records, record.Key()), record);
      records := Without(records, record.Key());
      records := records + [record];
    }

    method GetDocument(workspaceId: string, documentId: string) returns (record: Option<Record>)
      ensures record == Lookup(View(), DocKey(workspaceId, documentId))
      ensures record.Some? ==> record.value.Key() == DocKey(workspaceId, documentId)
    {
      FirstIsLookup(records, DocKey(workspaceId, documentId));
      record := First(records, DocKey(workspaceId, documentId));
    }

    method DeleteDocument(workspaceId: string, documentId: string) returns (deleted: Option<Record>)
      requires Valid()
      modifies this
      ensures Valid() && View() == old(View()) - {DocKey(workspaceId, documentId)}
      ensures deleted == Lookup(old(View()), DocKey(workspaceId, documentId))
    {
      var key := DocKey(workspaceId, documentId);
      FirstIsLookup(records, key);
      WithoutFacts(records, key);
      deleted := First(records, key);
      if deleted.None? {
        assert View() - {key} == View();
        return;
      }
      records := Without(records, key);
    }
  }
}
