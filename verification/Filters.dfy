/** Retrieval filters, and what the vector database makes of the conditions built from them. */
module Filters {
  import opened Documents
  import opened Wrappers

  datatype RetrievalFilter = RetrievalFilter(
    workspaceId: string, documentIds: Option<seq<string>>, securityLevels: Option<seq<string>>)

  datatype PayloadKey = WorkspaceId | DocumentId | SecurityLevel

  datatype Condition =
    | FieldMatch(field: PayloadKey, value: string)
    | Nested(filter: QdrantFilter)

  datatype QdrantFilter = QdrantFilter(must: seq<Condition>, should: seq<Condition>)

  function AnyOf(field: PayloadKey, values: seq<string>): seq<Condition> {
    if values == [] then [] else [FieldMatch(field, values[0])] + AnyOf(field, values[1..])
  }

  /** The filter handed to the database; an absent or empty list adds no condition. */
  function BuildQdrantFilter(f: RetrievalFilter): QdrantFilter {
    var should := if f.documentIds.Some? then AnyOf(DocumentId, f.documentIds.value) else [];
    var must := [FieldMatch(WorkspaceId, f.workspaceId)]
      + if f.securityLevels.Some? && f.securityLevels.value != []
        then [Nested(QdrantFilter([], AnyOf(SecurityLevel, f.securityLevels.value)))] else [];
    QdrantFilter(must, should)
  }

  function Get(p: Point, field: PayloadKey): string {
    match field
    case WorkspaceId => p.workspaceId
    case DocumentId => p.documentId
    case SecurityLevel => p.securityLevel
  }

  predicate Holds(c: Condition, p: Point) {
    match c
    case FieldMatch(field, value) => Get(p, field) == value
    case Nested(filter) => Matches(filter, p)
  }

  /** Every `must` condition holds, and one of the `should` conditions if there are any. */
  predicate Matches(f: QdrantFilter, p: Point) {
    && (forall c :: c in f.must ==> Holds(c, p))
    && (f.should != [] ==> exists c :: c in f.should && Holds(c, p))
  }

  /** What a caller means by a filter. */
  predicate Selects(f: RetrievalFilter, p: Point) {
    && p.workspaceId == f.workspaceId
    && (f.documentIds.Some? && f.documentIds.value != [] ==> p.documentId in f.documentIds.value)
    && (f.securityLevels.Some? && f.securityLevels.value != [] ==> p.securityLevel in f.securityLevels.value)
  }

  lemma {:induction false} AnyOfMeaning(field: PayloadKey, values: seq<string>, p: Point)
    ensures (exists c :: c in AnyOf(field, values) && Holds(c, p)) <==> Get(p, field) in values
    ensures AnyOf(field, values) == [] <==> values == []
  {
    if values != [] {
      var first := FieldMatch(field, values[0]);
      AnyOfMeaning(field, values[1..], p);
      assert first in AnyOf(field, values);
      assert forall c :: c in AnyOf(field, values) <==> c == first || c in AnyOf(field, values[1..]);
      assert forall v :: v in values <==> v == values[0] || v in values[1..];
    }
  }

  /** The built conditions select what the caller means, no more and no less. */
  lemma FilterMeaning(f: RetrievalFilter, p: Point)
    ensures Matches(BuildQdrantFilter(f), p) <==> Selects(f, p)
  {
    var built := BuildQdrantFilter(f);
    var workspace := FieldMatch(WorkspaceId, f.workspaceId);
    assert workspace in built.must;
    if f.documentIds.Some? {
      AnyOfMeaning(DocumentId, f.documentIds.value, p);
    }
    if f.securityLevels.Some? && f.securityLevels.value != [] {
      AnyOfMeaning(SecurityLevel, f.securityLevels.value, p);
      var levels := Nested(QdrantFilter([], AnyOf(SecurityLevel, f.securityLevels.value)));
      assert levels in built.must;
      assert Holds(levels, p) <==> p.securityLevel in f.securityLevels.value;
      assert forall c :: c in built.must <==> c == workspace || c == levels;
    } else {
      assert forall c :: c in built.must <==> c == workspace;
    }
  }
}
