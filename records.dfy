/**
 * The parsed record set the engine validates: records identified by a
 * handle, carrying a type code and a map from field name to field.
 */
module Records {
  import opened Constants

  datatype Option<T> = None | Some(value: T)

  /** One parsed field: the text after its colon and the item lines listed beneath it. */
  datatype Field = Field(value: string, items: seq<string>)

  datatype Record = Record(handle: string, recordType: RecordType, fields: map<string, Field>)

  /** The parser yields one record per handle, in a fixed iteration order. */
  predicate UniqueHandles(records: seq<Record>) {
    forall i, j :: 0 <= i < j < |records| ==> records[i].handle != records[j].handle
  }

  /** Resolves a handle reference against the record set. */
  function Lookup(records: seq<Record>, handle: string): (found: Option<Record>)
    ensures found.Some? ==> found.value in records && found.value.handle == handle
    ensures found.None? <==> forall r :: r in records ==> r.handle != handle
  {
    if records == [] then None
    else if records[0].handle == handle then Some(records[0])
    else Lookup(records[1..], handle)
  }

  /** With unique handles, resolving a record's own handle yields that record. */
  lemma {:induction false} LookupOwnHandle(records: seq<Record>, r: Record)
    requires UniqueHandles(records)
    requires r in records
    ensures Lookup(records, r.handle) == Some(r)
  {
    if records[0] != r {
      assert records[0].handle != r.handle by {
        var k :| 0 <= k < |records| && records[k] == r;
        assert k != 0;
      }
      assert r in records[1..];
      assert UniqueHandles(records[1..]) by {
        forall i, j | 0 <= i < j < |records[1..]|
          ensures records[1..][i].handle != records[1..][j].handle
        {
          assert records[1..][i] == records[i + 1] && records[1..][j] == records[j + 1];
        }
      }
      LookupOwnHandle(records[1..], r);
    }
  }
}
