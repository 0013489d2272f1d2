/**
 * Record selection: a type matcher, and a matcher that is the conjunction
 * of its sub-matchers. Matching is total: a record of any type code,
 * including codes no rule mentions, is simply matched or not.
 */
module Matcher {
  import opened Constants
  import opened Records

  datatype RecordTypeMatcher = RecordTypeMatcher(recordType: RecordType) {
    predicate IsMatchedRecord(r: Record) {
      r.recordType == recordType
    }
  }

  datatype Matcher = Matcher(matchers: seq<RecordTypeMatcher>)

  /** Conjunction of the sub-matchers, evaluated left to right. */
  function AllMatch(ms: seq<RecordTypeMatcher>, r: Record): (matched: bool)
    ensures matched <==> forall i :: 0 <= i < |ms| ==> ms[i].recordType == r.recordType
  {
    if ms == [] then true else ms[0].IsMatchedRecord(r) && AllMatch(ms[1..], r)
  }

  function IsMatchedRecord(m: Matcher, r: Record): bool {
    AllMatch(m.matchers, r)
  }

  /** A matcher with no sub-matchers selects every record. */
  lemma EmptyMatcherMatchesAll(r: Record)
    ensures IsMatchedRecord(Matcher([]), r)
  {
  }

  /** `Matcher([RecordTypeMatcher(t)])` matches exactly the records of type `t`. */
  lemma TypeMatcherIff(t: RecordType, r: Record)
    ensures IsMatchedRecord(Matcher([RecordTypeMatcher(t)]), r) <==> r.recordType == t
  {
  }

  /** The records a matcher selects, in the record set's iteration order. */
  function MatchedRecords(m: Matcher, records: seq<Record>): (selected: seq<Record>)
    ensures forall r :: r in selected <==> r in records && IsMatchedRecord(m, r)
    ensures |selected| <= |records|
  {
    if records == [] then []
    else
      var head := if IsMatchedRecord(m, records[0]) then [records[0]] else [];
      head + MatchedRecords(m, records[1..])
  }

  /** Selection keeps iteration order: it distributes over concatenation. */
  lemma {:induction false} MatchedRecordsAppend(m: Matcher, a: seq<Record>, b: seq<Record>)
    ensures MatchedRecords(m, a + b) == MatchedRecords(m, a) + MatchedRecords(m, b)
  {
    if a != [] {
      assert (a + b)[1..] == a[1..] + b;
      MatchedRecordsAppend(m, a[1..], b);
    } else {
      assert a + b == b;
    }
  }

  /** Type matchers for distinct types select disjoint parts of the record set. */
  lemma {:induction false} DistinctTypesSelectDisjoint(t1: RecordType, t2: RecordType, records: seq<Record>)
    requires t1 != t2
    ensures |MatchedRecords(Matcher([RecordTypeMatcher(t1)]), records)|
          + |MatchedRecords(Matcher([RecordTypeMatcher(t2)]), records)| <= |records|
  {
    if records != [] {
      DistinctTypesSelectDisjoint(t1, t2, records[1..]);
    }
  }
}
