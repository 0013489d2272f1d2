/**
 * The records-presence checker: a whole-set validator that looks up each
 * required record type in a table of required type -> human label and
 * reports "<label> SMBIOS record is missing." for every required type that
 * no record of the set carries.
 */
module RecordsPresence {
  import opened Constants
  import opened Records

  /** The one required type whose label is fixed by observed behaviour: the baseboard, labelled "Motherboard". */
  const BaseboardRequirement: map<RecordType, string> := map[BaseboardRecord := "Motherboard"]

  /** Does some record of the set have type `t`? */
  predicate HasRecordOfType(records: seq<Record>, t: RecordType) {
    exists r :: r in records && r.recordType == t
  }

  function MissingMessage(name: string): (msg: string)
    ensures name <= msg
  {
    name + " SMBIOS record is missing."
  }

  /** The finding keys: one message per required type that is absent from the record set. */
  function MissingRecords(records: seq<Record>, required: map<RecordType, string>): (missing: set<string>)
    ensures forall t :: t in required && !HasRecordOfType(records, t) ==> required[t] + " SMBIOS record is missing." in missing
    ensures forall msg :: msg in missing ==>
              exists t :: t in required && !HasRecordOfType(records, t) && msg == required[t] + " SMBIOS record is missing."
  {
    set t | t in required && !HasRecordOfType(records, t) :: MissingMessage(required[t])
  }

  /** A record set with every required type present produces no finding, and only such a set. */
  lemma NoFindingIffComplete(records: seq<Record>, required: map<RecordType, string>)
    ensures MissingRecords(records, required) == {} <==>
              forall t :: t in required ==> HasRecordOfType(records, t)
  {
    if exists t :: t in required && !HasRecordOfType(records, t) {
      var t :| t in required && !HasRecordOfType(records, t);
      assert MissingMessage(required[t]) in MissingRecords(records, required);
    }
  }

  /**
   * When the baseboard is the only required type absent, the findings are
   * exactly "Motherboard SMBIOS record is missing.".
   */
  lemma OnlyBaseboardMissing(records: seq<Record>, required: map<RecordType, string>)
    requires BaseboardRecord in required && required[BaseboardRecord] == "Motherboard"
    requires !HasRecordOfType(records, BaseboardRecord)
    requires forall t :: t in required && t != BaseboardRecord ==> HasRecordOfType(records, t)
    ensures MissingRecords(records, required) == {"Motherboard SMBIOS record is missing."}
  {
    assert MissingMessage("Motherboard") in MissingRecords(records, required);
    assert MissingMessage("Motherboard") == "Motherboard SMBIOS record is missing.";
  }

  /** Under the baseboard requirement alone, the checker reports the motherboard exactly when no baseboard record exists. */
  lemma BaseboardRequirementFindings(records: seq<Record>)
    ensures MissingRecords(records, BaseboardRequirement) ==
              if HasRecordOfType(records, BaseboardRecord) then {} else {"Motherboard SMBIOS record is missing."}
  {
    if HasRecordOfType(records, BaseboardRecord) {
      NoFindingIffComplete(records, BaseboardRequirement);
    } else {
      OnlyBaseboardMissing(records, BaseboardRequirement);
    }
  }
}
