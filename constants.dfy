/**
 * Record type codes and the named field constants the rule catalog refers to.
 *
 * Record types are the DMI type codes of the SMBIOS Reference Specification
 * (DSP0134): BIOS Information is type 0 (section 7.1), Baseboard type 2
 * (7.3), System Enclosure or Chassis type 3 (7.4), Processor Information
 * type 4 (7.5), Cache Information type 7 (7.8) and Group Associations
 * type 14 (7.15). Any other code is a record type the catalog has no rule for.
 */
module Constants {

  type RecordType = nat

  const BiosRecord: RecordType := 0
  const BaseboardRecord: RecordType := 2
  const ChassisRecord: RecordType := 3
  const ProcessorRecord: RecordType := 4
  const CacheRecord: RecordType := 7
  const GroupAssociationsRecord: RecordType := 14

  /**
   * The regular expressions and enumerations the catalog names but whose
   * text lives outside the rule table: DATE_REGEXP, DEVPATH_REGEXP,
   * NUMBER_REGEXP, and the CHASSIS_LOCK, PROCESSOR_TYPE and PROCESSOR_STATUS
   * value lists (in their declared order, as `', '.join` prints them).
   */
  datatype FieldConstants = FieldConstants(
    dateRegexp: string,
    devpathRegexp: string,
    numberRegexp: string,
    chassisLock: seq<string>,
    processorType: seq<string>,
    processorStatus: seq<string>)
}
