/**
 * The rule catalog: per-field checks on the BIOS (type 0), Baseboard
 * (type 2), Chassis (type 3) and Processor (type 4) records of the SMBIOS
 * Reference Specification (sections 7.1, 7.3, 7.4 and 7.5), with the
 * processor's cache handles required to point at Cache Information
 * records (type 7, section 7.8).
 *
 * The catalog is a function of the named regular expressions and value
 * lists it refers to, which are defined outside the table, and of the
 * rules' message texts: `SourceText` holds the texts the catalog spells out,
 * and `Catalog(k, SourceText)` is the catalog itself. The properties below
 * hold whatever the texts are.
 */
module Catalog {
  import opened Constants
  import opened Records
  import opened Matcher
  import opened Validator
  import opened Rules

  /** `sep.join(parts)`. */
  function Join(sep: string, parts: seq<string>): (joined: string)
    ensures parts == [] ==> joined == ""
    ensures parts != [] ==> parts[0] <= joined
    ensures |parts| > 1 ==> parts[0] + sep <= joined
  {
    if parts == [] then ""
    else if |parts| == 1 then parts[0]
    else parts[0] + sep + Join(sep, parts[1..])
  }

  /** A joined list ends with its last part. */
  lemma {:induction false} JoinEndsWithLast(sep: string, parts: seq<string>)
    requires parts != []
    ensures var joined, last := Join(sep, parts), parts[|parts| - 1];
      |last| <= |joined| && joined[|joined| - |last|..] == last
    decreases |parts|
  {
    if |parts| > 1 {
      JoinEndsWithLast(sep, parts[1..]);
      assert parts[1..][|parts| - 2] == parts[|parts| - 1];
      var rest := Join(sep, parts[1..]);
      var last := parts[|parts| - 1];
      assert Join(sep, parts) == parts[0] + sep + rest;
      assert (parts[0] + sep + rest)[|parts[0] + sep + rest| - |last|..] == rest[|rest| - |last|..];
    }
  }

  /** A catalog message: its fixed prefix ("ERROR: " or "ACTION: ") followed by its text. */
  function Prefixed(prefix: string, text: string): (msg: string)
    ensures prefix <= msg
  {
    prefix + text
  }

  /** A rule that selects the records of one type, with its (error, action) texts. */
  function TypeRule(t: RecordType, checkers: seq<FieldChecker>, text: (string, string)): Rule {
    Rule(Matcher([RecordTypeMatcher(t)]), IndividualValidator(checkers), Prefixed("ERROR: ", text.0), Prefixed("ACTION: ", text.1))
  }

  /** The one regular expression the catalog spells out itself. */
  const RomSizeRegexp: string := "\\d+ [kmgKMG]B"

  /** The whole catalog, in declaration order. */
  function Catalog(k: FieldConstants, texts: RuleTexts): (rules: seq<Rule>)
    ensures |rules| == 23
  {
    BiosRules(k, texts) + BaseboardRules(k, texts) + ChassisRules(k, texts) + ProcessorRules(k, texts)
  }

  /** Rules for Type 0 (BIOS Information) records. */
  function BiosRules(k: FieldConstants, texts: RuleTexts): (rules: seq<Rule>)
    ensures |rules| == 4
  {
    [
      TypeRule(BiosRecord,
        [FieldPresentChecker(VendorField)],
        texts(BiosVendor)),
      TypeRule(BiosRecord,
        [FieldPresentChecker(VersionField)],
        texts(BiosVersion)),
      TypeRule(BiosRecord,
        [FieldPresentChecker(ReleaseDateField), FieldValueRegexpChecker(ReleaseDateField, k.dateRegexp)],
        texts(BiosReleaseDate)),
      TypeRule(BiosRecord,
        [FieldPresentChecker(RomSizeField), FieldValueRegexpChecker(RomSizeField, RomSizeRegexp)],
        texts(BiosRomSize))
    ]
  }

  /** Rules for Type 2 (Board Information) records. */
  function BaseboardRules(k: FieldConstants, texts: RuleTexts): (rules: seq<Rule>)
    ensures |rules| == 6
  {
    [
      TypeRule(BaseboardRecord,
        [FieldPresentChecker(ManufacturerField)],
        texts(BoardManufacturer)),
      TypeRule(BaseboardRecord,
        [FieldPresentChecker(ProductNameField)],
        texts(BoardProductName)),
      TypeRule(BaseboardRecord,
        [FieldPresentChecker(FeaturesField)],
        texts(BoardFeatures)),
      TypeRule(BaseboardRecord,
        [FieldPresentChecker(LocationInChassisField), FieldValueRegexpChecker(LocationInChassisField, k.devpathRegexp)],
        texts(BoardLocationInChassis)),
      TypeRule(BaseboardRecord,
        [FieldPresentChecker(ChassisHandleField)],
        texts(BoardChassisHandle)),
      TypeRule(BaseboardRecord,
        [FieldPresentChecker(ContainedObjectHandlesField), FieldItemCountChecker(ContainedObjectHandlesField)],
        texts(BoardContainedObjectHandles))
    ]
  }

  /** Rules for Type 3 (Chassis) records. */
  function ChassisRules(k: FieldConstants, texts: RuleTexts): (rules: seq<Rule>)
    ensures |rules| == 4
  {
    [
      TypeRule(ChassisRecord,
        [FieldPresentChecker(ManufacturerField)],
        texts(ChassisManufacturer)),
      TypeRule(ChassisRecord,
        [FieldPresentChecker(TypeField)],
        texts(ChassisType)),
      TypeRule(ChassisRecord,
        [FieldPresentChecker(LockField), FieldValueEnumChecker(LockField, k.chassisLock)],
        (texts(ChassisLock).0, texts(ChassisLock).1 + Join(", ", k.chassisLock))),
      TypeRule(ChassisRecord,
        [FieldPresentChecker(ContainedElementsField), FieldValueRegexpChecker(ContainedElementsField, k.numberRegexp)],
        texts(ChassisContainedElements))
    ]
  }

  /** Rules for Type 4 (Processor Information) records. */
  function ProcessorRules(k: FieldConstants, texts: RuleTexts): (rules: seq<Rule>)
    ensures |rules| == 9
  {
    [
      TypeRule(ProcessorRecord,
        [FieldPresentChecker(SocketDesignationField)],
        texts(ProcessorSocketDesignation)),
      TypeRule(ProcessorRecord,
        [FieldPresentChecker(TypeField), FieldValueEnumChecker(TypeField, k.processorType)],
        (texts(ProcessorType).0, texts(ProcessorType).1 + Join(", ", k.processorType))),
      TypeRule(ProcessorRecord,
        [FieldPresentChecker(StatusField), FieldValueEnumChecker(StatusField, k.processorStatus)],
        (texts(ProcessorStatus).0, texts(ProcessorStatus).1 + Join(", ", k.processorStatus))),
      TypeRule(ProcessorRecord,
        [FieldPresentChecker(L1CacheHandleField), HandleFieldChecker(L1CacheHandleField, CacheRecord)],
        texts(ProcessorL1CacheHandle)),
      TypeRule(ProcessorRecord,
        [FieldPresentChecker(L2CacheHandleField), HandleFieldChecker(L2CacheHandleField, CacheRecord)],
        texts(ProcessorL2CacheHandle)),
      TypeRule(ProcessorRecord,
        [FieldPresentChecker(L3CacheHandleField), HandleFieldChecker(L3CacheHandleField, CacheRecord)],
        texts(ProcessorL3CacheHandle)),
      TypeRule(ProcessorRecord,
        [FieldPresentChecker(CoreCountField), FieldValueRegexpChecker(CoreCountField, k.numberRegexp)],
        texts(ProcessorCoreCount)),
      TypeRule(ProcessorRecord,
        [FieldPresentChecker(CoreEnabledField), FieldValueRegexpChecker(CoreEnabledField, k.numberRegexp)],
        texts(ProcessorCoreEnabled)),
      TypeRule(ProcessorRecord,
        [FieldPresentChecker(ThreadCountField), FieldValueRegexpChecker(ThreadCountField, k.numberRegexp)],
        texts(ProcessorThreadCount))
    ]
  }

  // The record field names the rules check.

  const VendorField := "Vendor"
  const VersionField := "Version"
  const ReleaseDateField := "Release Date"
  const RomSizeField := "ROM Size"
  const ManufacturerField := "Manufacturer"
  const ProductNameField := "Product Name"
  const FeaturesField := "Features"
  const LocationInChassisField := "Location In Chassis"
  const ChassisHandleField := "Chassis Handle"
  const ContainedObjectHandlesField := "Contained Object Handles"
  const TypeField := "Type"
  const LockField := "Lock"
  const ContainedElementsField := "Contained Elements"
  const SocketDesignationField := "Socket Designation"
  const StatusField := "Status"
  const L1CacheHandleField := "L1 Cache Handle"
  const L2CacheHandleField := "L2 Cache Handle"
  const L3CacheHandleField := "L3 Cache Handle"
  const CoreCountField := "Core Count"
  const CoreEnabledField := "Core Enabled"
  const ThreadCountField := "Thread Count"

  /** The rules of the catalog, one name per rule, in catalog order. */
  datatype RuleId =
    BiosVendor | BiosVersion | BiosReleaseDate | BiosRomSize
    | BoardManufacturer | BoardProductName | BoardFeatures | BoardLocationInChassis
    | BoardChassisHandle | BoardContainedObjectHandles | ChassisManufacturer | ChassisType
    | ChassisLock | ChassisContainedElements | ProcessorSocketDesignation | ProcessorType
    | ProcessorStatus | ProcessorL1CacheHandle | ProcessorL2CacheHandle | ProcessorL3CacheHandle
    | ProcessorCoreCount | ProcessorCoreEnabled | ProcessorThreadCount

  /** The (error, action) texts of a rule, before their "ERROR: " and "ACTION: " prefixes. */
  type RuleTexts = RuleId -> (string, string)

  /** The texts the catalog spells out for its rules. */
  function SourceText(id: RuleId): (string, string) {
    match id
    case BiosVendor => ("Invalid Vendor field in Type 0 (BIOS Information) record.",
        "Please populate Vendor field with valid string.")
    case BiosVersion => ("Invalid Version field in Type 0 (BIOS Information) record.",
        "BIOS Version can be any string as long as it follows properly documented procedure.\n"
        + "If none available please follow the XX.YY.RR format.")
    case BiosReleaseDate => ("Invalid Release Date field in Type 0 (BIOS Information) record.",
        "Please populate BIOS Release Date field with correct date (format is MM/DD/YYYY).")
    case BiosRomSize => ("Invalid ROM Size field in Type 0 (BIOS Information) record.",
        "Please populate BIOS ROM Size field with valid size.\n"
        + "*BIOS ROM Size indicates the BIOS size not the flash part size.*")
    case BoardManufacturer => ("Invalid Manufacturer field in Type 2 (Board Information) record.",
        "Please populate Manufacturer field with valid string.")
    case BoardProductName => ("Invalid Product field in Type 2 (Board Information) record.",
        "Please populate Product field with valid string.")
    case BoardFeatures => ("Invalid Features field in Type 2 (Board information) record.",
        "Please populate Features field with valid feature flags.\n"
        + "Bit0 - 1 for Motherboard, 0 for daughter boards; Bit3 - 1 for replaceable board.")
    case BoardLocationInChassis => ("Invalid Location In Chassis field in Type 2 (Board Information) record.",
        "Please populate Location In Chassis field with valid devpath.\n"
        + "This field provides the devpath for the daughter board.")
    case BoardChassisHandle => ("Invalid Chassis Handle in Type 2 (Board Information) record.",
        "Please populate Chassis Handle field.")
    case BoardContainedObjectHandles => ("Invalid Contained Object Handles field in Type 2 (Board Information) record.",
        "Please populate Contained Object Handles field with valid handles.\n")
    case ChassisManufacturer => ("Invalid Manufacturer field in Type 3 (Chassis) record.",
        "Please populate Manufacturer field with valid string.")
    case ChassisType => ("Invalid Type field in Type 3 (Chassis) record.",
        "Please populate Type field with valid string.")
    case ChassisLock => ("Invalid Lock field in Type 3 (Chassis) record.",
        "Please populate Lock field with valid string.\nValid Lock Status: ")
    case ChassisContainedElements => ("Invalid Contained Elements field in Type 3 (Chassis) record.",
        "Please populate Contained Elements field with valid number.")
    case ProcessorSocketDesignation => ("Invalid Socket Designation field in Type 4 (Processor Information) record.",
        "Please populate Socket Designation field with valid string.\n")
    case ProcessorType => ("Invalid Type field in Type 4 (Processor Information) record.",
        "Please populate Type field with valid string.\nValid Processor Type(s): ")
    case ProcessorStatus => ("Invalid Status field in Type 4 (Processor Information) record.",
        "Please populate Status field with valid string.\nValid Status: ")
    case ProcessorL1CacheHandle => ("Invalid L1 Cache Handle field in Type 4 (Processor Information) record.",
        "Please populate L1 Cache Handle field with valid handle")
    case ProcessorL2CacheHandle => ("Invalid L2 Cache Handle field in Type 4 (Processor Information) record.",
        "Please populate L2 Cache Handle field with valid handle")
    case ProcessorL3CacheHandle => ("Invalid L3 Cache Handle field in Type 4 (Processor Information) record.",
        "Please populate L3 Cache Handle field with valid handle")
    case ProcessorCoreCount => ("Invalid Core Count field in Type 4 (Processor Information) record.",
        "Please populate Core Count field with valid number.\n")
    case ProcessorCoreEnabled => ("Invalid Core Enabled field in Type 4 (Processor Information) record.",
        "Please populate Core Enabled field with valid number.\n")
    case ProcessorThreadCount => ("Invalid Thread Count field in Type 4 (Processor Information) record.",
        "Please populate Thread Count field with valid number.\n")
  }

  /**
   * The structural conventions every catalog rule follows: one type matcher
   * for a BIOS, Baseboard, Chassis or Processor record; each value check
   * preceded by a presence check on its field; handle checks aimed at Cache
   * Information records; and the "ERROR: " / "ACTION: " message prefixes.
   */
  predicate WellFormed(rule: Rule) {
    && |rule.matcher.matchers| == 1
    && rule.matcher.matchers[0].recordType in {BiosRecord, BaseboardRecord, ChassisRecord, ProcessorRecord}
    && PresenceGuarded(rule.validator.checkers)
    && (forall c :: c in rule.validator.checkers && c.HandleFieldChecker? ==> c.expected == CacheRecord)
    && "ERROR: " <= rule.errMsg
    && "ACTION: " <= rule.actionMsg
  }

  /** A presence check followed by one value check on the same field is guarded. */
  lemma PresenceThenValueGuarded(c: FieldChecker)
    requires !c.FieldPresentChecker?
    ensures PresenceGuarded([FieldPresentChecker(c.field), c])
  {
    var cs := [FieldPresentChecker(c.field), c];
    assert cs[0] == FieldPresentChecker(cs[1].field);
  }

  lemma BiosRulesWellFormed(k: FieldConstants, texts: RuleTexts)
    ensures forall rule :: rule in BiosRules(k, texts) ==> WellFormed(rule)
  {
    PresenceThenValueGuarded(FieldValueRegexpChecker(ReleaseDateField, k.dateRegexp));
    PresenceThenValueGuarded(FieldValueRegexpChecker(RomSizeField, RomSizeRegexp));
  }

  lemma BaseboardRulesWellFormed(k: FieldConstants, texts: RuleTexts)
    ensures forall rule :: rule in BaseboardRules(k, texts) ==> WellFormed(rule)
  {
    PresenceThenValueGuarded(FieldValueRegexpChecker(LocationInChassisField, k.devpathRegexp));
    PresenceThenValueGuarded(FieldItemCountChecker(ContainedObjectHandlesField));
  }

  lemma ChassisRulesWellFormed(k: FieldConstants, texts: RuleTexts)
    ensures forall rule :: rule in ChassisRules(k, texts) ==> WellFormed(rule)
  {
    PresenceThenValueGuarded(FieldValueEnumChecker(LockField, k.chassisLock));
    PresenceThenValueGuarded(FieldValueRegexpChecker(ContainedElementsField, k.numberRegexp));
  }

  lemma ProcessorRulesWellFormed(k: FieldConstants, texts: RuleTexts)
    ensures forall rule :: rule in ProcessorRules(k, texts) ==> WellFormed(rule)
  {
    PresenceThenValueGuarded(FieldValueEnumChecker(TypeField, k.processorType));
    PresenceThenValueGuarded(FieldValueEnumChecker(StatusField, k.processorStatus));
    PresenceThenValueGuarded(HandleFieldChecker(L1CacheHandleField, CacheRecord));
    PresenceThenValueGuarded(HandleFieldChecker(L2CacheHandleField, CacheRecord));
    PresenceThenValueGuarded(HandleFieldChecker(L3CacheHandleField, CacheRecord));
    PresenceThenValueGuarded(FieldValueRegexpChecker(CoreCountField, k.numberRegexp));
    PresenceThenValueGuarded(FieldValueRegexpChecker(CoreEnabledField, k.numberRegexp));
    PresenceThenValueGuarded(FieldValueRegexpChecker(ThreadCountField, k.numberRegexp));
  }

  /** Every Bios rule selects exactly the BIOS Information records. */
  lemma BiosRulesMatchType(k: FieldConstants, texts: RuleTexts)
    ensures forall rule :: rule in BiosRules(k, texts) ==> rule.matcher.matchers == [RecordTypeMatcher(BiosRecord)]
  {
  }

  /** Every Baseboard rule selects exactly the Baseboard Information records. */
  lemma BaseboardRulesMatchType(k: FieldConstants, texts: RuleTexts)
    ensures forall rule :: rule in BaseboardRules(k, texts) ==> rule.matcher.matchers == [RecordTypeMatcher(BaseboardRecord)]
  {
  }

  /** Every Chassis rule selects exactly the System Enclosure or Chassis records. */
  lemma ChassisRulesMatchType(k: FieldConstants, texts: RuleTexts)
    ensures forall rule :: rule in ChassisRules(k, texts) ==> rule.matcher.matchers == [RecordTypeMatcher(ChassisRecord)]
  {
  }

  /** Every Processor rule selects exactly the Processor Information records. */
  lemma ProcessorRulesMatchType(k: FieldConstants, texts: RuleTexts)
    ensures forall rule :: rule in ProcessorRules(k, texts) ==> rule.matcher.matchers == [RecordTypeMatcher(ProcessorRecord)]
  {
  }

  /** Every rule of the catalog follows the conventions of `WellFormed`. */
  lemma CatalogWellFormed(k: FieldConstants, texts: RuleTexts)
    ensures forall rule :: rule in Catalog(k, texts) ==> WellFormed(rule)
  {
    BiosRulesWellFormed(k, texts);
    BaseboardRulesWellFormed(k, texts);
    ChassisRulesWellFormed(k, texts);
    ProcessorRulesWellFormed(k, texts);
  }

  /** No catalog rule ever meets an absent field, on any record. */
  lemma CatalogIsDefined(k: FieldConstants, texts: RuleTexts, r: Record, ctx: Context)
    ensures forall rule :: rule in Catalog(k, texts) ==> Evaluate(rule, r, ctx) != Undefined
  {
    CatalogWellFormed(k, texts);
    forall rule | rule in Catalog(k, texts) ensures Evaluate(rule, r, ctx) != Undefined {
      GuardedRuleIsDefined(rule, r, ctx);
    }
  }

  /**
   * A catalog rule applies to the records of its one type and to no other
   * record, so a record is reported only by the rules for its own type.
   */
  lemma CatalogRuleSelectsOneType(k: FieldConstants, texts: RuleTexts, rule: Rule, r: Record, ctx: Context)
    requires rule in Catalog(k, texts)
    ensures IsMatchedRecord(rule.matcher, r) <==> r.recordType == rule.matcher.matchers[0].recordType
    ensures r.recordType !in {BiosRecord, BaseboardRecord, ChassisRecord, ProcessorRecord} ==>
              Evaluate(rule, r, ctx) == Silent
  {
    CatalogWellFormed(k, texts);
  }

  /** Does some catalog rule select the records of type `t`? */
  predicate HasRulesFor(k: FieldConstants, texts: RuleTexts, t: RecordType) {
    exists rule :: rule in Catalog(k, texts) && rule.matcher.matchers == [RecordTypeMatcher(t)]
  }

  /** The catalog has rules for exactly four record types: BIOS, Baseboard, Chassis and Processor. */
  lemma CatalogCoversFourTypes(k: FieldConstants, texts: RuleTexts)
    ensures forall t :: HasRulesFor(k, texts, t) <==> t == BiosRecord || t == BaseboardRecord || t == ChassisRecord || t == ProcessorRecord
  {
    CatalogWellFormed(k, texts);
    assert BiosRules(k, texts)[0] in Catalog(k, texts);
    assert BaseboardRules(k, texts)[0] in Catalog(k, texts);
    assert ChassisRules(k, texts)[0] in Catalog(k, texts);
    assert ProcessorRules(k, texts)[0] in Catalog(k, texts);
  }
}
