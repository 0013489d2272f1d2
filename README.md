# SMBIOS compliance rules, modelled in Dafny

This project models the rule engine of the SMBIOS validation tool. The tool
reads the SMBIOS records of a machine, checks each record against a catalog
of per-field compliance rules, and checks the whole record set for missing
record types and for an inconsistent memory-controller topology.

- **Records** (`records.dfy`): a parsed record set is a sequence of records,
  each with a handle, a DMI type code and a map from field name to field
  (value text and item lines). Handles are unique, and a handle reference
  resolves to the record carrying it.
- **Matchers** (`matcher.dfy`): a `RecordTypeMatcher` accepts the records
  of one type. A `Matcher` is the conjunction of its sub-matchers, and
  matching is total.
- **Validators** (`validator.dfy`):
  - The five field checkers are presence, regular expression, enumeration,
    item count and handle-to-type.
  - The individual validator is their left-to-right conjunction.
  - A value checker that meets an absent field has no verdict, as a
    dictionary lookup on a missing key has none. A presence check placed
    before it makes that case unreachable.
- **Rules and the catalog** (`rules.dfy`, `catalog.dfy`):
  - A rule binds a matcher and a validator to an error message and an
    action message. It reports that pair exactly when it selects a record
    that fails.
  - The catalog holds 23 rules for the BIOS (type 0), Baseboard (type 2),
    Chassis (type 3) and Processor (type 4) records of the SMBIOS Reference
    Specification (DSP0134, sections 7.1, 7.3, 7.4 and 7.5). The processor
    cache handles must point at Cache Information records (type 7, section
    7.8).
  - `Catalog(k, texts)` takes two parameters. `k` holds the named regular
    expressions and value lists, and `texts` holds the rules' message texts.
    `SourceText` holds the texts the tool spells out.
- **Error bucket** (`error_bucket.dfy`): an insertion-ordered multimap from
  key to the list of (error, action) pairs added under it. It is a class
  whose `AddError` appends in place.
- **Rule application** (`orchestrator.dfy`): every rule is applied to every
  record. Each report goes into the bucket under the record's handle.
- **Whole-set checkers**:
  - `presence_checker.dfy` reports every required record type that no
    record carries.
  - `memory_groups.dfy` checks the Group Associations records (type 14,
    section 7.15) that say which memory controllers ("IMC" groups) belong
    to which dies ("die" groups). It runs four independent checks and pools
    their findings:
    - membership: every controller is listed by some die;
    - die non-emptiness: every die lists some controller;
    - homogeneity: every controller item is a Group Associations handle;
    - first-owner-wins single ownership: a loop over the dies keeps a
      controller-to-owner map.

## Model

| member | source | states |
|---|---|---|
| Records.Lookup | smbios_validation_tool/rules.py:215-238 | a handle reference resolves to a record of the set carrying that handle; it fails exactly when no record carries it |
| Records.LookupOwnHandle | smbios_validation_tool/rules.py:215-238 | with unique handles, a record's own handle resolves to that record |
| Matcher.AllMatch | smbios_validation_tool/rules.py:27-29 | a record is matched iff every sub-matcher's type equals the record's type |
| Matcher.EmptyMatcherMatchesAll | smbios_validation_tool/rules.py:27-29 | a matcher with no sub-matchers matches every record |
| Matcher.TypeMatcherIff | smbios_validation_tool/matcher_test.py:38-56 | `Matcher([RecordTypeMatcher(t)])` matches r iff r's type is t, for records of any type |
| Matcher.MatchedRecords | smbios_validation_tool/matcher_test.py:41-45 | the filtered records are exactly the records of the set the matcher accepts, and there are no more of them than records |
| Matcher.MatchedRecordsAppend | smbios_validation_tool/matcher_test.py:52-55 | filtering keeps iteration order: it distributes over concatenation of record sequences |
| Matcher.DistinctTypesSelectDisjoint | smbios_validation_tool/matcher_test.py:35-56 | the match counts of two distinct types add up to at most the record count |
| Validator.DecimalValue | smbios_validation_tool/rules.py:130-136 | an item-count value has a number exactly when it is a non-empty string of decimal digits |
| Validator.NatToDecimal | smbios_validation_tool/rules.py:130-136 | the decimal rendering of a count is canonical: digits only, no leading zero unless the count is 0 |
| Validator.DecimalRoundTrip | smbios_validation_tool/rules.py:130-136 | reading back the rendering of any count gives that count |
| Validator.DecimalCanonical | smbios_validation_tool/rules.py:130-136 | every canonical digit string is the rendering of the number it denotes |
| Validator.DecimalLeadingZeros | smbios_validation_tool/rules.py:130-136 | a digit string with leading zeros denotes the number rendered as the string with those zeros stripped, or "0" when only zeros remain |
| Validator.ItemCountCanonical | smbios_validation_tool/rules.py:130-136 | an item count written canonically passes exactly when the field has items and its value is the rendering of their number |
| Validator.IsPresent | smbios_validation_tool/rules.py:7-16 | presence of a field, taken here as: the field exists and carries a value or at least one item |
| Validator.Check | smbios_validation_tool/rules.py:43-274 | a checker has no verdict exactly when it is a value checker whose field is absent; on a present field, presence passes iff the field is present, a regular-expression check is the engine's verdict on the value, an enumeration check passes iff the value is one of the allowed values, an item count passes iff there are items and the value denotes their number, and a handle check fails when no record carries the value and passes only when some record with the value has the expected type |
| Validator.HandleCheckIff | smbios_validation_tool/rules.py:215-238 | with unique handles, a handle check passes exactly when some record carries the referenced handle and has the expected type |
| Validator.ValidateAll | smbios_validation_tool/rules.py:30-31 | a validator passes iff every checker passes; otherwise its verdict is that of the first checker that does not pass |
| Validator.GuardedValidatorIsDefined | smbios_validation_tool/rules.py:63-66 | when every value checker is preceded by a presence check on its field, the validator always reaches a verdict |
| Validator.GuardedValidRecordHasFields | smbios_validation_tool/rules.py:30-31 | a record that passes such a validator has every field the validator names |
| Rules.Evaluate | smbios_validation_tool/rules.py:7-16 | a rule's report always carries its own (err_msg, action_msg); it has no verdict only when some value checker met a field the record lacks |
| Rules.ReportIff | smbios_validation_tool/rules.py:7-16 | a rule reports iff every matcher accepts the record and some checker fails after all earlier ones pass |
| Rules.SilentIff | smbios_validation_tool/rules.py:14-16 | a rule is silent iff some matcher rejects the record or every checker passes |
| Rules.GuardedRuleIsDefined | smbios_validation_tool/rules.py:24-41 | a rule whose validator is presence-guarded never meets an absent field |
| Catalog.Join | smbios_validation_tool/rules.py:158-165 | `", ".join(values)`: empty for no values, otherwise starts with the first value, followed by the separator when more values follow |
| Catalog.JoinEndsWithLast | smbios_validation_tool/rules.py:158-165 | a non-empty joined list ends with its last value |
| Catalog.SourceText | smbios_validation_tool/rules.py:43-274 | the (error, action) texts the tool spells out for each of the 23 rules, without their "ERROR: "/"ACTION: " prefixes |
| Catalog.BiosRules | smbios_validation_tool/rules.py:44-81 | the four BIOS rules: Vendor, Version, Release Date and ROM Size |
| Catalog.BaseboardRules | smbios_validation_tool/rules.py:82-139 | the six Baseboard rules: Manufacturer, Product Name, Features, Location In Chassis, Chassis Handle and Contained Object Handles |
| Catalog.ChassisRules | smbios_validation_tool/rules.py:140-177 | the four Chassis rules: Manufacturer, Type, Lock and Contained Elements |
| Catalog.ProcessorRules | smbios_validation_tool/rules.py:178-273 | the nine Processor rules: Socket Designation, Type, Status, the three cache handles, Core Count, Core Enabled and Thread Count |
| Catalog.Catalog | smbios_validation_tool/rules.py:43-274 | the 23 catalog rules, BIOS then Baseboard then Chassis then Processor |
| Catalog.PresenceThenValueGuarded | smbios_validation_tool/rules.py:63-66 | a presence check followed by a value check on the same field is presence-guarded |
| Catalog.BiosRulesWellFormed | smbios_validation_tool/rules.py:44-81 | every BIOS rule has one type matcher for a catalog type, is presence-guarded, and carries the "ERROR: "/"ACTION: " prefixes |
| Catalog.BaseboardRulesWellFormed | smbios_validation_tool/rules.py:82-139 | the same for every Baseboard rule |
| Catalog.ChassisRulesWellFormed | smbios_validation_tool/rules.py:140-177 | the same for every Chassis rule |
| Catalog.ProcessorRulesWellFormed | smbios_validation_tool/rules.py:178-273 | the same for every Processor rule, whose handle checkers all expect Cache Information records |
| Catalog.BiosRulesMatchType | smbios_validation_tool/rules.py:44-81 | every BIOS rule selects exactly the type 0 records |
| Catalog.BaseboardRulesMatchType | smbios_validation_tool/rules.py:82-139 | every Baseboard rule selects exactly the type 2 records |
| Catalog.ChassisRulesMatchType | smbios_validation_tool/rules.py:140-177 | every Chassis rule selects exactly the type 3 records |
| Catalog.ProcessorRulesMatchType | smbios_validation_tool/rules.py:178-273 | every Processor rule selects exactly the type 4 records |
| Catalog.CatalogWellFormed | smbios_validation_tool/rules.py:43-274 | every catalog rule is well formed, whatever the regular expressions, value lists and texts: one type matcher for a catalog type, presence-guarded checkers, handle checkers aimed at Cache Information records, and every error message starting "ERROR: " and every action message "ACTION: " |
| Catalog.CatalogIsDefined | smbios_validation_tool/rules.py:43-274 | no catalog rule ever meets an absent field, on any record |
| Catalog.CatalogRuleSelectsOneType | smbios_validation_tool/rules.py:43-274 | a catalog rule matches exactly the records of its one type, and is silent on records of any type outside the four |
| Catalog.CatalogCoversFourTypes | smbios_validation_tool/rules.py:43-274 | the catalog has rules for a type iff it is BIOS, Baseboard, Chassis or Processor |
| ErrorBuckets.Add | smbios_validation_tool/error_bucket_test.py:16-18 | `add_error` adds the key, appends the entry after the key's earlier entries, and leaves every other key's list unchanged |
| ErrorBuckets.AddAllEntries | smbios_validation_tool/error_bucket_test.py:16-24 | after a series of calls, each key holds its earlier list followed by exactly the entries added under it, in call order |
| ErrorBuckets.AddAllAppend | smbios_validation_tool/error_bucket_test.py:16-18 | two call series in a row act as their concatenation |
| ErrorBuckets.EntriesForAppend | smbios_validation_tool/error_bucket_test.py:16-24 | the entries a concatenated series names under a key are those of each part in turn |
| ErrorBuckets.AddAllKeys | smbios_validation_tool/error_bucket_test.py:16-21 | the keys after a series of calls are the earlier keys and the keys the calls name |
| ErrorBuckets.FreshBucketKeys | smbios_validation_tool/error_bucket_test.py:14-21 | from an empty bucket, duplicate keys accumulate: one key per distinct key passed, each holding a non-empty list of its entries |
| ErrorBuckets.EntriesForListed | smbios_validation_tool/error_bucket_test.py:18-24 | a key named by some call holds that call's entry |
| ErrorBuckets.OrderAfterAppend | smbios_validation_tool/error_bucket_test.py:16-21 | two call series in a row extend the key order as their concatenation does |
| ErrorBuckets.OrderAfterKeys | smbios_validation_tool/error_bucket_test.py:16-21 | a call series keeps the earlier key order as a prefix, adds exactly the keys it names that were not there, and never repeats a key |
| ErrorBuckets.TwoKeysScenario | smbios_validation_tool/error_bucket_test.py:13-24 | three calls on keys '1', '1', '2' leave two keys, created in the order '1', '2', holding [err_1, err_2] and [err_3] in call order |
| ErrorBuckets.ErrorBucket.constructor | smbios_validation_tool/error_bucket_test.py:9-14 | a fresh bucket is empty |
| ErrorBuckets.ErrorBucket.AddError | smbios_validation_tool/error_bucket_test.py:16-24 | the bucket becomes `Add(old bucket, key, e)`; a new key goes at the end of the key order; the bucket's invariant (keys in creation order, no empty list) is kept |
| RecordsPresence.MissingMessage | smbios_validation_tool/validator_test.py:44-49 | a missing-record finding begins with the required type's label |
| RecordsPresence.MissingRecords | smbios_validation_tool/validator_test.py:44-49 | the findings are exactly "<label> SMBIOS record is missing." for the label of each required type no record carries |
| RecordsPresence.NoFindingIffComplete | smbios_validation_tool/validator_test.py:39-42 | the presence checker reports nothing iff every required type is present |
| RecordsPresence.OnlyBaseboardMissing | smbios_validation_tool/validator_test.py:44-49 | when the baseboard is the only required type missing, the findings are exactly {"Motherboard SMBIOS record is missing."} |
| RecordsPresence.BaseboardRequirementFindings | smbios_validation_tool/validator_test.py:44-49 | under the baseboard requirement, the "Motherboard" finding appears iff no baseboard record exists |
| MemoryGroups.DieIsNotController | smbios_validation_tool/validator_test.py:57-67 | no group is both a die ("die…") and a controller ("IMC…") |
| MemoryGroups.Message | smbios_validation_tool/validator_test.py:57-66 | definition: renders each finding kind with the test's exact template, filled with the finding's handles and names |
| MemoryGroups.MessageOpens | smbios_validation_tool/validator_test.py:57-66 | the four templates open with 'M', 'T', 'S' and 'I' respectively |
| MemoryGroups.MessageDeterminesKind | smbios_validation_tool/validator_test.py:57-66 | two findings with the same message are of the same kind |
| MemoryGroups.UnlistedControllers | smbios_validation_tool/validator_test.py:58-60 | every controller group whose handle no die lists is reported by handle and name, and every membership finding is such a report |
| MemoryGroups.DiesWithoutController | smbios_validation_tool/validator_test.py:61-62 | every die group none of whose items is a controller handle is reported by handle and name, and every non-emptiness finding is such a report |
| MemoryGroups.MixedControllers | smbios_validation_tool/validator_test.py:63-64 | every controller group with an item that is not a Group Associations handle is reported by handle and name, and every homogeneity finding is such a report |
| MemoryGroups.OwnershipConflicts | smbios_validation_tool/validator_test.py:65-66 | every ownership finding names a controller and an owner other than the claiming die |
| MemoryGroups.ConflictReported | smbios_validation_tool/validator_test.py:65-66 | a die group listing a controller whose earliest listing die earlier in the sequence has another handle is reported, naming that earliest die as owner |
| MemoryGroups.ConflictCause | smbios_validation_tool/validator_test.py:65-66 | every ownership finding is such a report: a later die, a controller it lists, and the earliest earlier die listing it, with another handle |
| MemoryGroups.Findings | smbios_validation_tool/validator_test.py:57-67 | every finding of all four checks is in the pooled result, and each pooled finding comes from the check of its own kind |
| MemoryGroups.Messages | smbios_validation_tool/validator_test.py:57-67 | the message of every pooled finding is a key of the result, every key is the message of a pooled finding, and there is no key exactly when no check found anything |
| MemoryGroups.FirstListingDie | smbios_validation_tool/validator_test.py:65-66 | a controller has no first listing die iff no die lists it; otherwise the index found is a die that lists it, and no earlier die does |
| MemoryGroups.ScanItemsEffect | smbios_validation_tool/validator_test.py:65-66 | scanning a die's items keeps earlier owners, makes the die the owner of controllers first seen there, and reports exactly its conflicts |
| MemoryGroups.OwnershipConflictsSnoc | smbios_validation_tool/validator_test.py:65-66 | one more group adds exactly the conflicts its items raise against the groups before it |
| MemoryGroups.ScanGroupsEffect | smbios_validation_tool/validator_test.py:65-66 | the in-order scan indexes every controller's first owner and reports exactly the declarative ownership conflicts |
| MemoryGroups.CheckOwnership | smbios_validation_tool/validator_test.py:65-66 | the scan loop returns exactly the ownership conflicts, with the earliest listing die named as owner |
| MemoryGroups.Validate | smbios_validation_tool/validator_test.py:51-68 | `validate()` returns the messages of all four checks' findings, pooled |
| MemoryGroups.DoubleListingConflicts | smbios_validation_tool/validator_test.py:65-66 | two dies with different handles listing one controller always raise a conflict |
| MemoryGroups.ConflictHasTwoListings | smbios_validation_tool/validator_test.py:65-66 | every conflict comes from two such dies |
| MemoryGroups.NoConflictIffSingleOwnership | smbios_validation_tool/validator_test.py:65-66 | the ownership check reports nothing iff no controller is listed by two dies with different handles |
| MemoryGroups.NoUnlistedIff | smbios_validation_tool/validator_test.py:58-60 | the membership check reports nothing iff every controller is listed by some die |
| MemoryGroups.NoEmptyDieIff | smbios_validation_tool/validator_test.py:61-62 | the non-emptiness check reports nothing iff every die lists some controller |
| MemoryGroups.NoMixedIff | smbios_validation_tool/validator_test.py:63-64 | the homogeneity check reports nothing iff every controller item is a Group Associations handle |
| MemoryGroups.NoFindingsIffConsistent | smbios_validation_tool/validator_test.py:39-42 | the checker returns no key iff the topology is consistent under all four checks |
| MemoryGroups.ShapeUnlisted | smbios_validation_tool/validator_test.py:58-60 | in the non-compliant topology shape, the membership findings are exactly those of the controllers c0, c1 and c2, by handle and name |
| MemoryGroups.ShapeEmptyDie | smbios_validation_tool/validator_test.py:61-62 | in that shape, exactly the die that lists no controller is reported |
| MemoryGroups.ShapeMixed | smbios_validation_tool/validator_test.py:63-64 | in that shape, the controller with a non-type-14 item is reported once, not once per item |
| MemoryGroups.ShapeConflict | smbios_validation_tool/validator_test.py:65-66 | in that shape, only the later die's claim is reported, naming the earlier die as owner |
| MemoryGroups.ShapeFindings | smbios_validation_tool/validator_test.py:57-68 | any topology of that shape yields exactly the listed findings of all four checks, so no check stops another |
| MemoryGroups.ShapeFindingsCount | smbios_validation_tool/validator_test.py:56-67 | when c0, c1 and c2 have different handles, that shape yields six findings |
| MemoryGroups.SampleFindings | smbios_validation_tool/validator_test.py:57-68 | the sample groups yield exactly the six expected findings (0x0297, 0x0298 and 0x0299 unlisted; 0x02C9 empty; 0x0298 mixed; 0x02CC claiming 0x029B owned by 0x02CB) |
| MemoryGroups.SampleFindingsCount | smbios_validation_tool/validator_test.py:56-67 | the sample yields six different findings, as many as the expected messages |
| MemoryGroups.SampleMessages | smbios_validation_tool/validator_test.py:57-68 | the sample's result keys are the six rendered findings |
| Orchestrator.RecordReports | smbios_validation_tool/rules.py:14-16 | a pair is reported for a record iff some rule evaluates to a report of that pair on it |
| Orchestrator.ApplyRule | smbios_validation_tool/rules.py:14-16 | applying one rule to one record adds its (err_msg, action_msg) under the record's handle exactly when the rule reports the record, appending the handle to the key order if it is new, and changes nothing otherwise |
| Orchestrator.ApplyToRecord | smbios_validation_tool/rules.py:14-16 | applying the rules to one record adds its reports, in rule order, under the record's handle, which joins the end of the key order if it is new |
| Orchestrator.ApplyRules | smbios_validation_tool/rules.py:14-16 | applying presence-guarded rules to every record folds every report into the bucket, in record order then rule order, and appends each newly reported handle to the key order in that order |
| Orchestrator.ApplyCatalog | smbios_validation_tool/rules.py:43-274 | the catalog meets `ApplyRules`' precondition, so running it over any record set reaches a verdict for every rule and record |
| Orchestrator.NoEntriesForForeignHandle | smbios_validation_tool/rules.py:14-16 | a handle no record carries receives no entry |
| Orchestrator.EntriesUnderHandle | smbios_validation_tool/rules.py:14-16 | with unique handles, the entries added under a record's handle are exactly that record's reports, in rule order |
| Orchestrator.RunBucket | smbios_validation_tool/rules.py:14-16 | from an empty bucket, a record's handle holds exactly its reports, and is a key iff some rule reported the record |
| Orchestrator.ReportedIff | smbios_validation_tool/rules.py:7-16 | a pair is stored under a record's handle iff some rule selects the record, finds it invalid, and carries that pair |

## Left out

- The `dmiparse` parser and the test-data files are left out. Records and groups are built directly as values. The parser's iteration order is the order of the record sequence.
- The regular-expression engine is a parameter of `Context`. DATE_REGEXP, DEVPATH_REGEXP and NUMBER_REGEXP, and the CHASSIS_LOCK, PROCESSOR_TYPE and PROCESSOR_STATUS value lists, are fields of a `FieldConstants` value. Their definitions are not part of this model.
- The ROM Size pattern `\d+ [kmgKMG]B` is passed to the engine as written. Whether the engine applies it as a full match or a prefix match is left to the engine parameter.
- The matcher, validator, constants and error-bucket implementation modules are not part of this model. The rule docstrings and the tests fix only the outline of the checkers. The following details are this model's own choices, not behaviour read from code:
  - Validator.IsPresent: presence means the field exists with a non-empty value or at least one item;
  - Validator.Check: an item count passes when the value is a decimal number, leading zeros allowed (Validator.DecimalLeadingZeros), equal to the number of item lines;
  - Validator.Check: a handle field must resolve, first match in record order, to a record of the expected type;
  - Validator.Check: a value checker on an absent field has no verdict (`None`) rather than failing.
- Validator.ValidateAll: the individual validator is taken to stop at the first checker that does not pass. Validator.GuardedValidatorIsDefined, Rules.GuardedRuleIsDefined and Catalog.CatalogIsDefined depend on this. If the tool evaluated every checker, a value checker behind a failing presence check would meet an absent field.
- Orchestrator.ApplyRules and Orchestrator.ApplyCatalog: the loop nesting, records outer and rules inner, is the model's own choice; no driver code fixes it. The nesting decides the bucket's key order (`keyOrder`) and, for records that share a handle, the order of that handle's entries.
- MemoryGroups.Group keeps only the handles of its items, not their types. Homogeneity therefore resolves each item handle against the record set.
- Message texts enter the catalog through the `texts` parameter, so every catalog property holds for any texts. `SourceText` holds the tool's texts, and the enumeration action messages append `Join(", ", values)` to them. No lemma states a literal message of the catalog.
- MemoryGroups.SampleMessages: the six expected messages are stated as `Message(finding)`. `Message` holds the templates. Literal equality with each expected string is not proved.
- The action payload of whole-set findings, and the bucket key they are stored under, are left out. The model keeps only the result's key set. Whole-set findings are not folded into the error bucket.
- RecordsPresence.MissingRecords: the required-type table is a parameter. Only the baseboard entry ("Motherboard") is fixed, because no other label is visible.
- Die and controller groups are recognised by the name prefixes "die" and "IMC".
- The `Rule` constructor stores its four arguments unchanged. That is datatype construction, so no lemma restates it.
- A rule holds one `Matcher` and one `IndividualValidator`, as every catalog entry passes them, rather than lists of them.
- The counts 294, 1 and 3 in the matcher tests depend on a data file that is not part of this model. Matcher.DistinctTypesSelectDisjoint states the general bound instead.
- Determinism of the checkers is not stated: it holds trivially for functions.
- Report printing, the command-line interface, exit codes and the unittest harness are I/O and test plumbing, and are left out.
