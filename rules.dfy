/**
 * A rule binds a matcher (which records it applies to) and an individual
 * validator (what those records must satisfy) to a fixed error message and
 * a fixed remediation message. Rules are data; evaluating one on a record
 * yields its message pair exactly when the record is selected and fails.
 */
module Rules {
  import opened Records
  import opened Matcher
  import opened Validator

  datatype Rule = Rule(matcher: Matcher, validator: IndividualValidator, errMsg: string, actionMsg: string)

  /** The result of applying one rule to one record. */
  datatype Outcome =
    | Silent                                   // not selected, or selected and valid
    | Report(errMsg: string, actionMsg: string) // selected and invalid
    | Undefined                                // a value checker met an absent field

  /**
   * Applies one rule to one record: a report always carries the rule's own
   * message pair, and there is no verdict only when some value checker met
   * a field the record lacks.
   */
  function Evaluate(rule: Rule, r: Record, ctx: Context): (outcome: Outcome)
    ensures outcome.Report? ==> outcome == Report(rule.errMsg, rule.actionMsg)
    ensures outcome == Undefined ==>
              exists i :: 0 <= i < |rule.validator.checkers|
                && !rule.validator.checkers[i].FieldPresentChecker? && rule.validator.checkers[i].field !in r.fields
  {
    if !IsMatchedRecord(rule.matcher, r) then Silent
    else match Validate(rule.validator, r, ctx)
      case Some(true) => Silent
      case Some(false) => Report(rule.errMsg, rule.actionMsg)
      case None => Undefined
  }

  /**
   * A rule reports exactly when every sub-matcher accepts the record's type
   * and some checker fails after all checkers before it have passed.
   */
  lemma ReportIff(rule: Rule, r: Record, ctx: Context)
    ensures Evaluate(rule, r, ctx).Report? <==>
      (forall i :: 0 <= i < |rule.matcher.matchers| ==> rule.matcher.matchers[i].recordType == r.recordType)
      && exists i :: 0 <= i < |rule.validator.checkers|
           && Check(rule.validator.checkers[i], r, ctx) == Some(false)
           && forall j :: 0 <= j < i ==> Check(rule.validator.checkers[j], r, ctx) == Some(true)
  {
  }

  /** A rule stays silent exactly when it does not select the record or every checker passes. */
  lemma SilentIff(rule: Rule, r: Record, ctx: Context)
    ensures Evaluate(rule, r, ctx) == Silent <==>
      (exists i :: 0 <= i < |rule.matcher.matchers| && rule.matcher.matchers[i].recordType != r.recordType)
      || forall i :: 0 <= i < |rule.validator.checkers| ==> Check(rule.validator.checkers[i], r, ctx) == Some(true)
  {
  }

  /** A rule whose validator is presence-guarded never meets an absent field. */
  lemma GuardedRuleIsDefined(rule: Rule, r: Record, ctx: Context)
    requires PresenceGuarded(rule.validator.checkers)
    ensures Evaluate(rule, r, ctx) != Undefined
  {
    GuardedValidatorIsDefined(rule.validator.checkers, r, ctx);
  }
}
