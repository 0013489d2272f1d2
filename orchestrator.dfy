/**
 * Per-record rule application: every rule is applied to every record, and
 * each report is added to the error bucket under the record's handle, as
 * `add_error(record.handle, (err_msg, action_msg))`. Records are visited in
 * the record set's order and, for each record, the rules in catalog order.
 */
module Orchestrator {
  import opened Constants
  import opened Records
  import opened Matcher
  import opened Validator
  import opened Rules
  import opened Catalog
  import opened ErrorBuckets

  /** The entries the rules report for one record, in rule order. */
  function RecordReports(rules: seq<Rule>, r: Record, ctx: Context): (reports: seq<Entry>)
    ensures forall e :: e in reports <==> exists rule :: rule in rules && Evaluate(rule, r, ctx) == Report(e.0, e.1)
    decreases |rules|
  {
    if rules == [] then []
    else
      var n := |rules| - 1;
      var earlier := RecordReports(rules[..n], r, ctx);
      assert forall rule :: rule in rules <==> rule in rules[..n] || rule == rules[n] by {
        assert rules == rules[..n] + [rules[n]];
      }
      match Evaluate(rules[n], r, ctx)
      case Report(errMsg, actionMsg) => earlier + [(errMsg, actionMsg)]
      case _ => earlier
  }

  /** The `add_error` calls for one record's entries. */
  function Keyed(handle: string, entries: seq<Entry>): (calls: seq<(string, Entry)>)
    ensures |calls| == |entries|
    ensures forall i :: 0 <= i < |calls| ==> calls[i] == (handle, entries[i])
  {
    seq(|entries|, i requires 0 <= i < |entries| => (handle, entries[i]))
  }

  /** Every `add_error` call of a run over the records, in call order. */
  function RuleFindings(rules: seq<Rule>, records: seq<Record>, ctx: Context): seq<(string, Entry)>
    decreases |records|
  {
    if records == [] then []
    else
      var n := |records| - 1;
      RuleFindings(rules, records[..n], ctx) + Keyed(records[n].handle, RecordReports(rules, records[n], ctx))
  }

  /** The report one rule makes on a record: its message pair when it reports, nothing otherwise. */
  function RuleReport(rule: Rule, r: Record, ctx: Context): seq<Entry> {
    if Evaluate(rule, r, ctx).Report? then [(rule.errMsg, rule.actionMsg)] else []
  }

  /** Evaluating one more rule adds its report, if it makes one, at the end. */
  lemma ReportsStep(rules: seq<Rule>, j: nat, r: Record, ctx: Context)
    requires j < |rules|
    ensures RecordReports(rules[..j + 1], r, ctx) == RecordReports(rules[..j], r, ctx) + RuleReport(rules[j], r, ctx)
  {
    assert rules[..j + 1][..j] == rules[..j];
  }

  /** Visiting one more record adds its keyed reports at the end. */
  lemma FindingsStep(rules: seq<Rule>, records: seq<Record>, i: nat, ctx: Context)
    requires i < |records|
    ensures RuleFindings(rules, records[..i + 1], ctx) ==
              RuleFindings(rules, records[..i], ctx) + Keyed(records[i].handle, RecordReports(rules, records[i], ctx))
  {
    assert records[..i + 1][..i] == records[..i];
  }

  /** One more entry list for a record is one more series of calls under its handle. */
  lemma KeyedAppend(handle: string, xs: seq<Entry>, ys: seq<Entry>)
    ensures Keyed(handle, xs + ys) == Keyed(handle, xs) + Keyed(handle, ys)
  {
  }

  /** Applies one rule to one record, adding its report, if it makes one, under the record's handle. */
  method ApplyRule(b: ErrorBucket, rule: Rule, r: Record, ctx: Context)
    requires b.Valid()
    requires PresenceGuarded(rule.validator.checkers)
    modifies b
    ensures b.Valid()
    ensures b.bucket == AddAll(old(b.bucket), Keyed(r.handle, RuleReport(rule, r, ctx)))
    ensures b.keyOrder == OrderAfter(old(b.keyOrder), Keyed(r.handle, RuleReport(rule, r, ctx)))
  {
    GuardedRuleIsDefined(rule, r, ctx);
    if Evaluate(rule, r, ctx).Report? {
      var e := (rule.errMsg, rule.actionMsg);
      assert Keyed(r.handle, RuleReport(rule, r, ctx)) == [(r.handle, e)];
      assert [(r.handle, e)][1..] == [];
      assert r.handle in b.bucket <==> r.handle in b.keyOrder;
      b.AddError(r.handle, e);
    } else {
      assert Evaluate(rule, r, ctx) == Silent;
      assert Keyed(r.handle, RuleReport(rule, r, ctx)) == [];
    }
  }

  /** Applies every rule to one record, adding each report to the bucket under the record's handle. */
  method ApplyToRecord(b: ErrorBucket, rules: seq<Rule>, r: Record, ctx: Context)
    requires b.Valid()
    requires forall rule :: rule in rules ==> PresenceGuarded(rule.validator.checkers)
    modifies b
    ensures b.Valid()
    ensures b.bucket == AddAll(old(b.bucket), Keyed(r.handle, RecordReports(rules, r, ctx)))
    ensures b.keyOrder == OrderAfter(old(b.keyOrder), Keyed(r.handle, RecordReports(rules, r, ctx)))
  {
    var j := 0;
    while j < |rules|
      invariant 0 <= j <= |rules|
      invariant b.Valid()
      invariant b.bucket == AddAll(old(b.bucket), Keyed(r.handle, RecordReports(rules[..j], r, ctx)))
      invariant b.keyOrder == OrderAfter(old(b.keyOrder), Keyed(r.handle, RecordReports(rules[..j], r, ctx)))
    {
      ghost var done := Keyed(r.handle, RecordReports(rules[..j], r, ctx));
      ghost var step := Keyed(r.handle, RuleReport(rules[j], r, ctx));
      assert Keyed(r.handle, RecordReports(rules[..j + 1], r, ctx)) == done + step by {
        ReportsStep(rules, j, r, ctx);
        KeyedAppend(r.handle, RecordReports(rules[..j], r, ctx), RuleReport(rules[j], r, ctx));
      }
      AddAllAppend(old(b.bucket), done, step);
      OrderAfterAppend(old(b.keyOrder), done, step);
      ApplyRule(b, rules[j], r, ctx);
      j := j + 1;
    }
    assert rules[..|rules|] == rules;
  }

  /** Applies every rule to every record, in record order. */
  method ApplyRules(b: ErrorBucket, rules: seq<Rule>, ctx: Context)
    requires b.Valid()
    requires forall rule :: rule in rules ==> PresenceGuarded(rule.validator.checkers)
    modifies b
    ensures b.Valid()
    ensures b.bucket == AddAll(old(b.bucket), RuleFindings(rules, ctx.records, ctx))
    ensures b.keyOrder == OrderAfter(old(b.keyOrder), RuleFindings(rules, ctx.records, ctx))
  {
    var records := ctx.records;
    var i := 0;
    while i < |records|
      invariant 0 <= i <= |records|
      invariant b.Valid()
      invariant b.bucket == AddAll(old(b.bucket), RuleFindings(rules, records[..i], ctx))
      invariant b.keyOrder == OrderAfter(old(b.keyOrder), RuleFindings(rules, records[..i], ctx))
    {
      var r := records[i];
      ApplyToRecord(b, rules, r, ctx);
      FindingsStep(rules, records, i, ctx);
      AddAllAppend(old(b.bucket), RuleFindings(rules, records[..i], ctx), Keyed(r.handle, RecordReports(rules, r, ctx)));
      OrderAfterAppend(old(b.keyOrder), RuleFindings(rules, records[..i], ctx), Keyed(r.handle, RecordReports(rules, r, ctx)));
      i := i + 1;
    }
    assert records[..|records|] == records;
  }

  /** Runs the whole catalog (with the texts `SourceText` in the shipped tool) over the record set into the bucket. */
  method ApplyCatalog(b: ErrorBucket, k: FieldConstants, texts: RuleTexts, ctx: Context)
    requires b.Valid()
    modifies b
    ensures b.Valid()
    ensures b.bucket == AddAll(old(b.bucket), RuleFindings(Catalog.Catalog(k, texts), ctx.records, ctx))
    ensures b.keyOrder == OrderAfter(old(b.keyOrder), RuleFindings(Catalog.Catalog(k, texts), ctx.records, ctx))
  {
    var rules := Catalog.Catalog(k, texts);
    CatalogWellFormed(k, texts);
    ApplyRules(b, rules, ctx);
  }

  /** The calls that name `key` for one record: its reports when the handles agree, none otherwise. */
  lemma {:induction false} EntriesForKeyed(handle: string, entries: seq<Entry>, key: string)
    ensures EntriesFor(Keyed(handle, entries), key) == if handle == key then entries else []
    decreases |entries|
  {
    if entries != [] {
      assert Keyed(handle, entries)[1..] == Keyed(handle, entries[1..]);
      EntriesForKeyed(handle, entries[1..], key);
    }
  }

  /** A handle no record carries has no entries. */
  lemma {:induction false} NoEntriesForForeignHandle(rules: seq<Rule>, records: seq<Record>, ctx: Context, h: string)
    requires forall r :: r in records ==> r.handle != h
    ensures EntriesFor(RuleFindings(rules, records, ctx), h) == []
    decreases |records|
  {
    if records != [] {
      var n := |records| - 1;
      var prefix, last := records[..n], records[n];
      assert last in records;
      assert forall r :: r in prefix ==> r in records;
      var earlier := RuleFindings(rules, prefix, ctx);
      var calls := Keyed(last.handle, RecordReports(rules, last, ctx));
      assert RuleFindings(rules, records, ctx) == earlier + calls;
      NoEntriesForForeignHandle(rules, prefix, ctx, h);
      EntriesForAppend(earlier, calls, h);
      EntriesForKeyed(last.handle, RecordReports(rules, last, ctx), h);
    }
  }

  /** Dropping the last record keeps handles unique, and no earlier record shares the last one's handle. */
  lemma UniquePrefix(records: seq<Record>)
    requires UniqueHandles(records) && records != []
    ensures UniqueHandles(records[..|records| - 1])
    ensures forall q :: q in records[..|records| - 1] ==> q.handle != records[|records| - 1].handle
  {
    var prefix := records[..|records| - 1];
    forall q | q in prefix ensures q.handle != records[|records| - 1].handle {
      var i :| 0 <= i < |prefix| && prefix[i] == q;
      assert records[i] == q;
    }
  }

  /**
   * With unique handles, the entries a run adds under a record's handle are
   * exactly that record's reports, in rule order.
   */
  lemma {:induction false} EntriesUnderHandle(rules: seq<Rule>, records: seq<Record>, ctx: Context, r: Record)
    requires UniqueHandles(records)
    requires r in records
    ensures EntriesFor(RuleFindings(rules, records, ctx), r.handle) == RecordReports(rules, r, ctx)
    decreases |records|
  {
    var n := |records| - 1;
    var prefix := records[..n];
    var last := records[n];
    var earlier := RuleFindings(rules, prefix, ctx);
    var reports := RecordReports(rules, last, ctx);
    assert EntriesFor(RuleFindings(rules, records, ctx), r.handle) ==
           EntriesFor(earlier, r.handle) + (if last.handle == r.handle then reports else []) by {
      EntriesForAppend(earlier, Keyed(last.handle, reports), r.handle);
      EntriesForKeyed(last.handle, reports, r.handle);
    }
    UniquePrefix(records);
    if r == last {
      NoEntriesForForeignHandle(rules, prefix, ctx, r.handle);
    } else {
      var i :| 0 <= i < |records| && records[i] == r;
      assert i < n && prefix[i] == r;
      EntriesUnderHandle(rules, prefix, ctx, r);
    }
  }

  /**
   * Starting from an empty bucket, a record's handle ends up holding exactly
   * the (error, action) pairs of the rules that report it, in rule order;
   * a record no rule reports leaves no key behind.
   */
  lemma RunBucket(rules: seq<Rule>, ctx: Context, r: Record)
    requires UniqueHandles(ctx.records)
    requires r in ctx.records
    ensures Get(AddAll(map[], RuleFindings(rules, ctx.records, ctx)), r.handle) == RecordReports(rules, r, ctx)
    ensures r.handle in AddAll(map[], RuleFindings(rules, ctx.records, ctx)) <==> RecordReports(rules, r, ctx) != []
  {
    var calls := RuleFindings(rules, ctx.records, ctx);
    AddAllEntries(map[], calls, r.handle);
    EntriesUnderHandle(rules, ctx.records, ctx, r);
    FreshBucketKeys(calls);
  }

  /**
   * A record's handle holds a message pair exactly when some rule selects the
   * record, finds it failing, and carries that pair.
   */
  lemma ReportedIff(rules: seq<Rule>, ctx: Context, r: Record, e: Entry)
    requires UniqueHandles(ctx.records)
    requires r in ctx.records
    ensures e in Get(AddAll(map[], RuleFindings(rules, ctx.records, ctx)), r.handle) <==>
            exists rule :: rule in rules && IsMatchedRecord(rule.matcher, r) && Validate(rule.validator, r, ctx) == Some(false)
                           && e == (rule.errMsg, rule.actionMsg)
  {
    RunBucket(rules, ctx, r);
    forall rule | rule in rules ensures Evaluate(rule, r, ctx) == Report(e.0, e.1) <==>
        IsMatchedRecord(rule.matcher, r) && Validate(rule.validator, r, ctx) == Some(false) && e == (rule.errMsg, rule.actionMsg) {
      ReportIff(rule, r, ctx);
    }
  }
}
