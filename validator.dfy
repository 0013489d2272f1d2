/**
 * Per-record validation: field checkers and the individual validator that
 * is the left-to-right conjunction of its checkers.
 *
 * A value checker reads its field from the record's field map; on a record
 * that lacks the field it has no verdict (`None`), as a dictionary lookup
 * on a missing key has none. The validator stops at the first checker that
 * does not pass, so a value checker placed after a presence checker for the
 * same field is only ever reached when the field exists.
 */
module Validator {
  import opened Constants
  import opened Records

  datatype FieldChecker =
    | FieldPresentChecker(field: string)
    | FieldValueRegexpChecker(field: string, pattern: string)
    | FieldValueEnumChecker(field: string, allowed: seq<string>)
    | FieldItemCountChecker(field: string)
    | HandleFieldChecker(field: string, expected: RecordType)

  datatype IndividualValidator = IndividualValidator(checkers: seq<FieldChecker>)

  /** The regular-expression engine: does `value` match `pattern`? */
  type RegexEngine = (string, string) -> bool

  /** What a checker may consult besides the record itself. */
  datatype Context = Context(records: seq<Record>, regex: RegexEngine)

  /** A field is present when it exists and carries a value or at least one item. */
  predicate IsPresent(r: Record, name: string) {
    name in r.fields && (r.fields[name].value != "" || r.fields[name].items != [])
  }

  predicate IsDigit(c: char) {
    '0' <= c <= '9'
  }

  /** The natural number a string of decimal digits denotes; `None` for any other string. */
  function DecimalValue(s: string): (n: Option<nat>)
    ensures n.Some? <==> s != [] && forall i :: 0 <= i < |s| ==> IsDigit(s[i])
  {
    if s == [] || !IsDigit(s[|s| - 1]) then None
    else
      var d := (s[|s| - 1] as int) - ('0' as int);
      if |s| == 1 then Some(d)
      else match DecimalValue(s[..|s| - 1])
        case None => None
        case Some(p) => Some(10 * p + d)
  }

  /** The canonical decimal rendering of `n`: digits only, no leading zero unless `n` is 0. */
  function NatToDecimal(n: nat): (s: string)
    ensures Canonical(s)
  {
    var last := [('0' as int + n % 10) as char];
    if n < 10 then last else NatToDecimal(n / 10) + last
  }

  /** A digit string in canonical form: non-empty, and no leading zero unless it is "0". */
  predicate Canonical(s: string) {
    && s != []
    && (forall i :: 0 <= i < |s| ==> IsDigit(s[i]))
    && (s[0] == '0' ==> |s| == 1)
  }

  /** Reading back a rendered number gives the number. */
  lemma {:induction false} DecimalRoundTrip(n: nat)
    ensures DecimalValue(NatToDecimal(n)) == Some(n)
  {
    var s := NatToDecimal(n);
    if n >= 10 {
      DecimalRoundTrip(n / 10);
      assert s[..|s| - 1] == NatToDecimal(n / 10);
    }
  }

  /** A canonical digit string that does not start with '0' denotes a positive number. */
  lemma {:induction false} CanonicalPositive(s: string)
    requires Canonical(s) && s[0] != '0'
    ensures DecimalValue(s).Some? && DecimalValue(s).value >= 1
  {
    if |s| > 1 {
      var p := s[..|s| - 1];
      assert p[0] == s[0];
      CanonicalPositive(p);
    }
  }

  /** Rendering the number a canonical digit string denotes gives back the string. */
  lemma {:induction false} DecimalCanonical(s: string)
    requires Canonical(s)
    ensures DecimalValue(s).Some? && NatToDecimal(DecimalValue(s).value) == s
  {
    if |s| > 1 {
      var p := s[..|s| - 1];
      assert p[0] == s[0];
      DecimalCanonical(p);
      CanonicalPositive(p);
      var v := DecimalValue(p).value;
      var d := (s[|s| - 1] as int) - ('0' as int);
      assert DecimalValue(s) == Some(10 * v + d);
      assert (10 * v + d) / 10 == v && (10 * v + d) % 10 == d;
      assert s == p + [s[|s| - 1]];
    }
  }

  /** `s` without its leading zeros. */
  function StripZeros(s: string): (t: string)
    ensures |t| <= |s| && t == s[|s| - |t|..]
    ensures t == [] || t[0] != '0'
  {
    if s != [] && s[0] == '0' then StripZeros(s[1..]) else s
  }

  /** A leading zero does not change the number a digit string denotes. */
  lemma {:induction false} ZeroPrefix(t: string)
    requires DecimalValue(t).Some?
    ensures DecimalValue(['0'] + t) == DecimalValue(t)
  {
    var s := ['0'] + t;
    if |t| == 1 {
      assert s[..|s| - 1] == ['0'];
    } else {
      assert s[..|s| - 1] == ['0'] + t[..|t| - 1];
      ZeroPrefix(t[..|t| - 1]);
    }
  }

  /**
   * A digit string with leading zeros denotes the number whose rendering is the
   * string with those zeros stripped, or "0" when only zeros remain.
   */
  lemma {:induction false} DecimalLeadingZeros(s: string)
    requires DecimalValue(s).Some?
    ensures NatToDecimal(DecimalValue(s).value) == if StripZeros(s) == [] then "0" else StripZeros(s)
  {
    if s[0] == '0' && |s| > 1 {
      assert s == ['0'] + s[1..];
      assert DecimalValue(s[1..]).Some?;
      ZeroPrefix(s[1..]);
      DecimalLeadingZeros(s[1..]);
    } else if s[0] != '0' {
      DecimalCanonical(s);
    }
  }

  /** The verdict of one checker on one record: `None` when a value checker's field is absent. */
  function Check(c: FieldChecker, r: Record, ctx: Context): (verdict: Option<bool>)
    ensures verdict.None? <==> !c.FieldPresentChecker? && c.field !in r.fields
    ensures c.FieldPresentChecker? ==> (verdict == Some(true) <==> IsPresent(r, c.field))
    ensures c.FieldValueRegexpChecker? && c.field in r.fields ==>
              verdict == Some(ctx.regex(c.pattern, r.fields[c.field].value))
    ensures c.FieldValueEnumChecker? && c.field in r.fields ==>
              verdict == Some(r.fields[c.field].value in c.allowed)
    ensures c.FieldItemCountChecker? && c.field in r.fields ==>
              (verdict == Some(true) <==>
                 r.fields[c.field].items != [] && DecimalValue(r.fields[c.field].value) == Some(|r.fields[c.field].items|))
    ensures c.HandleFieldChecker? && c.field in r.fields && verdict == Some(true) ==>
              exists t :: t in ctx.records && t.handle == r.fields[c.field].value && t.recordType == c.expected
    ensures c.HandleFieldChecker? && c.field in r.fields && (forall t :: t in ctx.records ==> t.handle != r.fields[c.field].value) ==>
              verdict == Some(false)
  {
    if c.FieldPresentChecker? then Some(IsPresent(r, c.field))
    else if c.field !in r.fields then None
    else
      var f := r.fields[c.field];
      match c
      case FieldValueRegexpChecker(_, pattern) => Some(ctx.regex(pattern, f.value))
      case FieldValueEnumChecker(_, allowed) => Some(f.value in allowed)
      case FieldItemCountChecker(_) => Some(f.items != [] && DecimalValue(f.value) == Some(|f.items|))
      case HandleFieldChecker(_, expected) =>
        var target := Lookup(ctx.records, f.value);
        Some(target.Some? && target.value.recordType == expected)
  }

  /** An item count written canonically passes exactly when it is the rendering of the number of items. */
  lemma ItemCountCanonical(c: FieldChecker, r: Record, ctx: Context)
    requires c.FieldItemCountChecker? && c.field in r.fields
    requires Canonical(r.fields[c.field].value)
    ensures Check(c, r, ctx) == Some(true) <==>
              r.fields[c.field].items != [] && r.fields[c.field].value == NatToDecimal(|r.fields[c.field].items|)
  {
    DecimalCanonical(r.fields[c.field].value);
    DecimalRoundTrip(|r.fields[c.field].items|);
  }

  /**
   * With unique handles, a handle checker passes exactly when some record
   * carries the referenced handle and has the expected type.
   */
  lemma HandleCheckIff(c: FieldChecker, r: Record, ctx: Context)
    requires c.HandleFieldChecker? && c.field in r.fields
    requires UniqueHandles(ctx.records)
    ensures Check(c, r, ctx) == Some(true) <==>
              exists t :: t in ctx.records && t.handle == r.fields[c.field].value && t.recordType == c.expected
  {
    var value := r.fields[c.field].value;
    if t :| t in ctx.records && t.handle == value && t.recordType == c.expected {
      LookupOwnHandle(ctx.records, t);
    }
  }

  /**
   * Left-to-right conjunction of the checkers: the verdict is that of the
   * first checker that does not pass, or `Some(true)` when all pass.
   */
  function ValidateAll(checkers: seq<FieldChecker>, r: Record, ctx: Context): (verdict: Option<bool>)
    ensures verdict == Some(true) <==>
              forall i :: 0 <= i < |checkers| ==> Check(checkers[i], r, ctx) == Some(true)
    ensures verdict != Some(true) ==>
              exists i :: 0 <= i < |checkers| && Check(checkers[i], r, ctx) == verdict
                       && forall j :: 0 <= j < i ==> Check(checkers[j], r, ctx) == Some(true)
  {
    if checkers == [] then Some(true)
    else
      var first := Check(checkers[0], r, ctx);
      if first != Some(true) then first
      else
        var rest := ValidateAll(checkers[1..], r, ctx);
        assert rest != Some(true) ==>
          (exists i :: 1 <= i < |checkers| && Check(checkers[i], r, ctx) == rest
             && forall j :: 0 <= j < i ==> Check(checkers[j], r, ctx) == Some(true)) by {
          if rest != Some(true) {
            var k :| 0 <= k < |checkers[1..]| && Check(checkers[1..][k], r, ctx) == rest
              && forall j :: 0 <= j < k ==> Check(checkers[1..][j], r, ctx) == Some(true);
            assert Check(checkers[k + 1], r, ctx) == rest;
            forall j | 0 <= j < k + 1 ensures Check(checkers[j], r, ctx) == Some(true) {
              if j > 0 { assert checkers[j] == checkers[1..][j - 1]; }
            }
          }
        }
        rest
  }

  function Validate(v: IndividualValidator, r: Record, ctx: Context): Option<bool> {
    ValidateAll(v.checkers, r, ctx)
  }

  /** Every value checker is preceded, in the same list, by a presence checker for its field. */
  predicate PresenceGuarded(checkers: seq<FieldChecker>) {
    forall i :: 0 <= i < |checkers| && !checkers[i].FieldPresentChecker? ==>
      exists j :: 0 <= j < i && checkers[j] == FieldPresentChecker(checkers[i].field)
  }

  /** A presence-guarded validator always reaches a verdict, whatever fields the record has. */
  lemma GuardedValidatorIsDefined(checkers: seq<FieldChecker>, r: Record, ctx: Context)
    requires PresenceGuarded(checkers)
    ensures ValidateAll(checkers, r, ctx).Some?
  {
  }

  /** A record that passes a presence-guarded validator has every field the validator names. */
  lemma GuardedValidRecordHasFields(checkers: seq<FieldChecker>, r: Record, ctx: Context)
    requires PresenceGuarded(checkers)
    requires ValidateAll(checkers, r, ctx) == Some(true)
    ensures forall i :: 0 <= i < |checkers| ==> IsPresent(r, checkers[i].field)
  {
    forall i | 0 <= i < |checkers| ensures IsPresent(r, checkers[i].field) {
      if !checkers[i].FieldPresentChecker? {
        var j :| 0 <= j < i && checkers[j] == FieldPresentChecker(checkers[i].field);
        assert Check(checkers[j], r, ctx) == Some(true);
      } else {
        assert Check(checkers[i], r, ctx) == Some(true);
      }
    }
  }
}
