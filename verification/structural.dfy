/** The local pre-check validate_rule runs over the loaded rule file before asking the
    model (app/rule_engine.py:191-213). */
module Structural {
  import opened Outcomes
  import opened Text
  import opened Yaml

  const NotListError := "Rule file must be a YAML list (starting with '-')"

  /** The keys a rule must carry, in the order they are checked. */
  const RequiredFields: seq<string> := ["desc", "condition", "output", "priority"]

  /** Falco's priorities, most severe first. */
  const PriorityLevels: seq<string> :=
    ["EMERGENCY", "ALERT", "CRITICAL", "ERROR", "WARNING", "NOTICE", "INFORMATIONAL", "DEBUG"]

  function MissingFieldError(name: string, field: string): string {
    "Rule '" + name + "' missing required field: '" + field + "'"
  }

  function InvalidPriorityError(priority: string): string {
    "Invalid priority '" + priority + "'. Must be one of: " + Join(", ", PriorityLevels)
  }

  /** The text of the AttributeError that `priority.upper()` raises on a non-string. */
  function NoUpperError(priority: YamlValue): string {
    "'" + TypeName(priority) + "' object has no attribute 'upper'"
  }

  /** What checking an item, or a whole document, comes to: the errors it appends, or
      the exception that escapes (it is not a yaml.YAMLError, so nothing catches it). */
  datatype Check = Errors(errors: seq<string>) | Raised(error: string)

  /** A mapping with a `rule` key; macros, lists and anything else are not checked. */
  predicate IsRuleItem(item: YamlValue) {
    item.YMap? && HasKey(item, "rule")
  }

  /** The name the messages print: str(item.get('rule', 'unknown')). */
  function RuleName(item: YamlValue): string
    requires item.YMap?
  {
    Str(Get(item, "rule", YStr("unknown")))
  }

  /** One error per field of `fields` the item lacks, in the order of `fields`. */
  function MissingFieldErrors(item: YamlValue, fields: seq<string>): seq<string>
    requires item.YMap?
  {
    if fields == [] then []
    else
      var field := fields[|fields| - 1];
      MissingFieldErrors(item, fields[..|fields| - 1])
        + (if HasKey(item, field) then [] else [MissingFieldError(RuleName(item), field)])
  }

  /** The priority test: an absent or falsy priority passes; a truthy non-string makes
      `.upper()` raise; a string passes when its upper case is a level. */
  function PriorityCheck(item: YamlValue): Check
    requires item.YMap?
  {
    var priority := Get(item, "priority", YStr(""));
    if !Truthy(priority) then Errors([])
    else if !priority.YStr? then Raised(NoUpperError(priority))
    else if Upper(priority.s) in PriorityLevels then Errors([])
    else Errors([InvalidPriorityError(priority.s)])
  }

  /** The errors one item of the document adds. */
  function ItemCheck(item: YamlValue): Check {
    if !IsRuleItem(item) then Errors([])
    else match PriorityCheck(item)
      case Raised(e) => Raised(e)
      case Errors(p) => Errors(MissingFieldErrors(item, RequiredFields) + p)
  }

  /** Running one check after another: errors accumulate, the first exception wins. */
  function Then(first: Check, second: Check): Check {
    match first
    case Raised(_) => first
    case Errors(a) =>
      match second
      case Raised(_) => second
      case Errors(b) => Errors(a + b)
  }

  /** The items checked in document order. */
  function ItemsCheck(items: seq<YamlValue>): Check {
    if items == [] then Errors([])
    else Then(ItemsCheck(items[..|items| - 1]), ItemCheck(items[|items| - 1]))
  }

  /** The pre-check of a loaded document: `pre_errors`, or the exception it raises. */
  function StructuralErrors(parsed: YamlValue): Check {
    if !parsed.YList? then Errors([NotListError]) else ItemsCheck(parsed.items)
  }

  /** The body of the pre-check loop for one item (app/rule_engine.py:199-213): the
      missing-field errors field by field, then the priority test. */
  method CheckItem(item: YamlValue) returns (c: Check)
    ensures c == ItemCheck(item)
  {
    if !(item.YMap? && HasKey(item, "rule")) {
      return Errors([]);
    }
    var errors: seq<string> := [];
    var j := 0;
    while j < |RequiredFields|
      invariant 0 <= j <= |RequiredFields|
      invariant errors == MissingFieldErrors(item, RequiredFields[..j])
    {
      var field := RequiredFields[j];
      assert RequiredFields[..j + 1][..j] == RequiredFields[..j];
      if !HasKey(item, field) {
        errors := errors + [MissingFieldError(RuleName(item), field)];
      }
      j := j + 1;
    }
    assert RequiredFields[..j] == RequiredFields;
    var priority := Get(item, "priority", YStr(""));
    if Truthy(priority) {
      if !priority.YStr? {
        return Raised(NoUpperError(priority));
      }
      if Upper(priority.s) !in PriorityLevels {
        errors := errors + [InvalidPriorityError(priority.s)];
      }
    }
    return Errors(errors);
  }

  /** The pre-check loop of validate_rule (app/rule_engine.py:192-213): a list of
      errors appended to item by item, in document order. */
  method StructuralCheck(parsed: YamlValue) returns (r: Check)
    ensures r == StructuralErrors(parsed)
    ensures !parsed.YList? ==> r == Errors([NotListError])
  {
    if !parsed.YList? {
      return Errors([NotListError]);
    }
    var items := parsed.items;
    var preErrors: seq<string> := [];
    var i := 0;
    while i < |items|
      invariant 0 <= i <= |items|
      invariant ItemsCheck(items[..i]) == Errors(preErrors)
    {
      assert items[..i + 1][..i] == items[..i];
      var c := CheckItem(items[i]);
      if c.Raised? {
        ItemsCheckAppend(items[..i + 1], items[i + 1..]);
        assert items[..i + 1] + items[i + 1..] == items;
        return c;
      }
      preErrors := preErrors + c.errors;
      i := i + 1;
    }
    assert items[..i] == items;
    return Errors(preErrors);
  }

  // ----- properties of the pre-check -----

  lemma ThenAssociative(x: Check, y: Check, z: Check)
    ensures Then(Then(x, y), z) == Then(x, Then(y, z))
  {
  }

  /** Checking a document split in two is checking the halves one after the other:
      items are reported in document order. */
  lemma {:induction false} ItemsCheckAppend(a: seq<YamlValue>, b: seq<YamlValue>)
    ensures ItemsCheck(a + b) == Then(ItemsCheck(a), ItemsCheck(b))
  {
    if b == [] {
      assert a + b == a;
    } else {
      var b' := b[..|b| - 1];
      assert (a + b)[..|a + b| - 1] == a + b';
      assert (a + b)[|a + b| - 1] == b[|b| - 1];
      ItemsCheckAppend(a, b');
      ThenAssociative(ItemsCheck(a), ItemsCheck(b'), ItemCheck(b[|b| - 1]));
    }
  }

  /** Items that are not rules (macros, lists, scalars) add nothing: removing one from
      anywhere in the document leaves the outcome as it was. */
  lemma NonRuleItemIgnored(a: seq<YamlValue>, x: YamlValue, b: seq<YamlValue>)
    requires !IsRuleItem(x)
    ensures ItemsCheck(a + [x] + b) == ItemsCheck(a + b)
  {
    ItemsCheckAppend(a + [x], b);
    ItemsCheckAppend(a, [x]);
    assert ItemsCheck([x]) == Errors([]) by {
      assert [x][..0] == [];
    }
    ItemsCheckAppend(a, b);
    assert Then(ItemsCheck(a), Errors([])) == ItemsCheck(a) by {
      if ItemsCheck(a).Errors? {
        assert ItemsCheck(a).errors + [] == ItemsCheck(a).errors;
      }
    }
  }

  /** A field list split in two gives the errors of the halves one after the other. */
  lemma {:induction false} MissingFieldErrorsAppend(item: YamlValue, a: seq<string>, b: seq<string>)
    requires item.YMap?
    ensures MissingFieldErrors(item, a + b) == MissingFieldErrors(item, a) + MissingFieldErrors(item, b)
  {
    if b == [] {
      assert a + b == a;
    } else {
      var b' := b[..|b| - 1];
      assert (a + b)[..|a + b| - 1] == a + b';
      assert (a + b)[|a + b| - 1] == b[|b| - 1];
      MissingFieldErrorsAppend(item, a, b');
    }
  }

  /** Exactly the absent fields are reported, each by its own message, and nothing is
      reported when every field is present. */
  lemma {:induction false} MissingFieldErrorsExact(item: YamlValue, fields: seq<string>)
    requires item.YMap?
    ensures |MissingFieldErrors(item, fields)| <= |fields|
    ensures forall f :: f in fields && !HasKey(item, f) ==>
      MissingFieldError(RuleName(item), f) in MissingFieldErrors(item, fields)
    ensures forall e :: e in MissingFieldErrors(item, fields) ==>
      exists f :: f in fields && !HasKey(item, f) && e == MissingFieldError(RuleName(item), f)
    ensures MissingFieldErrors(item, fields) == [] <==> forall f :: f in fields ==> HasKey(item, f)
  {
    if fields != [] {
      var init := fields[..|fields| - 1];
      var last := fields[|fields| - 1];
      MissingFieldErrorsExact(item, init);
      assert fields == init + [last];
      forall f | f in fields
        ensures f in init || f == last
      {
      }
    }
  }

  /** Different fields give different messages for the same rule. */
  lemma MissingFieldErrorInjective(name: string, f: string, g: string)
    ensures MissingFieldError(name, f) == MissingFieldError(name, g) ==> f == g
  {
    var pre := "Rule '" + name + "' missing required field: '";
    assert MissingFieldError(name, f) == pre + f + "'";
    assert MissingFieldError(name, g) == pre + g + "'";
    assert (pre + f + "'")[|pre|..|pre| + |f|] == f;
    assert (pre + g + "'")[|pre|..|pre| + |g|] == g;
  }

  /** When the fields to check are distinct, so are the messages: each absent field is
      reported once. */
  lemma {:induction false} MissingFieldErrorsDistinct(item: YamlValue, fields: seq<string>)
    requires item.YMap?
    requires forall i, j :: 0 <= i < j < |fields| ==> fields[i] != fields[j]
    ensures var errors := MissingFieldErrors(item, fields);
      forall i, j :: 0 <= i < j < |errors| ==> errors[i] != errors[j]
  {
    if fields != [] {
      var init := fields[..|fields| - 1];
      var last := fields[|fields| - 1];
      MissingFieldErrorsDistinct(item, init);
      MissingFieldErrorsExact(item, init);
      var before := MissingFieldErrors(item, init);
      if !HasKey(item, last) {
        var m := MissingFieldError(RuleName(item), last);
        assert MissingFieldErrors(item, fields) == before + [m];
        forall e | e in before
          ensures e != m
        {
          var f :| f in init && !HasKey(item, f) && e == MissingFieldError(RuleName(item), f);
          MissingFieldErrorInjective(RuleName(item), f, last);
        }
        var errors := before + [m];
        forall i, j | 0 <= i < j < |errors|
          ensures errors[i] != errors[j]
        {
          if j == |before| {
            assert errors[i] in before;
          }
        }
      } else {
        assert MissingFieldErrors(item, fields) == before;
      }
    }
  }

  /** A rule item gets at most four messages about absent fields, none of them twice. */
  lemma RequiredFieldsReportedOnce(item: YamlValue)
    requires item.YMap?
    ensures var errors := MissingFieldErrors(item, RequiredFields);
      |errors| <= 4 && forall i, j :: 0 <= i < j < |errors| ==> errors[i] != errors[j]
  {
    MissingFieldErrorsExact(item, RequiredFields);
    assert RequiredFields[0][0] == 'd' && RequiredFields[1][0] == 'c';
    assert RequiredFields[2][0] == 'o' && RequiredFields[3][0] == 'p';
    MissingFieldErrorsDistinct(item, RequiredFields);
  }

  /** The rule's name is printed as is: the 'unknown' fallback can never be used,
      since only items that have a `rule` key are checked. */
  lemma UnknownNameUnreachable(item: YamlValue)
    requires IsRuleItem(item)
    ensures Lookup(item.entries, YStr("rule")).Some?
    ensures RuleName(item) == Str(Lookup(item.entries, YStr("rule")).value)
  {
  }

  /** The message for a bad priority lists the eight levels, most severe first. */
  lemma PriorityListing()
    ensures Join(", ", PriorityLevels)
      == "EMERGENCY" + ", " + "ALERT" + ", " + "CRITICAL" + ", " + "ERROR" + ", "
         + "WARNING" + ", " + "NOTICE" + ", " + "INFORMATIONAL" + ", " + "DEBUG"
  {
    JoinEight(", ", PriorityLevels);
  }

  /** Priorities are case-insensitive: every level written in lower case passes. */
  lemma LowerCaseLevelAccepted(k: nat)
    requires k < |PriorityLevels|
    ensures Upper(Lower(PriorityLevels[k])) == PriorityLevels[k]
  {
    assert IsAsciiUpper(PriorityLevels[k]);
    UpperOfLower(PriorityLevels[k]);
  }

  /** How a rule item's priority decides its errors: a missing or empty priority adds
      only the missing-field errors; a string whose upper case is a level adds nothing
      more; any other string adds exactly one error, after the missing-field errors. */
  lemma RulePriorityErrors(item: YamlValue, p: string)
    requires IsRuleItem(item)
    requires Get(item, "priority", YStr("")) == YStr(p)
    ensures p == "" || Upper(p) in PriorityLevels ==>
      ItemCheck(item) == Errors(MissingFieldErrors(item, RequiredFields))
    ensures p != "" && Upper(p) !in PriorityLevels ==>
      ItemCheck(item) == Errors(MissingFieldErrors(item, RequiredFields) + [InvalidPriorityError(p)])
    ensures !HasKey(item, "priority") ==>
      (p == "" && MissingFieldError(RuleName(item), "priority") in MissingFieldErrors(item, RequiredFields))
  {
    MissingFieldErrorsExact(item, RequiredFields);
  }

  /** A truthy priority that is not a string makes the whole pre-check raise, once the
      items before it have passed; what follows it is never looked at. */
  lemma NonStringPriorityRaises(a: seq<YamlValue>, item: YamlValue, b: seq<YamlValue>)
    requires IsRuleItem(item)
    requires Truthy(Get(item, "priority", YStr(""))) && !Get(item, "priority", YStr("")).YStr?
    requires ItemsCheck(a).Errors?
    ensures StructuralErrors(YList(a + [item] + b)) == Raised(NoUpperError(Get(item, "priority", YStr(""))))
  {
    ItemsCheckAppend(a + [item], b);
    ItemsCheckAppend(a, [item]);
    assert ItemsCheck([item]) == ItemCheck(item) by {
      assert [item][..0] == [];
    }
  }
}
