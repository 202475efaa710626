/** Security group rules, resources/security_groups.go.  Rules are sent without the fields that hold
    their default; when read back, defaults are filled in and numbers that JSON turned into floats
    are turned back. */
module SecurityRules {
  import opened Wrappers

  datatype Value = IntV(i: int) | FloatV(f: real) | BoolV(b: bool) | StrV(s: string)

  type Fields = map<string, Value>

  /** A Go map, shared with the caller. */
  class Rule {
    var fields: Fields

    constructor (fields: Fields)
      ensures this.fields == fields
    {
      this.fields := fields;
    }
  }

  const DEFAULTS: Fields := map[
    "code" := IntV(-1),
    "log" := BoolV(false),
    "type" := IntV(-1),
    "ports" := StrV(""),
    "destination" := StrV(""),
    "description" := StrV("")]

  predicate IsNumber(key: string) { key == "code" || key == "type" }

  /** The type the code asserts for a field; fields it does not know may hold anything. */
  predicate WellTyped(key: string, value: Value) {
    if IsNumber(key) then value.IntV?
    else if key == "log" then value.BoolV?
    else if key == "ports" || key == "destination" || key == "description" then value.StrV?
    else true
  }

  predicate IsDefault(key: string, value: Value) {
    key in DEFAULTS && DEFAULTS[key] == value
  }

  /** The types, field by field. */
  predicate HasFieldType(key: string, value: Value) {
    && (key in ["code", "type"] ==> value.IntV?)
    && (key == "log" ==> value.BoolV?)
    && (key in ["ports", "destination", "description"] ==> value.StrV?)
  }

  /** The values not worth sending, field by field. */
  predicate IsDefaultField(key: string, value: Value) {
    || (key in ["code", "type"] && value == IntV(-1))
    || (key == "log" && value == BoolV(false))
    || (key in ["ports", "destination", "description"] && value == StrV(""))
  }

  lemma FieldByField(key: string, value: Value)
    ensures WellTyped(key, value) <==> HasFieldType(key, value)
    ensures IsDefault(key, value) <==> IsDefaultField(key, value)
  {
    var strings, numbers := ["ports", "destination", "description"], ["code", "type"];
    assert strings[0] == "ports" && strings[1] == "destination" && strings[2] == "description";
    assert numbers[0] == "code" && numbers[1] == "type";
  }

  ghost predicate AllTyped(m: Fields) { forall k :: k in m ==> WellTyped(k, m[k]) }

  function Sanitized(m: Fields): Fields {
    map k | k in m && !IsDefault(k, m[k]) :: m[k]
  }

  /** sanitizeRule: None is the panic of a failed type assertion. */
  method SanitizeRule(rule: Rule) returns (r: Option<Fields>)
    ensures r.Some? <==> AllTyped(rule.fields)
    ensures r.Some? ==> r.value == Sanitized(rule.fields)
    ensures r.Some? <==> forall k :: k in rule.fields ==> HasFieldType(k, rule.fields[k])
    ensures r.Some? ==> r.value.Keys <= rule.fields.Keys && forall k :: k in rule.fields ==>
              if IsDefaultField(k, rule.fields[k]) then k !in r.value
              else k in r.value && r.value[k] == rule.fields[k]
  {
    var m, sanitized: Fields := rule.fields, map[];
    var keys := m.Keys;
    forall k, v {
      FieldByField(k, v);
    }
    while keys != {}
      invariant keys <= m.Keys
      invariant forall k :: k in m.Keys - keys ==> WellTyped(k, m[k])
      invariant sanitized == map k | k in m.Keys - keys && !IsDefault(k, m[k]) :: m[k]
    {
      var key :| key in keys;
      if !WellTyped(key, m[key]) {
        return None;
      }
      keys := keys - {key};
      if IsDefault(key, m[key]) {
        continue;
      }
      sanitized := sanitized[key := m[key]];
    }
    return Some(sanitized);
  }

  /** Conversion of a float to an int drops the fraction. */
  function Truncated(f: real): int {
    if f >= 0.0 then f.Floor else -((-f).Floor)
  }

  /** convertRuleParamFloatToInt: the integer, or the float rounded towards zero; nothing else converts. */
  function ConvertParam(value: Value): (r: Option<int>)
    ensures r.Some? <==> value.IntV? || value.FloatV?
    ensures value.IntV? ==> r.value == value.i
    ensures value.FloatV? && value.f >= 0.0 ==> 0.0 <= r.value as real <= value.f < r.value as real + 1.0
    ensures value.FloatV? && value.f <= 0.0 ==> r.value as real - 1.0 < value.f <= r.value as real <= 0.0
  {
    match value
    case IntV(i) => Some(i)
    case FloatV(f) => Some(Truncated(f))
    case _ => None
  }

  lemma WholeFloat(i: int)
    ensures ConvertParam(FloatV(i as real)) == Some(i)
  {
  }

  predicate Convertible(m: Fields) {
    forall k :: k in m && IsNumber(k) ==> ConvertParam(m[k]).Some?
  }

  function Converted(m: Fields): Fields
    requires Convertible(m)
  {
    map k | k in m :: if IsNumber(k) then IntV(ConvertParam(m[k]).value) else m[k]
  }

  function Unsanitized(m: Fields): Fields
    requires Convertible(m)
  {
    DEFAULTS + Converted(m)
  }

  /** m with one number converted. */
  function WithNumber(m: Fields, key: string): Fields
    requires key in m ==> ConvertParam(m[key]).Some?
  {
    if key in m then m[key := IntV(ConvertParam(m[key]).value)] else m
  }

  lemma BothNumbersConverted(m: Fields)
    requires Convertible(m)
    ensures WithNumber(WithNumber(m, "code"), "type") == Converted(m)
  {
  }

  /** The defaults of the keys that m lacks. */
  function MissingDefaults(m: Fields): Fields {
    map k | k in DEFAULTS && k !in m :: DEFAULTS[k]
  }

  /** Copies every field of a map into another. */
  method CopyInto(into: Fields, m: Fields) returns (copied: Fields)
    ensures copied == into + m
  {
    copied := into;
    var keys := m.Keys;
    while keys != {}
      invariant keys <= m.Keys
      invariant copied == into + map k | k in m.Keys - keys :: m[k]
    {
      var key :| key in keys;
      keys := keys - {key};
      copied := copied[key := m[key]];
    }
    assert (map k | k in m.Keys - keys :: m[k]) == m;
  }

  /** The defaults of those of the given keys that m lacks. */
  function MissingAmong(m: Fields, keys: set<string>): Fields {
    map k | k in keys && k in DEFAULTS && k !in m :: DEFAULTS[k]
  }

  lemma OneMoreKey(m: Fields, keys: set<string>, key: string)
    requires key in DEFAULTS
    ensures MissingAmong(m, keys + {key}) ==
            if key in m then MissingAmong(m, keys) else MissingAmong(m, keys)[key := DEFAULTS[key]]
  {
  }

  /** The defaults the code writes one by one. */
  method FillMissing(m: Fields) returns (filled: Fields)
    ensures filled == MissingDefaults(m)
  {
    filled := FillFirstHalf(m);
    if "ports" !in m { filled := filled["ports" := StrV("")]; }
    OneMoreKey(m, {"code", "log", "type"}, "ports");
    if "destination" !in m { filled := filled["destination" := StrV("")]; }
    OneMoreKey(m, {"code", "log", "type"} + {"ports"}, "destination");
    if "description" !in m { filled := filled["description" := StrV("")]; }
    OneMoreKey(m, {"code", "log", "type"} + {"ports"} + {"destination"}, "description");
    AllKeys(m);
  }

  method FillFirstHalf(m: Fields) returns (filled: Fields)
    ensures filled == MissingAmong(m, {"code", "log", "type"})
  {
    filled := map[];
    assert filled == MissingAmong(m, {});
    if "code" !in m { filled := filled["code" := IntV(-1)]; }
    OneMoreKey(m, {}, "code");
    if "log" !in m { filled := filled["log" := BoolV(false)]; }
    OneMoreKey(m, {} + {"code"}, "log");
    if "type" !in m { filled := filled["type" := IntV(-1)]; }
    OneMoreKey(m, {} + {"code"} + {"log"}, "type");
    assert {} + {"code"} + {"log"} + {"type"} == {"code", "log", "type"};
  }

  lemma AllKeys(m: Fields)
    ensures MissingAmong(m, {"code", "log", "type"} + {"ports"} + {"destination"} + {"description"}) ==
            MissingDefaults(m)
  {
  }

  /** unSanitizeRule.  The result is a new map; the argument is changed too, its code and type become
      integers.  None is the panic of a value that is not a number; a code that is one is converted even
      then. */
  method UnSanitizeRule(rule: Rule) returns (r: Option<Fields>)
    modifies rule
    ensures r.Some? <==> Convertible(old(rule.fields))
    ensures r.Some? <==> forall k :: k in ["code", "type"] && k in old(rule.fields) ==>
              old(rule.fields)[k].IntV? || old(rule.fields)[k].FloatV?
    ensures r.Some? ==> r.value == Unsanitized(old(rule.fields)) && rule.fields == Converted(old(rule.fields))
    ensures r.Some? ==> IsCompleted(old(rule.fields), r.value)
    ensures r.None? ==>
              var m := old(rule.fields);
              rule.fields == if "code" in m && ConvertParam(m["code"]).Some?
                             then m["code" := IntV(ConvertParam(m["code"]).value)] else m
  {
    ghost var m := rule.fields;
    var filled := FillMissing(rule.fields);
    if "code" in rule.fields {
      var n := ConvertParam(rule.fields["code"]);
      if n.None? {
        return None;
      }
      rule.fields := rule.fields["code" := IntV(n.value)];
    }
    assert rule.fields == WithNumber(m, "code");
    if "type" in rule.fields {
      var n := ConvertParam(rule.fields["type"]);
      if n.None? {
        assert m["type"] == rule.fields["type"] && IsNumber("type");
        return None;
      }
      rule.fields := rule.fields["type" := IntV(n.value)];
    }
    BothNumbersConverted(m);
    filled := CopyInto(filled, rule.fields);
    MissingOrGiven(m);
    UnsanitizedIsCompleted(m);
    return Some(filled);
  }

  ghost predicate Holds(m: Fields, key: string, value: Value) { key in m && m[key] == value }

  /** completed has the fields of m, numbers as integers, and the six fields a rule must have; those that m
      lacks have code -1, log false, type -1 and empty strings. */
  ghost predicate IsCompleted(m: Fields, completed: Fields) {
    && completed.Keys == m.Keys + {"code", "log", "type", "ports", "destination", "description"}
    && ("code" !in m ==> Holds(completed, "code", IntV(-1)))
    && ("type" !in m ==> Holds(completed, "type", IntV(-1)))
    && ("log" !in m ==> Holds(completed, "log", BoolV(false)))
    && ("ports" !in m ==> Holds(completed, "ports", StrV("")))
    && ("destination" !in m ==> Holds(completed, "destination", StrV("")))
    && ("description" !in m ==> Holds(completed, "description", StrV("")))
    && forall k :: k in m ==>
         if k in ["code", "type"] then ConvertParam(m[k]).Some? && completed[k] == IntV(ConvertParam(m[k]).value)
         else completed[k] == m[k]
  }

  lemma UnsanitizedIsCompleted(m: Fields)
    requires Convertible(m)
    ensures IsCompleted(m, Unsanitized(m))
  {
    var numbers, u := ["code", "type"], Unsanitized(m);
    assert numbers[0] == "code" && numbers[1] == "type";
    forall k | k in m
      ensures u[k] == Converted(m)[k]
    {
    }
    assert DEFAULTS.Keys == {"code", "log", "type", "ports", "destination", "description"};
  }

  lemma MissingOrGiven(m: Fields)
    requires Convertible(m)
    ensures MissingDefaults(m) + Converted(m) == Unsanitized(m)
  {
  }

  // ----- Round trips -----

  /** m' is m after a trip through JSON, which may turn the numbers into floats. */
  ghost predicate MaybeFloated(m: Fields, m': Fields) {
    && m'.Keys == m.Keys
    && forall k :: k in m ==>
         m'[k] == m[k] || (IsNumber(k) && m[k].IntV? && m'[k] == FloatV(m[k].i as real))
  }

  /** Unsanitize after sanitize, also with floats in between: the identity if and only if the rule has
      every field that has a default. */
  lemma UnsanitizeSanitizeIff(m: Fields, m': Fields)
    requires AllTyped(m) && MaybeFloated(Sanitized(m), m')
    ensures Convertible(m')
    ensures Unsanitized(m') == m <==> DEFAULTS.Keys <= m.Keys
  {
    var sanitized := Sanitized(m);
    forall k | k in m' && IsNumber(k)
      ensures ConvertParam(m'[k]).Some? && IntV(ConvertParam(m'[k]).value) == m[k]
    {
      assert WellTyped(k, m[k]);
      assert m'[k] == IntV(m[k].i) || m'[k] == FloatV(m[k].i as real);
      WholeFloat(m[k].i);
    }
    var u := Unsanitized(m');
    assert u.Keys == DEFAULTS.Keys + m'.Keys;
    if DEFAULTS.Keys <= m.Keys {
      assert u.Keys == m.Keys;
      forall k | k in m
        ensures u[k] == m[k]
      {
        if k in m' {
          assert m'[k] == m[k] || IsNumber(k);
        } else {
          assert IsDefault(k, m[k]);
        }
      }
    }
  }

  /** A rule that sanitize and unsanitize may have left: no default value, integer numbers. */
  ghost predicate IsMinimal(m: Fields) {
    forall k :: k in m ==> !IsDefault(k, m[k]) && (IsNumber(k) ==> m[k].IntV?)
  }

  lemma MinimalComesBack(m: Fields)
    requires Convertible(m) && IsMinimal(m)
    ensures Sanitized(Unsanitized(m)) == m
  {
    var u := Unsanitized(m);
    forall k | k in m
      ensures k in u && u[k] == m[k]
    {
      assert Converted(m)[k] == m[k];
    }
    assert Sanitized(u).Keys == m.Keys;
  }

  lemma MinimalIfItComesBack(m: Fields)
    requires Convertible(m) && Sanitized(Unsanitized(m)) == m
    ensures IsMinimal(m)
  {
    var u := Unsanitized(m);
    forall k | k in m
      ensures !IsDefault(k, m[k]) && (IsNumber(k) ==> m[k].IntV?)
    {
      assert Sanitized(u)[k] == u[k] == Converted(m)[k];
    }
  }

  /** Sanitize after unsanitize: the identity if and only if the rule holds no default value and its
      numbers are integers. */
  lemma SanitizeUnsanitizeIff(m: Fields)
    requires Convertible(m) && forall k :: k in m && !IsNumber(k) ==> WellTyped(k, m[k])
    ensures AllTyped(Unsanitized(m))
    ensures Sanitized(Unsanitized(m)) == m <==> IsMinimal(m)
  {
    var u := Unsanitized(m);
    forall k | k in u
      ensures WellTyped(k, u[k])
    {
      assert u[k] == if k in m then Converted(m)[k] else DEFAULTS[k];
    }
    if IsMinimal(m) {
      MinimalComesBack(m);
    }
    if Sanitized(u) == m {
      MinimalIfItComesBack(m);
    }
  }
}
