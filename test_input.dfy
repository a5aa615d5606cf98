/** The test input the studio sends to a run (`buildTestInput` and
    `parseFieldValue` in src/components/RuleStudio.tsx): the JSON text is
    parsed as the base object, then every key/value field row with a
    non-blank key is laid over it, later rows winning. */
module TestInput {
  import opened Wrappers
  import opened Text
  import opened Values
  import opened Records

  /** One key/value row of the field editor. */
  datatype Field = Field(key: string, value: string)

  /** The parsers a field value goes through: `Number(text)` when it is not
      `NaN`, and `JSON.parse(text)` when it does not throw. */
  datatype ValueParsers = ValueParsers(number: string -> Option<Value>, json: string -> Option<Value>)

  /** `parseFieldValue(value)`: literals and numbers are read from the
      trimmed text; what no parser accepts stays the text as typed. */
  function ParseFieldValue(p: ValueParsers, value: string): (r: Value)
    ensures IsBlank(value) ==> r == Str("")
    ensures Trim(value) == "true" ==> r == Bool(true)
    ensures Trim(value) == "false" ==> r == Bool(false)
    ensures Trim(value) == "null" ==> r == Null
    ensures Trim(value) !in {"", "true", "false", "null"} ==>
      r == (if p.number(Trim(value)).Some? then p.number(Trim(value)).value
            else if p.json(Trim(value)).Some? then p.json(Trim(value)).value
            else Str(value))
  {
    var trimmed := Trim(value);
    if trimmed == "" then Str("")
    else if trimmed == "true" then Bool(true)
    else if trimmed == "false" then Bool(false)
    else if trimmed == "null" then Null
    else if p.number(trimmed).Some? then p.number(trimmed).value
    else if p.json(trimmed).Some? then p.json(trimmed).value
    else Str(value)
  }

  /** Surrounding whitespace changes a field's value only when no parser
      accepts the text, which then keeps its whitespace. */
  lemma ParseFieldValueTrim(p: ValueParsers, value: string)
    requires ParseFieldValue(p, value) != Str(value)
    ensures ParseFieldValue(p, value) == ParseFieldValue(p, Trim(value))
  {
    TrimNoop(Trim(value));
  }

  /** What one row writes: nothing when its trimmed key is blank, else the
      trimmed key and the parsed value. */
  function Row(p: ValueParsers, f: Field): (r: Option<(string, Value)>)
    ensures r.None? <==> IsBlank(f.key)
    ensures r.Some? ==> r.value.0 == Trim(f.key) && r.value.0 != "" && r.value.1 == ParseFieldValue(p, f.value)
  {
    var key := Trim(f.key);
    if key == "" then None else Some((key, ParseFieldValue(p, f.value)))
  }

  function Rows(p: ValueParsers, fields: seq<Field>): (r: seq<Option<(string, Value)>>)
    ensures |r| == |fields| && forall i :: 0 <= i < |fields| ==> r[i] == Row(p, fields[i])
  {
    seq(|fields|, i requires 0 <= i < |fields| => Row(p, fields[i]))
  }

  /** A map with writes laid over it in order, skipping the empty ones. */
  function Lay<K(==), V>(base: map<K, V>, writes: seq<Option<(K, V)>>): map<K, V> {
    if writes == [] then base
    else
      var merged := Lay(base, writes[..|writes| - 1]);
      match writes[|writes| - 1]
      case None => merged
      case Some((k, v)) => merged[k := v]
  }

  /** Laying one more write from a sequence of writes. */
  lemma LayStep<K, V>(base: map<K, V>, writes: seq<Option<(K, V)>>, k: nat)
    requires k < |writes|
    ensures Lay(base, writes[..k + 1]) ==
      if writes[k].None? then Lay(base, writes[..k])
      else Lay(base, writes[..k])[writes[k].value.0 := writes[k].value.1]
  {
    assert writes[..k + 1][..k] == writes[..k];
  }

  /** The position of the last write to `k`, -1 if none. */
  function LastWrite<K(==), V>(writes: seq<Option<(K, V)>>, k: K): (i: int)
    ensures -1 <= i < |writes|
    ensures i >= 0 ==> writes[i].Some? && writes[i].value.0 == k
    ensures forall j :: i < j < |writes| ==> writes[j].None? || writes[j].value.0 != k
  {
    if writes == [] then -1
    else if writes[|writes| - 1].Some? && writes[|writes| - 1].value.0 == k then |writes| - 1
    else LastWrite(writes[..|writes| - 1], k)
  }

  /** A key holds the value of its last write, or the base's value when it
      is never written. */
  lemma {:induction false} LayLookup<K, V>(base: map<K, V>, writes: seq<Option<(K, V)>>, k: K)
    ensures var r, i := Lay(base, writes), LastWrite(writes, k);
      (k in r <==> k in base || i >= 0) &&
      (i >= 0 ==> r[k] == writes[i].value.1) &&
      (i < 0 && k in base ==> r[k] == base[k])
  {
    if writes != [] {
      LayLookup(base, writes[..|writes| - 1], k);
    }
  }

  /** The keys of the result are the base's and the written ones. */
  lemma {:induction false} LayKeys<K, V>(base: map<K, V>, writes: seq<Option<(K, V)>>)
    ensures Lay(base, writes).Keys ==
      base.Keys + set i | 0 <= i < |writes| && writes[i].Some? :: writes[i].value.0
  {
    if writes != [] {
      var init := writes[..|writes| - 1];
      LayKeys(base, init);
      var all := set i | 0 <= i < |writes| && writes[i].Some? :: writes[i].value.0;
      var before := set i | 0 <= i < |init| && init[i].Some? :: init[i].value.0;
      var w := writes[|writes| - 1];
      assert all == before + (if w.Some? then {w.value.0} else {}) by {
        forall x | x in all ensures x in before + (if w.Some? then {w.value.0} else {}) {
          var i :| 0 <= i < |writes| && writes[i].Some? && writes[i].value.0 == x;
          if i < |init| { assert init[i] == writes[i]; }
        }
        forall x | x in before ensures x in all {
          var i :| 0 <= i < |init| && init[i].Some? && init[i].value.0 == x;
          assert writes[i] == init[i];
        }
      }
    }
  }

  /** The rows laid over the base: a non-blank trimmed key holds the value
      of the last row with that key, any other key keeps the base's value,
      and a blank key is never written. */
  lemma OverlayLookup(p: ValueParsers, base: Object, fields: seq<Field>, k: string)
    ensures var r, i := Lay(base, Rows(p, fields)), LastWrite(Rows(p, fields), k);
      (k in r <==> k in base || i >= 0) &&
      (i >= 0 ==> k != "" && Trim(fields[i].key) == k && r[k] == ParseFieldValue(p, fields[i].value)) &&
      (i >= 0 ==> forall j :: i < j < |fields| ==> IsBlank(fields[j].key) || Trim(fields[j].key) != k) &&
      (i < 0 && k in base ==> r[k] == base[k])
  {
    LayLookup(base, Rows(p, fields), k);
  }

  /** `buildTestInput()`: an unparseable base is rejected with
      "Invalid JSON input."; otherwise the rows are laid over it. */
  method BuildTestInput(codec: Codec, p: ValueParsers, testInput: string, fields: seq<Field>)
    returns (r: Result<Object, string>)
    ensures ParseInput(codec, testInput).None? ==> r == Err("Invalid JSON input.")
    ensures ParseInput(codec, testInput).Some? ==>
      r == Ok(Lay(ParseInput(codec, testInput).value, Rows(p, fields)))
  {
    var base := ParseInput(codec, testInput);
    if base.None? {
      return Err("Invalid JSON input.");
    }
    ghost var writes := Rows(p, fields);
    var merged := base.value;
    var k := 0;
    while k < |fields|
      invariant 0 <= k <= |fields|
      invariant merged == Lay(base.value, writes[..k])
    {
      LayStep(base.value, writes, k);
      assert writes[k] == Row(p, fields[k]);
      var key := Trim(fields[k].key);
      if key != "" {
        merged := merged[key := ParseFieldValue(p, fields[k].value)];
      }
      k := k + 1;
    }
    assert writes[..|fields|] == writes;
    r := Ok(merged);
  }
}
