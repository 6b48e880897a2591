/** Typed extraction of one key from a TOML table, with the input crate's error messages.

    Every extractor first looks the key up, and fails with the "missing key" message when it
    is absent; only then does it look at the value's type, and fail with a "must be" message
    naming the expected type. */
module Extract {
  import opened Wrappers
  import opened Toml

  /** The error for an absent key. */
  function MissingKey(key: string, context: string): string {
    "Missing '" + key + "' key in " + context
  }

  /** The error for a present key whose value has the wrong type; `what` names the type
      with its article ("a table", "a string", ...). */
  function MustBe(key: string, what: string, context: string): string {
    "'" + key + "' must be " + what + " in " + context
  }

  /** The error `typ` reports for a `type` key that is not a string. */
  function TypeMustBeString(context: string): string {
    "'type' key must be a string in " + context
  }

  /** A missing-key message can never be mistaken for a type error: the first starts with
      'M', the others with a quote. */
  lemma MissingKeyIsNotTypeError(key: string, context: string, key': string, what: string, context': string)
    ensures MissingKey(key, context) != MustBe(key', what, context')
    ensures MissingKey(key, context) != TypeMustBeString(context')
  {
    assert MissingKey(key, context)[0] == 'M';
    assert MustBe(key', what, context')[0] == '\'';
    assert TypeMustBeString(context')[0] == '\'';
  }

  /** `extract::table`: the sub-table at `key`. */
  function Table(key: string, config: Entries, context: string): (r: Result<Entries>)
    ensures r == Err(MissingKey(key, context)) <==> key !in config
    ensures r.Ok? <==> key in config && config[key].Table?
    ensures r.Ok? ==> r.value == config[key].entries
    ensures key in config && !config[key].Table? ==> r == Err(MustBe(key, "a table", context))
  {
    MissingKeyIsNotTypeError(key, context, key, "a table", context);
    if key !in config then Err(MissingKey(key, context))
    else if config[key].Table? then Ok(config[key].entries)
    else Err(MustBe(key, "a table", context))
  }

  /** `extract::str`: the string at `key`. */
  function Str(key: string, config: Entries, context: string): (r: Result<string>)
    ensures r == Err(MissingKey(key, context)) <==> key !in config
    ensures r.Ok? <==> key in config && config[key].String?
    ensures r.Ok? ==> r.value == config[key].str
    ensures key in config && !config[key].String? ==> r == Err(MustBe(key, "a string", context))
  {
    MissingKeyIsNotTypeError(key, context, key, "a string", context);
    if key !in config then Err(MissingKey(key, context))
    else if config[key].String? then Ok(config[key].str)
    else Err(MustBe(key, "a string", context))
  }

  /** `extract::number`: the number at `key`, an integer converted to a real or a float
      as it is. */
  function Number(key: string, config: Entries, context: string): (r: Result<real>)
    ensures r == Err(MissingKey(key, context)) <==> key !in config
    ensures r.Ok? <==> key in config && IsNumber(config[key])
    ensures key in config && config[key].Integer? ==> r == Ok(config[key].integer as real)
    ensures key in config && config[key].Float? ==> r == Ok(config[key].float)
    ensures key in config && !IsNumber(config[key]) ==> r == Err(MustBe(key, "a number", context))
  {
    MissingKeyIsNotTypeError(key, context, key, "a number", context);
    if key !in config then Err(MissingKey(key, context))
    else match config[key]
      case Integer(v) => Ok(v as real)
      case Float(v) => Ok(v)
      case _ => Err(MustBe(key, "a number", context))
  }

  /** `extract::slice`: the items of the array at `key`. */
  function Slice(key: string, config: Entries, context: string): (r: Result<seq<Value>>)
    ensures r == Err(MissingKey(key, context)) <==> key !in config
    ensures r.Ok? <==> key in config && config[key].Array?
    ensures r.Ok? ==> r.value == config[key].items
    ensures key in config && !config[key].Array? ==> r == Err(MustBe(key, "an array", context))
  {
    MissingKeyIsNotTypeError(key, context, key, "an array", context);
    if key !in config then Err(MissingKey(key, context))
    else if config[key].Array? then Ok(config[key].items)
    else Err(MustBe(key, "an array", context))
  }

  /** `extract::typ`: the string at the `type` key. */
  function Typ(config: Entries, context: string): (r: Result<string>)
    ensures r == Err(MissingKey("type", context)) <==> "type" !in config
    ensures r.Ok? <==> "type" in config && config["type"].String?
    ensures r.Ok? ==> r.value == config["type"].str
    ensures "type" in config && !config["type"].String? ==> r == Err(TypeMustBeString(context))
  {
    MissingKeyIsNotTypeError("type", context, "type", "a string", context);
    if "type" !in config then Err(MissingKey("type", context))
    else if config["type"].String? then Ok(config["type"].str)
    else Err(TypeMustBeString(context))
  }

  /** `typ` is `str` on the `type` key: the same successes with the same value, the same
      missing-key error, and a type error in every case `str` has one. */
  lemma TypIsStrOfType(config: Entries, context: string)
    ensures Typ(config, context).Ok? <==> Str("type", config, context).Ok?
    ensures Typ(config, context).Ok? ==> Typ(config, context).value == Str("type", config, context).value
    ensures Str("type", config, context) == Err(MissingKey("type", context))
        <==> Typ(config, context) == Err(MissingKey("type", context))
    ensures Str("type", config, context) == Err(MustBe("type", "a string", context))
        <==> Typ(config, context) == Err(TypeMustBeString(context))
  {
  }

  /** An absent key is reported as such by every extractor, whatever type was asked for:
      the presence check comes before the type check. */
  lemma AbsentKeyIsNeverATypeError(key: string, config: Entries, context: string)
    requires key !in config
    ensures Table(key, config, context) == Err(MissingKey(key, context))
    ensures Str(key, config, context) == Err(MissingKey(key, context))
    ensures Number(key, config, context) == Err(MissingKey(key, context))
    ensures Slice(key, config, context) == Err(MissingKey(key, context))
    ensures key == "type" ==> Typ(config, context) == Err(MissingKey(key, context))
  {
  }
}
