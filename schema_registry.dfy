/// The schema registry of packages/schema: one process-wide `Map` from
/// schema name to schema object, with name checks that throw in
/// `registerSchema` and `getSchema` but make `hasSchema` answer `false`.
/// Schemas are opaque values here: the registry only checks that one is an
/// object and hands it back unchanged.
module SchemaRegistry {
  import opened JsValue

  const InvalidName := Error("Schema name must be a non-empty string")
  const InvalidSchema := Error("Schema must be a valid object")

  /** `typeof name === 'string' && name.trim()`: a string with a non-whitespace character. */
  predicate IsValidName(name: Value) {
    name.Str? && Trim(name.s) != []
  }

  /** Whether a value passes `registerSchema`'s schema check: a non-null object or array. */
  predicate IsValidSchema(schema: Value) {
    Truthy(schema) && IsObjectLike(schema)
  }

  /** What every stored entry satisfies: its key is a valid name and its schema an object. */
  ghost predicate WellFormed(schemas: map<string, Value>) {
    forall n :: n in schemas ==> IsValidName(Str(n)) && IsValidSchema(schemas[n])
  }

  /**
   * `getSchema(name)`: throws on a malformed name; otherwise the stored
   * schema, or `undefined` (here `None`) for a name never registered.
   */
  function Lookup(schemas: map<string, Value>, name: Value): (r: Result<Option<Value>, Thrown>)
    ensures r.Err? <==> !IsValidName(name)
    ensures r.Err? ==> r.error == InvalidName
    ensures r.Ok? ==> (r.value.Some? <==> name.s in schemas)
    ensures r.Ok? && r.value.Some? ==> r.value.value == schemas[name.s]
  {
    if !IsValidName(name) then Err(InvalidName)
    else if name.s in schemas then Ok(Some(schemas[name.s]))
    else Ok(None)
  }

  /**
   * `hasSchema(name)`: never throws. It is true exactly when `getSchema`
   * would return a stored schema, so a malformed name answers `false`.
   */
  function Has(schemas: map<string, Value>, name: Value): (r: bool)
    ensures r <==> Lookup(schemas, name).Ok? && Lookup(schemas, name).value.Some?
    ensures !IsValidName(name) ==> !r
  {
    IsValidName(name) && name.s in schemas
  }

  /**
   * `registerSchema(name, schema)` on the store `schemas`: the store it
   * leaves behind, or the exception it throws. The name is checked before
   * the schema, and a successful call makes `getSchema(name)` return
   * `schema`.
   */
  function Register(schemas: map<string, Value>, name: Value, schema: Value): (r: Result<map<string, Value>, Thrown>)
    ensures r.Ok? <==> IsValidName(name) && IsValidSchema(schema)
    ensures !IsValidName(name) ==> r == Err(InvalidName)
    ensures IsValidName(name) && !IsValidSchema(schema) ==> r == Err(InvalidSchema)
    ensures r.Ok? ==> Lookup(r.value, name) == Ok(Some(schema))
  {
    if !IsValidName(name) then Err(InvalidName)
    else if !IsValidSchema(schema) then Err(InvalidSchema)
    else Ok(schemas[name.s := schema])
  }

  /** A name is well formed exactly when it is a string with some non-whitespace character. */
  lemma ValidNameHasNonWhitespace(name: Value)
    ensures IsValidName(name) <==> name.Str? && exists i :: 0 <= i < |name.s| && !IsWhitespace(name.s[i])
  {
  }

  lemma NonBlankNameIsValid(s: string, i: nat)
    requires i < |s| && !IsWhitespace(s[i])
    ensures IsValidName(Str(s))
  {
  }

  /** Registering keeps the store well formed. */
  lemma RegisterPreservesWellFormed(schemas: map<string, Value>, name: Value, schema: Value)
    requires WellFormed(schemas) && Register(schemas, name, schema).Ok?
    ensures WellFormed(Register(schemas, name, schema).value)
  {
  }

  /** Registering `name` leaves what `getSchema` and `hasSchema` say of every other name unchanged. */
  lemma RegisterKeepsOtherNames(schemas: map<string, Value>, name: Value, schema: Value, other: Value)
    requires Register(schemas, name, schema).Ok?
    requires !(other.Str? && other.s == name.s)
    ensures Lookup(Register(schemas, name, schema).value, other) == Lookup(schemas, other)
    ensures Has(Register(schemas, name, schema).value, other) == Has(schemas, other)
  {
  }

  /** The names registered afterwards are the earlier ones plus `name`. */
  lemma RegisterAddsOneName(schemas: map<string, Value>, name: Value, schema: Value)
    requires Register(schemas, name, schema).Ok?
    ensures Register(schemas, name, schema).value.Keys == schemas.Keys + {name.s}
  {
  }

  /** Last write wins: registering a name twice keeps only the second schema. */
  lemma RegisterTwice(schemas: map<string, Value>, name: Value, first: Value, second: Value)
    requires Register(schemas, name, first).Ok? && Register(schemas, name, second).Ok?
    ensures Register(Register(schemas, name, first).value, name, second) == Register(schemas, name, second)
  {
    var once := schemas[name.s := first];
    assert Register(schemas, name, first).value == once;
    assert Register(once, name, second).value == once[name.s := second];
    assert once[name.s := second] == schemas[name.s := second];
  }

  /** The key is stored untrimmed: `" user "` does not register `"user"`. */
  lemma PaddedNameIsItsOwnKey(schemas: map<string, Value>, schema: Value)
    requires "user" !in schemas && IsValidSchema(schema)
    ensures Register(schemas, Str(" user "), schema).Ok?
    ensures !Has(Register(schemas, Str(" user "), schema).value, Str("user"))
  {
    NonBlankNameIsValid(" user ", 1);
    RegisterKeepsOtherNames(schemas, Str(" user "), schema, Str("user"));
  }

  /**
   * A snapshot that answers `hasSchema` and `getSchema` as a well-formed
   * store does is that store: `getAllSchemas` loses and invents nothing.
   */
  lemma SnapshotIsStore(schemas: map<string, Value>, snapshot: map<string, Value>)
    requires WellFormed(schemas)
    requires forall n :: n in snapshot <==> Has(schemas, Str(n))
    requires forall n :: n in snapshot ==> Lookup(schemas, Str(n)) == Ok(Some(snapshot[n]))
    ensures snapshot == schemas
  {
    assert snapshot.Keys == schemas.Keys by {
      forall n ensures n in snapshot <==> n in schemas {
        assert Has(schemas, Str(n)) <==> IsValidName(Str(n)) && n in schemas;
      }
    }
    forall n | n in snapshot ensures snapshot[n] == schemas[n] {
      assert Lookup(schemas, Str(n)) == Ok(Some(schemas[n]));
    }
  }

  /**
   * The registry object. `schemas` is the module-level `Map` of the source;
   * each method of the class is one exported function.
   */
  class Registry {
    var schemas: map<string, Value>

    ghost predicate Valid()
      reads this
    {
      WellFormed(schemas)
    }

    /** `const schemas = new Map()` */
    constructor()
      ensures Valid() && schemas == map[]
    {
      schemas := map[];
    }

    /** `registerSchema(name, schema)`: returns `true`, or throws and leaves the store as it was. */
    method RegisterSchema(name: Value, schema: Value) returns (r: Result<bool, Thrown>)
      requires Valid()
      modifies this
      ensures Valid()
      ensures Register(old(schemas), name, schema).Ok? ==>
        r == Ok(true) && schemas == Register(old(schemas), name, schema).value
      ensures Register(old(schemas), name, schema).Err? ==>
        r == Err(Register(old(schemas), name, schema).error) && schemas == old(schemas)
    {
      if !IsValidName(name) {
        return Err(InvalidName);
      }
      if !IsValidSchema(schema) {
        return Err(InvalidSchema);
      }
      schemas := schemas[name.s := schema];
      r := Ok(true);
    }

    /** `getSchema(name)` */
    method GetSchema(name: Value) returns (r: Result<Option<Value>, Thrown>)
      ensures r == Lookup(schemas, name)
    {
      r := Lookup(schemas, name);
    }

    /** `hasSchema(name)` */
    method HasSchema(name: Value) returns (r: bool)
      ensures r == Has(schemas, name)
    {
      r := Has(schemas, name);
    }

    /**
     * `getAllSchemas()`: a snapshot holding exactly the names `hasSchema`
     * accepts, each with the schema `getSchema` returns for it.
     */
    method GetAllSchemas() returns (r: map<string, Value>)
      requires Valid()
      ensures forall n :: n in r <==> Has(schemas, Str(n))
      ensures forall n :: n in r ==> Lookup(schemas, Str(n)) == Ok(Some(r[n]))
    {
      r := map n | n in schemas :: schemas[n];
    }

    /** `clearAllSchemas()`: afterwards no name is registered. */
    method ClearAllSchemas()
      modifies this
      ensures Valid() && schemas == map[]
      ensures forall name :: !Has(schemas, name)
    {
      schemas := map[];
    }
  }

  /** Two schemas registered side by side are both read back, and a clear forgets them. */
  method TwoSchemasScenario(user: Value, post: Value)
    requires IsValidSchema(user) && IsValidSchema(post)
  {
    var registry := new Registry();
    NonBlankNameIsValid("user", 0);
    NonBlankNameIsValid("post", 0);
    var ok := registry.RegisterSchema(Str("user"), user);
    assert ok == Ok(true);
    ok := registry.RegisterSchema(Str("post"), post);
    RegisterKeepsOtherNames(map["user" := user], Str("post"), post, Str("user"));
    var has := registry.HasSchema(Str("user"));
    assert has;
    var got := registry.GetSchema(Str("user"));
    assert got == Ok(Some(user));
    got := registry.GetSchema(Str("post"));
    assert got == Ok(Some(post));
    registry.ClearAllSchemas();
    has := registry.HasSchema(Str("user"));
    assert !has;
  }

  /** `getAllSchemas` after two registrations returns exactly the two of them. */
  method AllSchemasScenario(user: Value, post: Value)
    requires IsValidSchema(user) && IsValidSchema(post)
  {
    var registry := new Registry();
    NonBlankNameIsValid("user", 0);
    NonBlankNameIsValid("post", 0);
    var ok := registry.RegisterSchema(Str("user"), user);
    ok := registry.RegisterSchema(Str("post"), post);
    assert registry.schemas == map["user" := user, "post" := post];
    var all := registry.GetAllSchemas();
    SnapshotIsStore(registry.schemas, all);
    assert all == map["user" := user, "post" := post];
  }

  /** Malformed names throw from `registerSchema` and answer `false` from `hasSchema`. */
  method RejectedNamesScenario(schema: Value)
    requires IsValidSchema(schema)
  {
    var registry := new Registry();
    var bad := registry.RegisterSchema(Str(""), schema);
    assert bad == Err(InvalidName);
    bad := registry.RegisterSchema(Null, schema);
    assert bad == Err(InvalidName);
    bad := registry.RegisterSchema(Num(123), schema);
    assert bad == Err(InvalidName);
    var missing := registry.GetSchema(Str(""));
    assert missing == Err(InvalidName);
    missing := registry.GetSchema(Null);
    assert missing == Err(InvalidName);
    missing := registry.GetSchema(Num(123));
    assert missing == Err(InvalidName);
    var has := registry.HasSchema(Str(""));
    assert !has;
    has := registry.HasSchema(Null);
    assert !has;
    has := registry.HasSchema(Num(123));
    assert !has;
  }

  /** A well-formed name that was never registered reads as `undefined`, not as an error. */
  method MissingSchemaScenario()
  {
    var registry := new Registry();
    NonBlankNameIsValid("nonexistent", 0);
    var missing := registry.GetSchema(Str("nonexistent"));
    assert missing == Ok(None);
  }

  /** A schema that is not an object is refused and nothing is stored. */
  method RejectedSchemasScenario()
  {
    var registry := new Registry();
    NonBlankNameIsValid("test", 0);
    var bad := registry.RegisterSchema(Str("test"), Null);
    assert bad == Err(InvalidSchema);
    bad := registry.RegisterSchema(Str("test"), Str("string"));
    assert bad == Err(InvalidSchema);
    bad := registry.RegisterSchema(Str("test"), Undefined);
    assert bad == Err(InvalidSchema);
    var has := registry.HasSchema(Str("test"));
    assert !has;
  }
}
