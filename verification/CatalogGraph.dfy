/** The catalog's category resolvers: inputs in, concrete GraphQL types out, the event in between. */
module CatalogGraph {
  import opened Wrappers
  import opened Duplicates
  import opened CatalogTables
  import opened CatalogStore

  datatype CategoricalInput = CategoricalInput(name: string, description: string)
  datatype NumericalInput = NumericalInput(name: string, description: string, unit: string)

  /** The two types behind the CategoryCharacteristic interface. */
  datatype Concrete =
    | Categorical(id: Uuid, name: string, description: string, categoryId: Uuid)
    | Numerical(id: Uuid, name: string, description: string, unit: string, categoryId: Uuid)

  datatype GraphError = Unauthorized | Database(error: StoreError) | NotPublished | NoSuchCharacteristic | WrongKind

  // ----- toCharacteristic and the type assertions on its result -----

  /** Any discriminator other than NUMERICAL is read as categorical; a missing unit as the empty one. */
  function ToCharacteristic(c: Characteristic): Concrete {
    if c.discriminator == NUMERICAL
    then Numerical(c.id, c.name, c.description, if c.unit.None? then "" else c.unit.value, c.categoryId)
    else Categorical(c.id, c.name, c.description, c.categoryId)
  }

  /** The row that a concrete value came from. */
  function FromConcrete(c: Concrete): Characteristic {
    match c
    case Categorical(id, name, description, categoryId) => Characteristic(id, CATEGORICAL, name, description, None, categoryId)
    case Numerical(id, name, description, unit, categoryId) => Characteristic(id, NUMERICAL, name, description, Some(unit), categoryId)
  }

  /** On rows in order the conversion loses nothing exactly when numerical rows have their units. */
  lemma ConcreteRoundTrip(t: Tables, id: Uuid)
    requires TablesOk(t) && id in t.characteristics
    ensures ToCharacteristic(t.characteristics[id]).Numerical? <==> t.characteristics[id].discriminator == NUMERICAL
    ensures FromConcrete(ToCharacteristic(t.characteristics[id])) == t.characteristics[id] <==> HasUnit(t.characteristics[id])
  {
    KindsDiffer();
    assert CharacteristicOk(t.categories, t.characteristics[id]);
  }

  // ----- inputs.go -----

  function Plain(inputs: seq<CategoricalInput>): seq<NamedInput> {
    seq(|inputs|, i requires 0 <= i < |inputs| => NamedInput(inputs[i].name, inputs[i].description, None))
  }

  function WithUnits(inputs: seq<NumericalInput>): seq<NamedInput> {
    seq(|inputs|, i requires 0 <= i < |inputs| => NamedInput(inputs[i].name, inputs[i].description, Some(inputs[i].unit)))
  }

  method ToNamedInputs(inputs: seq<CategoricalInput>) returns (out: seq<NamedInput>)
    ensures out == Plain(inputs)
    ensures |out| == |inputs| && forall i | 0 <= i < |inputs| ::
              out[i].name == inputs[i].name && out[i].description == inputs[i].description && out[i].unit == None
  {
    var a := new NamedInput[|inputs|](_ => NamedInput("", "", None));
    for i := 0 to |inputs|
      invariant a[..i] == Plain(inputs)[..i]
    {
      a[i] := NamedInput(inputs[i].name, inputs[i].description, None);
    }
    return a[..];
  }

  method ToNumericalNamedInputs(inputs: seq<NumericalInput>) returns (out: seq<NamedInput>)
    ensures out == WithUnits(inputs) && AllHaveUnits(out)
    ensures |out| == |inputs| && forall i | 0 <= i < |inputs| ::
              out[i].name == inputs[i].name && out[i].description == inputs[i].description && out[i].unit == Some(inputs[i].unit)
  {
    var a := new NamedInput[|inputs|](_ => NamedInput("", "", None));
    for i := 0 to |inputs|
      invariant a[..i] == WithUnits(inputs)[..i]
    {
      a[i] := NamedInput(inputs[i].name, inputs[i].description, Some(inputs[i].unit));
    }
    return a[..];
  }

  /** The rows list the inputs as the client gave them: the numerical ones with their units. */
  ghost predicate ListsInputs(rows: map<Uuid, Characteristic>, categorical: seq<CategoricalInput>, numerical: seq<NumericalInput>,
                              categoryId: Uuid)
  {
    && (forall c | c in categorical :: |RowsWith(rows, CATEGORICAL, c.name, c.description, None, categoryId)| == 1)
    && (forall n | n in numerical :: |RowsWith(rows, NUMERICAL, n.name, n.description, Some(n.unit), categoryId)| == 1)
    && (forall id | id in rows ::
          || (exists c :: c in categorical && id in RowsWith(rows, CATEGORICAL, c.name, c.description, None, categoryId))
          || (exists n :: n in numerical && id in RowsWith(rows, NUMERICAL, n.name, n.description, Some(n.unit), categoryId)))
    && |RowsOfKind(rows, CATEGORICAL)| == |categorical|
    && |RowsOfKind(rows, NUMERICAL)| == |numerical|
  }

  lemma PlainKeeps(categorical: seq<CategoricalInput>, c: CategoricalInput)
    requires c in categorical
    ensures NamedInput(c.name, c.description, None) in Plain(categorical)
  {
    var k :| 0 <= k < |categorical| && categorical[k] == c;
    assert Plain(categorical)[k] == NamedInput(c.name, c.description, None);
  }

  lemma WithUnitsKeeps(numerical: seq<NumericalInput>, n: NumericalInput)
    requires n in numerical
    ensures NamedInput(n.name, n.description, Some(n.unit)) in WithUnits(numerical)
  {
    var k :| 0 <= k < |numerical| && numerical[k] == n;
    assert WithUnits(numerical)[k] == NamedInput(n.name, n.description, Some(n.unit));
  }

  lemma ListedAsGiven(rows: map<Uuid, Characteristic>, categorical: seq<CategoricalInput>, numerical: seq<NumericalInput>, categoryId: Uuid)
    requires Lists(rows, Plain(categorical), WithUnits(numerical), categoryId)
    ensures ListsInputs(rows, categorical, numerical, categoryId)
  {
    forall c | c in categorical ensures |RowsWith(rows, CATEGORICAL, c.name, c.description, None, categoryId)| == 1 {
      PlainKeeps(categorical, c);
    }
    forall n | n in numerical ensures |RowsWith(rows, NUMERICAL, n.name, n.description, Some(n.unit), categoryId)| == 1 {
      WithUnitsKeeps(numerical, n);
    }
    forall id | id in rows
      ensures || (exists c :: c in categorical && id in RowsWith(rows, CATEGORICAL, c.name, c.description, None, categoryId))
              || (exists n :: n in numerical && id in RowsWith(rows, NUMERICAL, n.name, n.description, Some(n.unit), categoryId))
    {
      InputGiven(rows, categorical, numerical, categoryId, id);
    }
  }

  lemma InputGiven(rows: map<Uuid, Characteristic>, categorical: seq<CategoricalInput>, numerical: seq<NumericalInput>, categoryId: Uuid, id: Uuid)
    requires Lists(rows, Plain(categorical), WithUnits(numerical), categoryId) && id in rows
    ensures || (exists c :: c in categorical && id in RowsWith(rows, CATEGORICAL, c.name, c.description, None, categoryId))
            || (exists n :: n in numerical && id in RowsWith(rows, NUMERICAL, n.name, n.description, Some(n.unit), categoryId))
  {
    if c :| c in Plain(categorical) && id in RowsWith(rows, CATEGORICAL, c.name, c.description, None, categoryId) {
      var k :| 0 <= k < |categorical| && Plain(categorical)[k] == c;
      assert categorical[k] in categorical;
    } else {
      var n :| n in WithUnits(numerical) && id in RowsWith(rows, NUMERICAL, n.name, n.description, n.unit, categoryId);
      var k :| 0 <= k < |numerical| && WithUnits(numerical)[k] == n;
      assert numerical[k] in numerical;
    }
  }

  class Resolver {
    const store: Store
    var events: seq<Category>

    constructor ()
      ensures Valid() && fresh(store) && events == []
    {
      store := new Store();
      events := [];
    }

    /** The tables are in order, and every numerical characteristic has a unit. */
    ghost predicate Valid()
      reads this, store
    {
      TablesOk(store.tables) && UnitsOk(store.tables)
    }

    /** Only the store is transactional: an error can mean that publishing failed after the commit. */
    method CreateCategory(allowed: bool, name: string, description: string, categorical: seq<CategoricalInput>,
                          numerical: seq<NumericalInput>, env: Env, publish: bool)
      returns (res: Result<Category, GraphError>)
      requires Valid()
      modifies this`events, store
      ensures Valid()
      ensures events == if res.Ok? then old(events) + [res.value] else old(events)
      ensures res.Ok? ==> res.value == Category(env.categoryId, name, description)
      ensures !allowed ==> res == Err(Unauthorized)
      ensures res.Ok? || res.error.NotPublished? <==> allowed && Creates(old(store.tables), Plain(categorical), WithUnits(numerical), env)
      ensures res.Ok? ==> !publish
      ensures res.Err? && res.error.NotPublished? ==> publish
      ensures allowed && res.Err? ==> res.error.Database? || res.error.NotPublished?
      ensures res.Err? && !res.error.NotPublished? ==> store.tables == old(store.tables)
      ensures res.Ok? || res.error.NotPublished? ==>
                && Store.Grown(old(store.tables), store.tables, Category(env.categoryId, name, description))
                && ListsInputs(Added(old(store.tables).characteristics, store.tables.characteristics), categorical, numerical, env.categoryId)
      ensures res.Ok? || res.error.NotPublished? ==>
                Store.Created(old(store.tables), store.tables, Category(env.categoryId, name, description),
                              Plain(categorical), WithUnits(numerical), env)
      ensures store.tables != old(store.tables) ==>
                |store.tables.characteristics| == |old(store.tables).characteristics| + |categorical| + |numerical|
    {
      if !allowed {
        return Err(Unauthorized);
      }
      var c := ToNamedInputs(categorical);
      var n := ToNumericalNamedInputs(numerical);
      var created := store.CreateCategory(name, description, c, n, env);
      if created.Err? {
        return Err(Database(created.error));
      }
      ListedAsGiven(Added(old(store.tables).characteristics, store.tables.characteristics), categorical, numerical, env.categoryId);
      CreatedRows(old(store.tables), store.tables, created.value, c, n, env);
      if publish {
        return Err(NotPublished);
      }
      events := events + [created.value];
      return Ok(created.value);
    }

    method CreateNumericalCharacteristic(allowed: bool, categoryId: Uuid, name: string, description: string, unit: string, env: Env, read: bool)
      returns (res: Result<Concrete, GraphError>)
      requires Valid()
      modifies store
      ensures Valid()
      ensures res.Ok? ==> res.value == Numerical(env.ids(0), name, description, unit, categoryId)
      ensures res.Ok? ==> res.value.id in store.tables.characteristics && FromConcrete(res.value) == store.tables.characteristics[res.value.id]
      ensures !allowed ==> res == Err(Unauthorized)
      ensures res.Ok? <==> allowed && !env.begin && !read && categoryId in old(store.tables).categories && !env.fails(0) &&
                           env.ids(0) !in old(store.tables).characteristics && !env.commit
      ensures allowed && res.Err? ==> res.error.Database?
      ensures res.Ok? ==>
                var c := Characteristic(env.ids(0), NUMERICAL, name, description, Some(unit), categoryId);
                store.tables == old(store.tables).(characteristics := old(store.tables).characteristics[c.id := c])
      ensures res.Err? ==> store.tables == old(store.tables)
    {
      if !allowed {
        return Err(Unauthorized);
      }
      var c := store.CreateStandaloneCharacteristic(categoryId, NUMERICAL, name, description, Some(unit), env, read);
      if c.Err? {
        return Err(Database(c.error));
      }
      assert ToCharacteristic(c.value).Numerical?;
      return Ok(ToCharacteristic(c.value));
    }

    method CreateCategoricalCharacteristic(allowed: bool, categoryId: Uuid, name: string, description: string, env: Env, read: bool)
      returns (res: Result<Concrete, GraphError>)
      requires Valid()
      modifies store
      ensures Valid()
      ensures res.Ok? ==> res.value == Categorical(env.ids(0), name, description, categoryId)
      ensures res.Ok? ==> res.value.id in store.tables.characteristics && FromConcrete(res.value) == store.tables.characteristics[res.value.id]
      ensures !allowed ==> res == Err(Unauthorized)
      ensures res.Ok? <==> allowed && !env.begin && !read && categoryId in old(store.tables).categories && !env.fails(0) &&
                           env.ids(0) !in old(store.tables).characteristics && !env.commit
      ensures allowed && res.Err? ==> res.error.Database?
      ensures res.Ok? ==>
                var c := Characteristic(env.ids(0), CATEGORICAL, name, description, None, categoryId);
                store.tables == old(store.tables).(characteristics := old(store.tables).characteristics[c.id := c])
      ensures res.Err? ==> store.tables == old(store.tables)
    {
      if !allowed {
        return Err(Unauthorized);
      }
      KindsDiffer();
      var c := store.CreateStandaloneCharacteristic(categoryId, CATEGORICAL, name, description, None, env, read);
      if c.Err? {
        return Err(Database(c.error));
      }
      assert ToCharacteristic(c.value).Categorical?;
      return Ok(ToCharacteristic(c.value));
    }

    /** The typed loaders behind the entity resolvers: a row of the other kind is an error. */
    method FindCharacteristic(id: Uuid, discriminator: string, fault: bool) returns (res: Result<Concrete, GraphError>)
      requires Valid() && (discriminator == NUMERICAL || discriminator == CATEGORICAL)
      ensures fault ==> res == Err(Database(StatementFailed))
      ensures res.Ok? <==> !fault && id in store.tables.characteristics && store.tables.characteristics[id].discriminator == discriminator
      ensures !fault && id !in store.tables.characteristics ==> res == Err(NoSuchCharacteristic)
      ensures !fault && id in store.tables.characteristics && store.tables.characteristics[id].discriminator != discriminator ==>
                res == Err(WrongKind)
      ensures res.Ok? ==> FromConcrete(res.value) == store.tables.characteristics[id]
      ensures res.Ok? ==> res.value.id == id && res.value.name == store.tables.characteristics[id].name
      ensures res.Ok? ==> res.value.description == store.tables.characteristics[id].description
      ensures res.Ok? ==> res.value.categoryId == store.tables.characteristics[id].categoryId
      ensures res.Ok? && res.value.Numerical? ==> Some(res.value.unit) == store.tables.characteristics[id].unit
      ensures res.Ok? ==> (res.value.Numerical? <==> discriminator == NUMERICAL)
    {
      if fault {
        return Err(Database(StatementFailed));
      }
      if id !in store.tables.characteristics {
        return Err(NoSuchCharacteristic);
      }
      var c := store.tables.characteristics[id];
      if c.discriminator != discriminator {
        return Err(WrongKind);
      }
      ConcreteRoundTrip(store.tables, id);
      assert HasUnit(c);
      return Ok(ToCharacteristic(c));
    }
  }

  // ----- What a created category adds -----

  /** As many rows as inputs, all of the new category, and no two new rows of one name. */
  lemma CreatedRows(before: Tables, after: Tables, category: Category, categorical: seq<NamedInput>, numerical: seq<NamedInput>, env: Env)
    requires Store.Created(before, after, category, categorical, numerical, env)
    requires Distinct(Names(categorical, numerical))
    ensures |after.characteristics| == |before.characteristics| + |categorical| + |numerical|
    ensures |after.categories| == |before.categories| + 1
    ensures var rows := Added(before.characteristics, after.characteristics);
            && |rows| == |categorical| + |numerical|
            && (forall i | i in rows :: rows[i].categoryId == env.categoryId)
            && forall i, j | i in rows && j in rows && i != j :: rows[i].name != rows[j].name
  {
    var rows := TheRows(before, after, category, categorical, numerical, env);
    AddedIs(before.characteristics, rows);
    DisjointMerge(before.characteristics, rows);
    DisjointMerge(before.categories, map[category.id := category]);
  }

  lemma TheRows(before: Tables, after: Tables, category: Category, categorical: seq<NamedInput>, numerical: seq<NamedInput>, env: Env)
    returns (rows: map<Uuid, Characteristic>)
    requires Store.Created(before, after, category, categorical, numerical, env)
    requires Distinct(Names(categorical, numerical))
    ensures forall id | id in rows :: id !in before.characteristics
    ensures category.id !in before.categories
    ensures after == Merge(before, Tables(map[category.id := category], rows))
    ensures |rows| == |categorical| + |numerical|
    ensures forall i | i in rows :: rows[i].categoryId == env.categoryId
    ensures forall i, j | i in rows && j in rows && i != j :: rows[i].name != rows[j].name
  {
    rows :|
      && ExactlyRows(rows, categorical, numerical, |categorical| + |numerical|, env)
      && (forall id | id in rows :: id !in before.characteristics)
      && after == Merge(before, Tables(map[category.id := category], rows));
    RowsApart(rows, categorical, numerical, env);
  }

  lemma RowsApart(rows: map<Uuid, Characteristic>, categorical: seq<NamedInput>, numerical: seq<NamedInput>, env: Env)
    requires ExactlyRows(rows, categorical, numerical, |categorical| + |numerical|, env)
    requires Distinct(Names(categorical, numerical))
    ensures forall i | i in rows :: rows[i].categoryId == env.categoryId
    ensures forall i, j | i in rows && j in rows && i != j :: rows[i].name != rows[j].name
  {
    forall i, j | i in rows && j in rows && i != j ensures rows[i].name != rows[j].name {
      NamedApart(rows, categorical, numerical, env, i, j);
    }
    forall i | i in rows ensures rows[i].categoryId == env.categoryId {
      var k := Source(rows, categorical, numerical, env, i);
    }
  }

  lemma DisjointMerge<T>(a: map<Uuid, T>, b: map<Uuid, T>)
    requires forall id | id in b :: id !in a
    ensures |a + b| == |a| + |b|
  {
    assert (a + b).Keys == a.Keys + b.Keys;
    assert |a.Keys + b.Keys| == |a.Keys| + |b.Keys|;
  }

  /** The input a new row was made from. */
  lemma Source(rows: map<Uuid, Characteristic>, categorical: seq<NamedInput>, numerical: seq<NamedInput>, env: Env, id: Uuid) returns (k: nat)
    requires ExactlyRows(rows, categorical, numerical, |categorical| + |numerical|, env) && id in rows
    ensures k < |categorical| + |numerical| && id == env.ids(k)
    ensures rows[id].name == Names(categorical, numerical)[k] && rows[id].categoryId == env.categoryId
  {
    k :| k < |categorical| + |numerical| && id == env.ids(k);
    assert HasRow(rows, categorical, numerical, k, env);
  }

  lemma NamedApart(rows: map<Uuid, Characteristic>, categorical: seq<NamedInput>, numerical: seq<NamedInput>, env: Env, i: Uuid, j: Uuid)
    requires ExactlyRows(rows, categorical, numerical, |categorical| + |numerical|, env)
    requires Distinct(Names(categorical, numerical)) && i in rows && j in rows && i != j
    ensures rows[i].name != rows[j].name
  {
    var k := Source(rows, categorical, numerical, env, i);
    var l := Source(rows, categorical, numerical, env, j);
  }
}
