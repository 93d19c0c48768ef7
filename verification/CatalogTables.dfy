/** The catalog's category tables and what category creation is meant to do to them. */
module CatalogTables {
  import opened Wrappers
  import opened Duplicates

  const CATEGORICAL := "CATEGORICAL"
  const NUMERICAL := "NUMERICAL"

  datatype Category = Category(id: Uuid, name: string, description: string)

  datatype Characteristic = Characteristic(
    id: Uuid,
    discriminator: string,
    name: string,
    description: string,
    unit: Option<string>,
    categoryId: Uuid)

  datatype Tables = Tables(categories: map<Uuid, Category>, characteristics: map<Uuid, Characteristic>)

  /** A characteristic to create; the unit of a categorical one is ignored. */
  datatype NamedInput = NamedInput(name: string, description: string, unit: Option<string>)

  /**
   What the database decides about one creation: which statements fail, and the ids that the
   column default gives to the category and to the k-th characteristic.
   */
  datatype Env = Env(begin: bool, insert: bool, categoryId: Uuid, fails: nat -> bool, ids: nat -> Uuid, commit: bool)

  /** What one transaction has written, laid over what is committed. */
  function Merge(base: Tables, own: Tables): Tables {
    Tables(base.categories + own.categories, base.characteristics + own.characteristics)
  }

  /** Categorical characteristics first, then numerical, each in input order. */
  function Name(categorical: seq<NamedInput>, numerical: seq<NamedInput>, k: nat): string
    requires k < |categorical| + |numerical|
  {
    if k < |categorical| then categorical[k].name else numerical[k - |categorical|].name
  }

  function Names(categorical: seq<NamedInput>, numerical: seq<NamedInput>): (names: seq<string>)
    ensures |names| == |categorical| + |numerical|
  {
    seq(|categorical| + |numerical|, k requires 0 <= k < |categorical| + |numerical| => Name(categorical, numerical, k))
  }

  function NamesOf(inputs: seq<NamedInput>): seq<string> {
    seq(|inputs|, k requires 0 <= k < |inputs| => inputs[k].name)
  }

  lemma NamesInOrder(categorical: seq<NamedInput>, numerical: seq<NamedInput>)
    ensures Names(categorical, numerical) == NamesOf(categorical) + NamesOf(numerical)
  {
  }

  /** The row meant for the k-th characteristic. */
  function Row(categorical: seq<NamedInput>, numerical: seq<NamedInput>, k: nat, id: Uuid, categoryId: Uuid): Characteristic
    requires k < |categorical| + |numerical|
  {
    if k < |categorical|
    then Characteristic(id, CATEGORICAL, categorical[k].name, categorical[k].description, None, categoryId)
    else var n := numerical[k - |categorical|]; Characteristic(id, NUMERICAL, n.name, n.description, n.unit, categoryId)
  }

  predicate HasRow(rows: map<Uuid, Characteristic>, categorical: seq<NamedInput>, numerical: seq<NamedInput>, k: nat, env: Env)
    requires k < |categorical| + |numerical|
  {
    env.ids(k) in rows && rows[env.ids(k)] == Row(categorical, numerical, k, env.ids(k), env.categoryId)
  }

  /** The new rows are exactly the first n that are meant, one for each, under distinct ids. */
  ghost predicate ExactlyRows(rows: map<Uuid, Characteristic>, categorical: seq<NamedInput>, numerical: seq<NamedInput>,
                              n: nat, env: Env)
    requires n <= |categorical| + |numerical|
  {
    && (forall k: nat | k < n :: HasRow(rows, categorical, numerical, k, env))
    && (forall id | id in rows :: exists k: nat :: k < n && id == env.ids(k))
    && |rows| == n
  }

  predicate CategoryInserts(tables: Tables, env: Env) {
    !env.insert && env.categoryId !in tables.categories
  }

  /** The k-th characteristic's insert works: no error, and its id is a new one. */
  predicate RowInserts(tables: Tables, env: Env, k: nat) {
    !env.fails(k) && env.ids(k) !in tables.characteristics && forall j: nat | j < k :: env.ids(j) != env.ids(k)
  }

  predicate AllInsert(tables: Tables, env: Env, n: nat) {
    forall k: nat | k < n :: RowInserts(tables, env, k)
  }

  /** When creating a category succeeds. */
  predicate Creates(tables: Tables, categorical: seq<NamedInput>, numerical: seq<NamedInput>, env: Env) {
    && !env.begin
    && CategoryInserts(tables, env)
    && Distinct(Names(categorical, numerical))
    && AllInsert(tables, env, |categorical| + |numerical|)
    && !env.commit
  }

  // ----- What every reachable pair of tables satisfies -----

  predicate CharacteristicOk(categories: map<Uuid, Category>, c: Characteristic) {
    c.categoryId in categories && ((c.discriminator == CATEGORICAL && c.unit.None?) || c.discriminator == NUMERICAL)
  }

  predicate TablesOk(t: Tables) {
    && (forall id | id in t.categories :: t.categories[id].id == id)
    && forall id | id in t.characteristics :: t.characteristics[id].id == id && CharacteristicOk(t.categories, t.characteristics[id])
  }

  predicate HasUnit(c: Characteristic) {
    c.discriminator == NUMERICAL ==> c.unit.Some?
  }

  predicate UnitsOk(t: Tables) {
    forall id | id in t.characteristics :: HasUnit(t.characteristics[id])
  }

  predicate AllHaveUnits(numerical: seq<NamedInput>) {
    forall n | n in numerical :: n.unit.Some?
  }

  lemma MergeKeepsOk(base: Tables, own: Tables)
    requires TablesOk(base)
    requires forall id | id in own.categories :: own.categories[id].id == id
    requires forall id | id in own.characteristics ::
               own.characteristics[id].id == id && CharacteristicOk(base.categories + own.categories, own.characteristics[id])
    ensures TablesOk(Merge(base, own))
  {
    forall id | id in base.characteristics ensures CharacteristicOk(base.categories + own.categories, base.characteristics[id]) {
    }
  }

  /** Creating a category keeps the tables in order, whatever the inputs. */
  lemma CreationKeepsOk(base: Tables, own: Tables, category: Category, categorical: seq<NamedInput>, numerical: seq<NamedInput>, env: Env)
    requires TablesOk(base) && category.id == env.categoryId && own.categories == map[category.id := category]
    requires ExactlyRows(own.characteristics, categorical, numerical, |categorical| + |numerical|, env)
    ensures TablesOk(Merge(base, own))
  {
    forall id | id in own.characteristics
      ensures own.characteristics[id].id == id && CharacteristicOk(base.categories + own.categories, own.characteristics[id])
    {
      var k: nat :| k < |categorical| + |numerical| && id == env.ids(k);
      assert HasRow(own.characteristics, categorical, numerical, k, env);
    }
    MergeKeepsOk(base, own);
  }

  lemma KindsDiffer()
    ensures CATEGORICAL != NUMERICAL
  {
    assert |CATEGORICAL| == 11 && |NUMERICAL| == 9;
  }

  lemma RowUnits(categorical: seq<NamedInput>, numerical: seq<NamedInput>, k: nat, id: Uuid, categoryId: Uuid)
    requires k < |categorical| + |numerical|
    ensures HasUnit(Row(categorical, numerical, k, id, categoryId)) <==>
            (k >= |categorical| ==> numerical[k - |categorical|].unit.Some?)
  {
    KindsDiffer();
  }

  lemma UnitsComeFromInputs(rows: map<Uuid, Characteristic>, categorical: seq<NamedInput>, numerical: seq<NamedInput>, env: Env)
    requires ExactlyRows(rows, categorical, numerical, |categorical| + |numerical|, env)
    ensures (forall id | id in rows :: HasUnit(rows[id])) <==> AllHaveUnits(numerical)
  {
    if forall id | id in rows :: HasUnit(rows[id]) {
      forall i | 0 <= i < |numerical| ensures numerical[i].unit.Some? {
        var id := env.ids(|categorical| + i);
        assert HasRow(rows, categorical, numerical, |categorical| + i, env);
        assert HasUnit(rows[id]);
        RowUnits(categorical, numerical, |categorical| + i, id, env.categoryId);
      }
    }
    if AllHaveUnits(numerical) {
      forall id | id in rows ensures HasUnit(rows[id]) {
        var k: nat :| k < |categorical| + |numerical| && id == env.ids(k);
        assert HasRow(rows, categorical, numerical, k, env);
        RowUnits(categorical, numerical, k, id, env.categoryId);
      }
    }
  }

  /** The numerical rows all carry a unit afterwards exactly when they did before and the inputs do. */
  lemma UnitsFollowInputs(base: Tables, own: Tables, categorical: seq<NamedInput>, numerical: seq<NamedInput>, env: Env)
    requires ExactlyRows(own.characteristics, categorical, numerical, |categorical| + |numerical|, env)
    requires forall id | id in own.characteristics :: id !in base.characteristics
    ensures UnitsOk(Merge(base, own)) <==> UnitsOk(base) && AllHaveUnits(numerical)
  {
    UnitsComeFromInputs(own.characteristics, categorical, numerical, env);
    var all := Merge(base, own).characteristics;
    assert forall id | id in base.characteristics :: id in all && all[id] == base.characteristics[id];
    assert forall id | id in own.characteristics :: id in all && all[id] == own.characteristics[id];
  }

  /** One more row under a new id. */
  lemma RowsGrow(rows: map<Uuid, Characteristic>, categorical: seq<NamedInput>, numerical: seq<NamedInput>, n: nat, env: Env, tables: Tables)
    requires n < |categorical| + |numerical| && ExactlyRows(rows, categorical, numerical, n, env) && RowInserts(tables, env, n)
    ensures env.ids(n) !in rows
    ensures ExactlyRows(rows[env.ids(n) := Row(categorical, numerical, n, env.ids(n), env.categoryId)], categorical, numerical, n + 1, env)
  {
    var id := env.ids(n);
    var rows' := rows[id := Row(categorical, numerical, n, id, env.categoryId)];
    assert id !in rows;
    assert |rows'| == |rows| + 1;
    forall k: nat | k < n + 1 ensures HasRow(rows', categorical, numerical, k, env) {
      if k < n {
        assert HasRow(rows, categorical, numerical, k, env) && env.ids(k) != id;
      }
    }
    forall i | i in rows' ensures exists k: nat :: k < n + 1 && i == env.ids(k) {
      if i == id {
        assert n < n + 1 && i == env.ids(n);
      } else {
        var k: nat :| k < n && i == env.ids(k);
        assert k < n + 1;
      }
    }
  }

  // ----- What a creation must add, input by input -----

  /** The rows that are there afterwards and were not before. */
  function Added(before: map<Uuid, Characteristic>, after: map<Uuid, Characteristic>): map<Uuid, Characteristic> {
    map id | id in after && id !in before :: after[id]
  }

  /** The ids of the rows with exactly these values. */
  ghost function RowsWith(rows: map<Uuid, Characteristic>, discriminator: string, name: string, description: string,
                          unit: Option<string>, categoryId: Uuid): set<Uuid>
  {
    set id | id in rows && rows[id] == Characteristic(id, discriminator, name, description, unit, categoryId)
  }

  /** The ids of the rows of one kind. */
  ghost function RowsOfKind(rows: map<Uuid, Characteristic>, discriminator: string): set<Uuid> {
    set id | id in rows && rows[id].discriminator == discriminator
  }

  /**
   Each input has exactly one row, of its kind, with its name, description and unit, and of this
   category; there is no other row.
   */
  ghost predicate Lists(rows: map<Uuid, Characteristic>, categorical: seq<NamedInput>, numerical: seq<NamedInput>, categoryId: Uuid) {
    && (forall c | c in categorical :: |RowsWith(rows, CATEGORICAL, c.name, c.description, None, categoryId)| == 1)
    && (forall n | n in numerical :: |RowsWith(rows, NUMERICAL, n.name, n.description, n.unit, categoryId)| == 1)
    && (forall id | id in rows ::
          || (exists c :: c in categorical && id in RowsWith(rows, CATEGORICAL, c.name, c.description, None, categoryId))
          || (exists n :: n in numerical && id in RowsWith(rows, NUMERICAL, n.name, n.description, n.unit, categoryId)))
    && |RowsOfKind(rows, CATEGORICAL)| == |categorical|
    && |RowsOfKind(rows, NUMERICAL)| == |numerical|
  }

  /** The row under this id has exactly these values. */
  predicate RowIs(rows: map<Uuid, Characteristic>, id: Uuid, discriminator: string, name: string, description: string,
                  unit: Option<string>, categoryId: Uuid)
  {
    id in rows && rows[id] == Characteristic(id, discriminator, name, description, unit, categoryId)
  }

  /** The k-th id has the row of the k-th input, categorical inputs first; no other id has a row. */
  ghost predicate StoredInOrder(rows: map<Uuid, Characteristic>, categorical: seq<NamedInput>, numerical: seq<NamedInput>, env: Env) {
    && (forall k | 0 <= k < |categorical| ::
          RowIs(rows, env.ids(k), CATEGORICAL, categorical[k].name, categorical[k].description, None, env.categoryId))
    && (forall k | 0 <= k < |numerical| ::
          RowIs(rows, env.ids(|categorical| + k), NUMERICAL, numerical[k].name, numerical[k].description, numerical[k].unit, env.categoryId))
    && (forall id | id in rows :: exists k: nat :: k < |categorical| + |numerical| && id == env.ids(k))
  }

  lemma RowsAreInOrder(rows: map<Uuid, Characteristic>, categorical: seq<NamedInput>, numerical: seq<NamedInput>, env: Env)
    requires ExactlyRows(rows, categorical, numerical, |categorical| + |numerical|, env)
    ensures StoredInOrder(rows, categorical, numerical, env)
  {
    forall k | 0 <= k < |categorical|
      ensures RowIs(rows, env.ids(k), CATEGORICAL, categorical[k].name, categorical[k].description, None, env.categoryId)
    {
      assert HasRow(rows, categorical, numerical, k, env);
    }
    forall k | 0 <= k < |numerical|
      ensures RowIs(rows, env.ids(|categorical| + k), NUMERICAL, numerical[k].name, numerical[k].description, numerical[k].unit, env.categoryId)
    {
      assert HasRow(rows, categorical, numerical, |categorical| + k, env);
    }
  }

  predicate IdsDiffer(env: Env, n: nat) {
    forall j: nat, k: nat | j < k < n :: env.ids(j) != env.ids(k)
  }

  /** The place of the input that a stored row was made from. */
  lemma PlaceOf(rows: map<Uuid, Characteristic>, categorical: seq<NamedInput>, numerical: seq<NamedInput>, env: Env, id: Uuid)
    returns (k: nat)
    requires StoredInOrder(rows, categorical, numerical, env) && id in rows
    ensures k < |categorical| + |numerical| && id == env.ids(k)
    ensures k < |categorical| ==>
              RowIs(rows, id, CATEGORICAL, categorical[k].name, categorical[k].description, None, env.categoryId)
    ensures k >= |categorical| ==>
              var n := numerical[k - |categorical|]; RowIs(rows, id, NUMERICAL, n.name, n.description, n.unit, env.categoryId)
    ensures rows[id].name == Name(categorical, numerical, k)
  {
    k :| k < |categorical| + |numerical| && id == env.ids(k);
    if k >= |categorical| {
      assert id == env.ids(|categorical| + (k - |categorical|));
    }
  }

  /** Names are distinct, so a row is found by its name. */
  lemma FoundByName(rows: map<Uuid, Characteristic>, categorical: seq<NamedInput>, numerical: seq<NamedInput>, env: Env, id: Uuid, k: nat)
    requires StoredInOrder(rows, categorical, numerical, env) && Distinct(Names(categorical, numerical))
    requires id in rows && k < |categorical| + |numerical| && rows[id].name == Name(categorical, numerical, k)
    ensures id == env.ids(k)
  {
    var j := PlaceOf(rows, categorical, numerical, env, id);
    assert Names(categorical, numerical)[j] == Names(categorical, numerical)[k];
  }

  lemma OneRowForEach(rows: map<Uuid, Characteristic>, categorical: seq<NamedInput>, numerical: seq<NamedInput>, env: Env)
    requires StoredInOrder(rows, categorical, numerical, env) && Distinct(Names(categorical, numerical))
    ensures forall c | c in categorical :: |RowsWith(rows, CATEGORICAL, c.name, c.description, None, env.categoryId)| == 1
    ensures forall n | n in numerical :: |RowsWith(rows, NUMERICAL, n.name, n.description, n.unit, env.categoryId)| == 1
  {
    forall c | c in categorical
      ensures |RowsWith(rows, CATEGORICAL, c.name, c.description, None, env.categoryId)| == 1
    {
      var k :| 0 <= k < |categorical| && categorical[k] == c;
      OneCategorical(rows, categorical, numerical, env, k);
    }
    forall n | n in numerical
      ensures |RowsWith(rows, NUMERICAL, n.name, n.description, n.unit, env.categoryId)| == 1
    {
      var k :| 0 <= k < |numerical| && numerical[k] == n;
      OneNumerical(rows, categorical, numerical, env, k);
    }
  }

  lemma OneCategorical(rows: map<Uuid, Characteristic>, categorical: seq<NamedInput>, numerical: seq<NamedInput>, env: Env, k: nat)
    requires StoredInOrder(rows, categorical, numerical, env) && Distinct(Names(categorical, numerical)) && k < |categorical|
    ensures var c := categorical[k];
            |RowsWith(rows, CATEGORICAL, c.name, c.description, None, env.categoryId)| == 1
  {
    var c := categorical[k];
    var found := RowsWith(rows, CATEGORICAL, c.name, c.description, None, env.categoryId);
    forall id | id in found ensures id == env.ids(k) {
      FoundByName(rows, categorical, numerical, env, id, k);
    }
    assert RowIs(rows, env.ids(k), CATEGORICAL, c.name, c.description, None, env.categoryId);
    assert found == {env.ids(k)};
  }

  lemma OneNumerical(rows: map<Uuid, Characteristic>, categorical: seq<NamedInput>, numerical: seq<NamedInput>, env: Env, k: nat)
    requires StoredInOrder(rows, categorical, numerical, env) && Distinct(Names(categorical, numerical)) && k < |numerical|
    ensures var n := numerical[k];
            |RowsWith(rows, NUMERICAL, n.name, n.description, n.unit, env.categoryId)| == 1
  {
    var n := numerical[k];
    var found := RowsWith(rows, NUMERICAL, n.name, n.description, n.unit, env.categoryId);
    forall id | id in found ensures id == env.ids(|categorical| + k) {
      FoundByName(rows, categorical, numerical, env, id, |categorical| + k);
    }
    assert RowIs(rows, env.ids(|categorical| + k), NUMERICAL, n.name, n.description, n.unit, env.categoryId);
    assert found == {env.ids(|categorical| + k)};
  }

  lemma EachRowHasInput(rows: map<Uuid, Characteristic>, categorical: seq<NamedInput>, numerical: seq<NamedInput>, env: Env)
    requires StoredInOrder(rows, categorical, numerical, env)
    ensures forall id | id in rows ::
              || (exists c :: c in categorical && id in RowsWith(rows, CATEGORICAL, c.name, c.description, None, env.categoryId))
              || (exists n :: n in numerical && id in RowsWith(rows, NUMERICAL, n.name, n.description, n.unit, env.categoryId))
  {
    forall id | id in rows
      ensures || (exists c :: c in categorical && id in RowsWith(rows, CATEGORICAL, c.name, c.description, None, env.categoryId))
              || (exists n :: n in numerical && id in RowsWith(rows, NUMERICAL, n.name, n.description, n.unit, env.categoryId))
    {
      var k := PlaceOf(rows, categorical, numerical, env, id);
      if k < |categorical| {
        assert categorical[k] in categorical;
      } else {
        assert numerical[k - |categorical|] in numerical;
      }
    }
  }

  ghost function IdsFrom(env: Env, lo: nat, hi: nat): set<Uuid> {
    set k: nat | lo <= k < hi :: env.ids(k)
  }

  lemma {:induction false} ManyIds(env: Env, lo: nat, hi: nat)
    requires lo <= hi && IdsDiffer(env, hi)
    ensures |IdsFrom(env, lo, hi)| == hi - lo
  {
    if lo < hi {
      ManyIds(env, lo, hi - 1);
      assert IdsFrom(env, lo, hi) == IdsFrom(env, lo, hi - 1) + {env.ids(hi - 1)};
    }
  }

  /** As many rows of each kind as inputs of that kind. */
  lemma KindsCount(rows: map<Uuid, Characteristic>, categorical: seq<NamedInput>, numerical: seq<NamedInput>, env: Env)
    requires StoredInOrder(rows, categorical, numerical, env) && IdsDiffer(env, |categorical| + |numerical|)
    ensures |RowsOfKind(rows, CATEGORICAL)| == |categorical| && |RowsOfKind(rows, NUMERICAL)| == |numerical|
  {
    KindsDiffer();
    ManyIds(env, 0, |categorical|);
    ManyIds(env, |categorical|, |categorical| + |numerical|);
    KindIs(rows, categorical, numerical, env);
  }

  lemma KindIs(rows: map<Uuid, Characteristic>, categorical: seq<NamedInput>, numerical: seq<NamedInput>, env: Env)
    requires StoredInOrder(rows, categorical, numerical, env)
    ensures RowsOfKind(rows, CATEGORICAL) == IdsFrom(env, 0, |categorical|)
    ensures RowsOfKind(rows, NUMERICAL) == IdsFrom(env, |categorical|, |categorical| + |numerical|)
  {
    KindsDiffer();
    forall k: nat | k < |categorical| + |numerical|
      ensures env.ids(k) in rows && rows[env.ids(k)].discriminator == if k < |categorical| then CATEGORICAL else NUMERICAL
    {
      if k < |categorical| {
        assert RowIs(rows, env.ids(k), CATEGORICAL, categorical[k].name, categorical[k].description, None, env.categoryId);
      } else {
        var n := numerical[k - |categorical|];
        assert RowIs(rows, env.ids(|categorical| + (k - |categorical|)), NUMERICAL, n.name, n.description, n.unit, env.categoryId);
      }
    }
  }

  lemma RowsAreListed(rows: map<Uuid, Characteristic>, categorical: seq<NamedInput>, numerical: seq<NamedInput>, env: Env)
    requires StoredInOrder(rows, categorical, numerical, env) && IdsDiffer(env, |categorical| + |numerical|)
    requires Distinct(Names(categorical, numerical))
    ensures Lists(rows, categorical, numerical, env.categoryId)
  {
    OneRowForEach(rows, categorical, numerical, env);
    EachRowHasInput(rows, categorical, numerical, env);
    KindsCount(rows, categorical, numerical, env);
  }

  lemma AddedIs(before: map<Uuid, Characteristic>, rows: map<Uuid, Characteristic>)
    requires forall id | id in rows :: id !in before
    ensures Added(before, before + rows) == rows
  {
  }

  lemma IdsAreNew(tables: Tables, env: Env, n: nat)
    requires AllInsert(tables, env, n)
    ensures IdsDiffer(env, n)
  {
    forall j: nat, k: nat | j < k < n ensures env.ids(j) != env.ids(k) {
      assert RowInserts(tables, env, k);
    }
  }

  /** What a creation adds is what its inputs list. */
  lemma CreationLists(base: Tables, own: Tables, categorical: seq<NamedInput>, numerical: seq<NamedInput>, env: Env)
    requires ExactlyRows(own.characteristics, categorical, numerical, |categorical| + |numerical|, env)
    requires AllInsert(base, env, |categorical| + |numerical|) && Distinct(Names(categorical, numerical))
    requires forall id | id in own.characteristics :: id !in base.characteristics
    ensures Lists(Added(base.characteristics, Merge(base, own).characteristics), categorical, numerical, env.categoryId)
  {
    IdsAreNew(base, env, |categorical| + |numerical|);
    RowsAreInOrder(own.characteristics, categorical, numerical, env);
    RowsAreListed(own.characteristics, categorical, numerical, env);
    AddedIs(base.characteristics, own.characteristics);
  }

  const EMPTY := Tables(map[], map[])
}
