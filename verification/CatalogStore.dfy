/** Category creation as it runs: a transaction, its statements in order, a rollback on every way out. */
module CatalogStore {
  import opened Wrappers
  import opened Duplicates
  import opened CatalogTables

  datatype StoreError = BeginFailed | StatementFailed | DuplicateNames(names: seq<string>) | NoSuchCategory | CommitFailed

  /** A transaction: what it has written so far is seen by itself only, until it commits. */
  class Tx {
    const store: Store
    var own: Tables
    var open: bool

    constructor (s: Store)
      ensures store == s && own == EMPTY && open
    {
      store, own, open := s, EMPTY, true;
    }

    method InsertCategory(c: Category, fault: bool) returns (r: Result<(), StoreError>)
      requires open
      modifies this`own
      ensures r == if fault || c.id in store.tables.categories || c.id in old(own).categories then Err(StatementFailed) else Ok(())
      ensures own == if r.Ok? then old(own).(categories := old(own).categories[c.id := c]) else old(own)
    {
      if fault || c.id in store.tables.categories || c.id in own.categories {
        return Err(StatementFailed);
      }
      own := own.(categories := own.categories[c.id := c]);
      return Ok(());
    }

    /** The primary key and the reference to the category are the table's own checks. */
    method InsertCharacteristic(c: Characteristic, fault: bool) returns (r: Result<(), StoreError>)
      requires open
      modifies this`own
      ensures var seen := Merge(store.tables, old(own));
              r == if fault || c.id in seen.characteristics || c.categoryId !in seen.categories then Err(StatementFailed) else Ok(())
      ensures own == if r.Ok? then old(own).(characteristics := old(own).characteristics[c.id := c]) else old(own)
    {
      var seen := Merge(store.tables, own);
      if fault || c.id in seen.characteristics || c.categoryId !in seen.categories {
        return Err(StatementFailed);
      }
      own := own.(characteristics := own.characteristics[c.id := c]);
      return Ok(());
    }

    method Commit(fault: bool) returns (r: Result<(), StoreError>)
      requires open
      modifies this`open, store
      ensures !open && (if fault then r == Err(CommitFailed) else r == Ok(()))
      ensures store.tables == if fault then old(store.tables) else Merge(old(store.tables), own)
    {
      open := false;
      if fault {
        return Err(CommitFailed);
      }
      store.tables := Merge(store.tables, own);
      return Ok(());
    }

    /** After a commit this does nothing. */
    method Rollback()
      modifies this
      ensures !open
    {
      if open {
        own, open := EMPTY, false;
      }
    }
  }

  class Store {
    var tables: Tables

    constructor ()
      ensures TablesOk(tables) && UnitsOk(tables) && tables == EMPTY
    {
      tables := EMPTY;
    }

    /**
     All or nothing: the category and one row for every characteristic, or an error and the tables
     as they were. Duplicates are looked for after the category has been inserted.
     */
    method CreateCategory(name: string, description: string, categorical: seq<NamedInput>, numerical: seq<NamedInput>, env: Env)
      returns (res: Result<Category, StoreError>)
      requires TablesOk(tables)
      modifies this
      ensures TablesOk(tables)
      ensures res.Ok? <==> Creates(old(tables), categorical, numerical, env)
      ensures res.Err? ==> tables == old(tables)
      ensures res.Ok? ==> Created(old(tables), tables, res.value, categorical, numerical, env)
      ensures res.Ok? ==> res.value == Category(env.categoryId, name, description)
      ensures res.Ok? ==> Lists(Added(old(tables).characteristics, tables.characteristics), categorical, numerical, res.value.id)
      ensures res.Ok? ==> Grown(old(tables), tables, res.value)
      ensures res.Ok? ==> (UnitsOk(tables) <==> old(UnitsOk(tables)) && AllHaveUnits(numerical))
      ensures res.Err? && res.error.DuplicateNames? <==>
                !env.begin && CategoryInserts(old(tables), env) && !Distinct(Names(categorical, numerical))
      ensures res.Err? && res.error.DuplicateNames? ==>
                AreDuplicates(NamesOf(categorical) + NamesOf(numerical), res.error.names)
      ensures res.Err? && res.error.BeginFailed? <==> env.begin
      ensures res.Err? && res.error.CommitFailed? <==>
                !env.begin && CategoryInserts(old(tables), env) && Distinct(Names(categorical, numerical)) &&
                AllInsert(old(tables), env, |categorical| + |numerical|) && env.commit
      ensures res.Err? ==> !res.error.NoSuchCategory?
    {
      if env.begin {
        return Err(BeginFailed);
      }
      var tx := new Tx(this);
      res := CreateCategoryIn(tx, name, description, categorical, numerical, env);
      tx.Rollback();
    }

    method CreateCategoryIn(tx: Tx, name: string, description: string, categorical: seq<NamedInput>, numerical: seq<NamedInput>, env: Env)
      returns (res: Result<Category, StoreError>)
      requires TablesOk(tables) && tx.store == this && tx.open && tx.own == EMPTY && !env.begin
      modifies this, tx
      ensures TablesOk(tables)
      ensures res.Ok? <==> Creates(old(tables), categorical, numerical, env)
      ensures res.Err? ==> tables == old(tables)
      ensures res.Ok? ==> Created(old(tables), tables, res.value, categorical, numerical, env)
      ensures res.Ok? ==> res.value == Category(env.categoryId, name, description)
      ensures res.Ok? ==> Lists(Added(old(tables).characteristics, tables.characteristics), categorical, numerical, res.value.id)
      ensures res.Ok? ==> Grown(old(tables), tables, res.value)
      ensures res.Ok? ==> (UnitsOk(tables) <==> old(UnitsOk(tables)) && AllHaveUnits(numerical))
      ensures res.Err? && res.error.DuplicateNames? <==>
                CategoryInserts(old(tables), env) && !Distinct(Names(categorical, numerical))
      ensures res.Err? && res.error.DuplicateNames? ==>
                AreDuplicates(NamesOf(categorical) + NamesOf(numerical), res.error.names)
      ensures res.Err? && res.error.CommitFailed? <==>
                CategoryInserts(old(tables), env) && Distinct(Names(categorical, numerical)) &&
                AllInsert(old(tables), env, |categorical| + |numerical|) && env.commit
      ensures res.Err? ==> !res.error.NoSuchCategory? && !res.error.BeginFailed?
    {
      var category := Category(env.categoryId, name, description);
      var inserted := tx.InsertCategory(category, env.insert);
      if inserted.Err? {
        return Err(inserted.error);
      }
      var names := CollectNames(categorical, numerical);
      NamesInOrder(categorical, numerical);
      var dups := DuplicateStrings(names);
      if |dups| > 0 {
        return Err(DuplicateNames(dups));
      }
      var written := InsertCharacteristics(tx, categorical, numerical, env);
      if written.Err? {
        return Err(written.error);
      }
      var committed := tx.Commit(env.commit);
      if committed.Err? {
        return Err(committed.error);
      }
      CreationLists(old(tables), tx.own, categorical, numerical, env);
      CreationGrows(old(tables), tx.own, category);
      CreationKeepsOk(old(tables), tx.own, category, categorical, numerical, env);
      UnitsFollowInputs(old(tables), tx.own, categorical, numerical, env);
      return Ok(category);
    }

    /** One category more, and no old row gone or changed. */
    static ghost predicate Grown(before: Tables, after: Tables, category: Category) {
      && category.id !in before.categories && after.categories == before.categories[category.id := category]
      && forall id | id in before.characteristics :: id in after.characteristics && after.characteristics[id] == before.characteristics[id]
    }

    static lemma CreationGrows(base: Tables, own: Tables, category: Category)
      requires category.id !in base.categories && own.categories == map[category.id := category]
      requires forall id | id in own.characteristics :: id !in base.characteristics
      ensures Grown(base, Merge(base, own), category)
    {
    }

    /** The new tables are the old ones, the category, and exactly the rows meant, under new ids. */
    static ghost predicate Created(before: Tables, after: Tables, category: Category,
                            categorical: seq<NamedInput>, numerical: seq<NamedInput>, env: Env)
    {
      && category.id !in before.categories
      && exists rows: map<Uuid, Characteristic> ::
           && ExactlyRows(rows, categorical, numerical, |categorical| + |numerical|, env)
           && (forall id | id in rows :: id !in before.characteristics)
           && after == Merge(before, Tables(map[category.id := category], rows))
    }

    method CollectNames(categorical: seq<NamedInput>, numerical: seq<NamedInput>) returns (names: seq<string>)
      ensures names == Names(categorical, numerical)
    {
      names := [];
      for i := 0 to |categorical|
        invariant |names| == i && forall k | 0 <= k < i :: names[k] == Name(categorical, numerical, k)
      {
        names := names + [categorical[i].name];
      }
      for i := 0 to |numerical|
        invariant |names| == |categorical| + i && forall k | 0 <= k < |names| :: names[k] == Name(categorical, numerical, k)
      {
        names := names + [numerical[i].name];
      }
    }

    method InsertCharacteristics(tx: Tx, categorical: seq<NamedInput>, numerical: seq<NamedInput>, env: Env)
      returns (r: Result<(), StoreError>)
      requires tx.store == this && tx.open && Written(tables, tx.own, categorical, numerical, 0, env)
      modifies tx`own
      ensures tx.own.categories == old(tx.own).categories
      ensures r.Ok? ==> Written(tables, tx.own, categorical, numerical, |categorical| + |numerical|, env)
      ensures r.Ok? ==> StoredInOrder(tx.own.characteristics, categorical, numerical, env)
      ensures r.Err? ==> r == Err(StatementFailed) && !AllInsert(tables, env, |categorical| + |numerical|)
    {
      r := InsertCategorical(tx, categorical, numerical, env);
      if r.Ok? {
        r := InsertNumerical(tx, categorical, numerical, env);
      }
      if r.Ok? {
        RowsAreInOrder(tx.own.characteristics, categorical, numerical, env);
      }
    }

    method InsertCategorical(tx: Tx, categorical: seq<NamedInput>, ghost numerical: seq<NamedInput>, env: Env)
      returns (r: Result<(), StoreError>)
      requires tx.store == this && tx.open && Written(tables, tx.own, categorical, numerical, 0, env)
      modifies tx`own
      ensures tx.own.categories == old(tx.own).categories
      ensures r.Ok? ==> Written(tables, tx.own, categorical, numerical, |categorical|, env)
      ensures r.Err? ==> r == Err(StatementFailed) && !AllInsert(tables, env, |categorical| + |numerical|)
    {
      for i := 0 to |categorical|
        invariant Written(tables, tx.own, categorical, numerical, i, env) && tx.own.categories == old(tx.own).categories
      {
        var c := categorical[i];
        r := InsertNext(tx, Characteristic(env.ids(i), CATEGORICAL, c.name, c.description, None, env.categoryId), categorical, numerical, i, env);
        if r.Err? {
          return;
        }
      }
      return Ok(());
    }

    method InsertNumerical(tx: Tx, categorical: seq<NamedInput>, numerical: seq<NamedInput>, env: Env)
      returns (r: Result<(), StoreError>)
      requires tx.store == this && tx.open && Written(tables, tx.own, categorical, numerical, |categorical|, env)
      modifies tx`own
      ensures tx.own.categories == old(tx.own).categories
      ensures r.Ok? ==> Written(tables, tx.own, categorical, numerical, |categorical| + |numerical|, env)
      ensures r.Err? ==> r == Err(StatementFailed) && !AllInsert(tables, env, |categorical| + |numerical|)
    {
      for i := 0 to |numerical|
        invariant Written(tables, tx.own, categorical, numerical, |categorical| + i, env) && tx.own.categories == old(tx.own).categories
      {
        var k := |categorical| + i;
        var n := numerical[i];
        r := InsertNext(tx, Characteristic(env.ids(k), NUMERICAL, n.name, n.description, n.unit, env.categoryId), categorical, numerical, k, env);
        if r.Err? {
          return;
        }
      }
      return Ok(());
    }

    /** The first k characteristics are written, and nothing else is. */
    static ghost predicate Written(t: Tables, own: Tables, categorical: seq<NamedInput>, numerical: seq<NamedInput>, k: nat, env: Env)
      requires k <= |categorical| + |numerical|
    {
      && env.categoryId in own.categories
      && AllInsert(t, env, k)
      && ExactlyRows(own.characteristics, categorical, numerical, k, env)
      && forall id | id in own.characteristics :: id !in t.characteristics
    }

    method InsertNext(tx: Tx, row: Characteristic, ghost categorical: seq<NamedInput>, ghost numerical: seq<NamedInput>, k: nat, env: Env)
      returns (r: Result<(), StoreError>)
      requires tx.store == this && tx.open
      requires k < |categorical| + |numerical| && Written(tables, tx.own, categorical, numerical, k, env)
      requires row == Row(categorical, numerical, k, env.ids(k), env.categoryId)
      modifies tx`own
      ensures tx.own.categories == old(tx.own).categories
      ensures r.Ok? ==> Written(tables, tx.own, categorical, numerical, k + 1, env)
      ensures r.Err? ==> r == Err(StatementFailed) && !AllInsert(tables, env, |categorical| + |numerical|)
    {
      RowRefused(tables, tx.own, categorical, numerical, k, env);
      if RowInserts(tables, env, k) {
        WrittenGrows(tables, tx.own, categorical, numerical, k, env);
      }
      r := tx.InsertCharacteristic(row, env.fails(k));
    }

    static lemma WrittenGrows(t: Tables, own: Tables, categorical: seq<NamedInput>, numerical: seq<NamedInput>, k: nat, env: Env)
      requires k < |categorical| + |numerical| && Written(t, own, categorical, numerical, k, env) && RowInserts(t, env, k)
      ensures var id := env.ids(k);
              Written(t, own.(characteristics := own.characteristics[id := Row(categorical, numerical, k, id, env.categoryId)]),
                      categorical, numerical, k + 1, env)
    {
      RowsGrow(own.characteristics, categorical, numerical, k, env, t);
    }

    /** The database refuses the row exactly when the creation was not going to insert it. */
    static lemma RowRefused(t: Tables, own: Tables, categorical: seq<NamedInput>, numerical: seq<NamedInput>, k: nat, env: Env)
      requires k < |categorical| + |numerical| && Written(t, own, categorical, numerical, k, env)
      ensures env.fails(k) || env.ids(k) in Merge(t, own).characteristics <==> !RowInserts(t, env, k)
    {
      if !RowInserts(t, env, k) && !env.fails(k) && env.ids(k) !in t.characteristics {
        var j: nat :| j < k && env.ids(j) == env.ids(k);
        assert HasRow(own.characteristics, categorical, numerical, j, env);
      }
    }

    /** `createStandaloneCharacteristic`: the category must be there, then one row. */
    method CreateStandaloneCharacteristic(categoryId: Uuid, discriminator: string, name: string, description: string,
                                          unit: Option<string>, env: Env, read: bool)
      returns (res: Result<Characteristic, StoreError>)
      requires TablesOk(tables) && ((discriminator == CATEGORICAL && unit.None?) || discriminator == NUMERICAL)
      modifies this
      ensures TablesOk(tables)
      ensures var c := Characteristic(env.ids(0), discriminator, name, description, unit, categoryId);
              && res == (if env.begin then Err(BeginFailed)
                         else if read then Err(StatementFailed)
                         else if categoryId !in old(tables).categories then Err(NoSuchCategory)
                         else if env.fails(0) || c.id in old(tables).characteristics then Err(StatementFailed)
                         else if env.commit then Err(CommitFailed)
                         else Ok(c))
              && tables == (if res.Ok? then old(tables).(characteristics := old(tables).characteristics[c.id := c]) else old(tables))
      ensures res.Ok? ==> (UnitsOk(tables) <==> old(UnitsOk(tables)) && HasUnit(res.value))
    {
      if env.begin {
        return Err(BeginFailed);
      }
      var tx := new Tx(this);
      res := CreateStandaloneIn(tx, categoryId, Characteristic(env.ids(0), discriminator, name, description, unit, categoryId), env, read);
      tx.Rollback();
      if res.Ok? {
        OneMoreRow(old(tables), res.value);
      }
    }

    static lemma OneMoreRow(t: Tables, c: Characteristic)
      requires TablesOk(t) && CharacteristicOk(t.categories, c) && c.id !in t.characteristics
      ensures var t' := t.(characteristics := t.characteristics[c.id := c]);
              TablesOk(t') && (UnitsOk(t') <==> UnitsOk(t) && HasUnit(c))
    {
      var all := t.characteristics[c.id := c];
      assert forall id | id in t.characteristics :: id in all && all[id] == t.characteristics[id];
      assert c.id in all && all[c.id] == c;
    }

    method CreateStandaloneIn(tx: Tx, categoryId: Uuid, c: Characteristic, env: Env, read: bool) returns (res: Result<Characteristic, StoreError>)
      requires tx.store == this && tx.open && tx.own == EMPTY && c.categoryId == categoryId
      modifies this, tx
      ensures res == if read then Err(StatementFailed)
                     else if categoryId !in old(tables).categories then Err(NoSuchCategory)
                     else if env.fails(0) || c.id in old(tables).characteristics then Err(StatementFailed)
                     else if env.commit then Err(CommitFailed)
                     else Ok(c)
      ensures tables == if res.Ok? then old(tables).(characteristics := old(tables).characteristics[c.id := c]) else old(tables)
    {
      if read {
        return Err(StatementFailed);
      }
      if categoryId !in Merge(tables, tx.own).categories {
        return Err(NoSuchCategory);
      }
      var inserted := tx.InsertCharacteristic(c, env.fails(0));
      if inserted.Err? {
        return Err(inserted.error);
      }
      var committed := tx.Commit(env.commit);
      if committed.Err? {
        return Err(committed.error);
      }
      assert Merge(old(tables), tx.own) == old(tables).(characteristics := old(tables).characteristics[c.id := c]);
      return Ok(c);
    }
  }

  // ----- A numerical characteristic without a unit -----

  function OneRow(): Env {
    Env(false, false, 0, _ => false, k => k + 1, false)
  }

  function Unitless(): seq<NamedInput> {
    [NamedInput("weight", "", None)]
  }

  lemma UnitlessCreates()
    ensures Creates(EMPTY, [], Unitless(), OneRow()) && !AllHaveUnits(Unitless())
  {
    assert Unitless()[0] in Unitless();
  }

  /** A call on an empty store that succeeds and leaves a numerical row without a unit. */
  method CreateUnitless() returns (store: Store, res: Result<Category, StoreError>)
    ensures fresh(store) && res.Ok?
    ensures TablesOk(store.tables) && !UnitsOk(store.tables)
  {
    store := new Store();
    UnitlessCreates();
    res := store.CreateCategory("", "", [], Unitless(), OneRow());
  }
}
