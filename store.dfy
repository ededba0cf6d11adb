/** The SQLite file `inventory.db` as an object: whether each table has been created, the rows
    of both tables, and the AUTOINCREMENT counter of `logs`. Each method is one connection that
    runs its statements and commits them as a single step. */
module Store {
  import opened Strings
  import opened Ledger

  class Database {
    var productsTable: bool
    var logsTable: bool
    var products: seq<Product>
    var logs: seq<LogRow>
    var lastLogId: int

    function State(): Tables
      reads this
    {
      Tables(products, logs, lastLogId)
    }

    /** A table that does not exist holds no rows, and the rows obey the schema's keys. */
    ghost predicate Valid()
      reads this
    {
      && (!productsTable ==> products == [])
      && (!logsTable ==> logs == [] && lastLogId == 0)
      && WellFormed(State())
    }

    /** Opening `inventory.db`: either a new, empty file, or one whose tables already hold `existing`. */
    constructor Open(existing: Option<Tables>)
      requires existing.Some? ==> WellFormed(existing.value)
      ensures Valid()
      ensures existing.None? ==> !productsTable && !logsTable && State() == Tables([], [], 0)
      ensures existing.Some? ==> productsTable && logsTable && State() == existing.value
    {
      match existing
      case None =>
        productsTable, logsTable := false, false;
        products, logs, lastLogId := [], [], 0;
      case Some(t) =>
        productsTable, logsTable := true, true;
        products, logs, lastLogId := t.products, t.logs, t.lastLogId;
    }

    /** Database initialisation: both tables are created when missing. Existing rows are kept, so a
        second call changes nothing. */
    method InitDb()
      requires Valid()
      modifies this`productsTable, this`logsTable
      ensures Valid() && productsTable && logsTable
      ensures State() == old(State())
      ensures old(productsTable) && old(logsTable) ==> unchanged(this)
    {
      if !productsTable {
        productsTable := true;
      }
      if !logsTable {
        logsTable := true;
      }
    }

    /** `get_all_products`: every row of `products`, in storage order. */
    method GetAllProducts() returns (rows: seq<Product>)
      requires productsTable
      ensures rows == products
    {
      rows := products;
    }

    /** Reading the movement history: the same rows, newest (largest log id) first. */
    method GetLogs() returns (rows: seq<LogRow>)
      requires Valid() && logsTable
      ensures |rows| == |logs| && multiset(rows) == multiset(logs)
      ensures forall i, j :: 0 <= i < j < |rows| ==> rows[i].logId > rows[j].logId
    {
      rows := [];
      var i := |logs|;
      while i > 0
        invariant 0 <= i <= |logs|
        invariant |rows| == |logs| - i
        invariant forall k :: 0 <= k < |rows| ==> rows[k] == logs[|logs| - 1 - k]
        invariant multiset(rows) == multiset(logs[i..])
      {
        assert logs[i - 1..] == [logs[i - 1]] + logs[i..];
        rows := rows + [logs[i - 1]];
        i := i - 1;
      }
      assert logs[0..] == logs;
    }

    /** db_utils `get_stock(product_name)`: the stock of the first row with exactly that name, or 0. */
    method GetStock(name: string) returns (stock: int)
      requires productsTable
      ensures (forall j :: 0 <= j < |products| ==> products[j].name != name) ==> stock == 0
      ensures forall k ::
        (0 <= k < |products| && products[k].name == name && forall j :: 0 <= j < k ==> products[j].name != name)
        ==> stock == products[k].stock
    {
      match FirstMatch(products, name, Exact)
      case None =>
        stock := 0;
      case Some(k) =>
        stock := products[k].stock;
    }

    /** app.py / init_and_insert.py `update_inventory(product_id, direction)`: no lookup first. */
    method UpdateInventoryById(pid: Option<string>, direction: string, now: Timestamp)
      requires Valid() && productsTable && logsTable
      modifies this`products, this`logs, this`lastLogId
      ensures Valid()
      ensures State() == Movement(old(State()), pid, direction, now)
    {
      MovementWellFormed(State(), pid, direction, now);
      var row := MovementRow(State(), pid, direction, now);
      products := Adjusted(products, pid, Delta(direction));
      logs := logs + [row];
      lastLogId := lastLogId + 1;
    }

    /** db_utils `update_inventory(product_name, direction)`: look the id up by exact name and
        write only when a row was found. */
    method UpdateInventoryByName(name: string, direction: string, now: Timestamp)
      requires Valid() && productsTable && logsTable
      modifies this`products, this`logs, this`lastLogId
      ensures Valid()
      ensures State() == MovementByName(old(State()), name, direction, now)
    {
      var row := FirstMatch(products, name, Exact);
      if row.Some? {
        UpdateInventoryById(Some(products[row.value].productId), direction, now);
      }
    }
  }
}
