/** The inventory ledger: the `products` table, the append-only `logs` table and the
    stock movements that change them together (app.py, init_and_insert.py, db_utils.py). */
module Ledger {
  import opened Strings

  /** A `YYYY-MM-DD HH:MM:SS` wall-clock string, taken as given. */
  type Timestamp = string

  /** A row of `products`: product_id, name, stock, category, threshold. */
  datatype Product = Product(productId: string, name: string, stock: int, category: string, threshold: int)

  /** A row of `logs`. Exactly one of the two times is set by a movement; product_id may be NULL. */
  datatype LogRow = LogRow(logId: int, productId: Option<string>, inTime: Option<Timestamp>, outTime: Option<Timestamp>)

  /** Both tables, plus the AUTOINCREMENT counter of `logs` (the largest log_id ever handed out).
      `logs` is kept in storage order, which for an INTEGER PRIMARY KEY is log_id order. */
  datatype Tables = Tables(products: seq<Product>, logs: seq<LogRow>, lastLogId: int)

  /** product_id is the PRIMARY KEY of `products`. */
  predicate UniqueIds(products: seq<Product>) {
    forall i, j :: 0 <= i < j < |products| ==> products[i].productId != products[j].productId
  }

  predicate Ascending(logs: seq<LogRow>) {
    forall i, j :: 0 <= i < j < |logs| ==> logs[i].logId < logs[j].logId
  }

  predicate OneTimeSet(row: LogRow) {
    row.inTime.Some? != row.outTime.Some?
  }

  /** What the database keeps true: unique product ids, log ids increasing in storage order and
      never above the AUTOINCREMENT counter, and each log row stamped either in or out. */
  predicate WellFormed(t: Tables) {
    && UniqueIds(t.products)
    && Ascending(t.logs)
    && 0 <= t.lastLogId
    && forall i :: 0 <= i < |t.logs| ==> 0 < t.logs[i].logId <= t.lastLogId && OneTimeSet(t.logs[i])
  }

  /** Only the exact string "in" is an incoming movement; every other direction is outgoing. */
  predicate IsIn(direction: string) {
    direction == "in"
  }

  function Delta(direction: string): int {
    if IsIn(direction) then 1 else -1
  }

  predicate SameExceptStock(a: Product, b: Product) {
    a.(stock := b.stock) == b
  }

  /** The stock update of a movement: every row whose id is `pid` gains `delta`; a NULL pid matches no row. */
  function Adjusted(products: seq<Product>, pid: Option<string>, delta: int): (r: seq<Product>)
    ensures |r| == |products|
    ensures forall i :: 0 <= i < |r| ==> SameExceptStock(r[i], products[i])
    ensures forall i :: 0 <= i < |r| ==>
      r[i].stock == (if pid == Some(products[i].productId) then products[i].stock + delta else products[i].stock)
  {
    if products == [] then []
    else
      var p := products[0];
      [if pid == Some(p.productId) then p.(stock := p.stock + delta) else p] + Adjusted(products[1..], pid, delta)
  }

  /** The log row a movement appends: the next id, the product id, and the in or the out time. */
  function MovementRow(t: Tables, pid: Option<string>, direction: string, now: Timestamp): (row: LogRow)
    ensures row.logId == t.lastLogId + 1 && row.productId == pid
    ensures IsIn(direction) <==> row.inTime == Some(now) && row.outTime == None
    ensures !IsIn(direction) <==> row.inTime == None && row.outTime == Some(now)
  {
    if IsIn(direction) then LogRow(t.lastLogId + 1, pid, Some(now), None)
    else LogRow(t.lastLogId + 1, pid, None, Some(now))
  }

  /** A movement by product id: the stock update and the log row, committed together. */
  function Movement(t: Tables, pid: Option<string>, direction: string, now: Timestamp): (r: Tables)
    ensures |r.products| == |t.products|
    ensures forall i :: 0 <= i < |t.products| ==>
      r.products[i] == if pid == Some(t.products[i].productId)
                       then t.products[i].(stock := t.products[i].stock + (if direction == "in" then 1 else -1))
                       else t.products[i]
    ensures |r.logs| == |t.logs| + 1 && r.logs[..|t.logs|] == t.logs
    ensures r.logs[|t.logs|].productId == pid
    ensures direction == "in" ==> r.logs[|t.logs|].inTime == Some(now) && r.logs[|t.logs|].outTime == None
    ensures direction != "in" ==> r.logs[|t.logs|].inTime == None && r.logs[|t.logs|].outTime == Some(now)
    ensures forall i :: 0 <= i < |t.logs| && t.logs[i].logId <= t.lastLogId ==> t.logs[i].logId < r.logs[|t.logs|].logId
  {
    Tables(Adjusted(t.products, pid, Delta(direction)), t.logs + [MovementRow(t, pid, direction, now)], t.lastLogId + 1)
  }

  /** A movement keeps the database well formed. */
  lemma MovementWellFormed(t: Tables, pid: Option<string>, direction: string, now: Timestamp)
    requires WellFormed(t)
    ensures WellFormed(Movement(t, pid, direction, now))
  {
    var r := Movement(t, pid, direction, now);
    assert forall i :: 0 <= i < |r.products| ==> r.products[i].productId == t.products[i].productId;
  }

  /** There is no existence check: an unknown or NULL id changes no product, yet a log row is still written. */
  lemma UnknownIdStillLogged(t: Tables, pid: Option<string>, direction: string, now: Timestamp)
    requires forall i :: 0 <= i < |t.products| ==> pid != Some(t.products[i].productId)
    ensures Movement(t, pid, direction, now).products == t.products
    ensures |Movement(t, pid, direction, now).logs| == |t.logs| + 1
  {
  }

  /** Applies the movements `directions`, in order, to the product `pid`. */
  function Moves(t: Tables, pid: Option<string>, directions: seq<string>, now: Timestamp): Tables
    decreases |directions|
  {
    if directions == [] then t else Moves(Movement(t, pid, directions[0], now), pid, directions[1..], now)
  }

  function CountIn(directions: seq<string>): (n: nat)
    ensures n <= |directions|
  {
    if directions == [] then 0 else (if IsIn(directions[0]) then 1 else 0) + CountIn(directions[1..])
  }

  /** N incoming and M outgoing movements of one product, in any order, leave its stock at
      stock + N - M and change no other product. */
  lemma {:induction false} MovesStock(t: Tables, k: nat, directions: seq<string>, now: Timestamp)
    requires UniqueIds(t.products) && k < |t.products|
    ensures var r := Moves(t, Some(t.products[k].productId), directions, now);
      && |r.products| == |t.products|
      && UniqueIds(r.products)
      && r.products[k].productId == t.products[k].productId
      && r.products[k].stock == t.products[k].stock + CountIn(directions) - (|directions| - CountIn(directions))
      && forall j :: 0 <= j < |t.products| && j != k ==> r.products[j] == t.products[j]
    decreases |directions|
  {
    if directions != [] {
      var t1 := Movement(t, Some(t.products[k].productId), directions[0], now);
      assert forall i :: 0 <= i < |t1.products| ==> t1.products[i].productId == t.products[i].productId;
      MovesStock(t1, k, directions[1..], now);
    }
  }

  /** A log row written by a movement of `pid` in `direction`. */
  predicate StampedFor(row: LogRow, pid: Option<string>, direction: string) {
    && row.productId == pid
    && (row.inTime.Some? <==> IsIn(direction))
    && (row.outTime.Some? <==> !IsIn(direction))
  }

  /** The log rows from position `from` on are one per direction, each written by that movement of `pid`. */
  predicate LoggedAs(logs: seq<LogRow>, from: nat, pid: Option<string>, directions: seq<string>) {
    && |logs| == from + |directions|
    && forall j :: 0 <= j < |directions| ==> StampedFor(logs[from + j], pid, directions[j])
  }

  /** The same movements add exactly N + M log rows, all for that product, each stamped on the
      side its direction says; the earlier rows stay as they were. */
  lemma {:induction false} MovesLog(t: Tables, pid: Option<string>, directions: seq<string>, now: Timestamp)
    ensures LoggedAs(Moves(t, pid, directions, now).logs, |t.logs|, pid, directions)
    ensures Moves(t, pid, directions, now).logs[..|t.logs|] == t.logs
    decreases |directions|
  {
    if directions != [] {
      var t1 := Movement(t, pid, directions[0], now);
      MovesLog(t1, pid, directions[1..], now);
      var r := Moves(t1, pid, directions[1..], now);
      assert r == Moves(t, pid, directions, now);
      assert |r.logs| == |t.logs| + |directions|;
      forall j | 0 <= j < |directions|
        ensures StampedFor(r.logs[|t.logs| + j], pid, directions[j])
      {
        if j == 0 {
          assert r.logs[|t.logs|] == r.logs[..|t1.logs|][|t.logs|] == t1.logs[|t.logs|];
        } else {
          var j' := j - 1;
          assert |t.logs| + j == |t1.logs| + j';
          assert directions[j] == directions[1..][j'];
          assert StampedFor(r.logs[|t1.logs| + j'], pid, directions[1..][j']);
        }
      }
      assert r.logs[..|t.logs|] == r.logs[..|t1.logs|][..|t.logs|];
    }
  }

  /** How a product name is compared with a looked-up name. */
  datatype MatchMode = Exact | IgnoreCase

  predicate NameMatches(mode: MatchMode, productName: string, name: string) {
    match mode
    case Exact => productName == name
    case IgnoreCase => SameIgnoringCase(productName, name)
  }

  /** The first row (in table order) whose name matches: the row a lookup by name settles on. */
  function FirstMatch(products: seq<Product>, name: string, mode: MatchMode): (r: Option<nat>)
    ensures r.None? <==> forall j :: 0 <= j < |products| ==> !NameMatches(mode, products[j].name, name)
    ensures r.Some? ==> r.value < |products| && NameMatches(mode, products[r.value].name, name)
    ensures r.Some? ==> forall j :: 0 <= j < r.value ==> !NameMatches(mode, products[j].name, name)
  {
    if products == [] then None
    else if NameMatches(mode, products[0].name, name) then Some(0)
    else match FirstMatch(products[1..], name, mode)
      case None => None
      case Some(i) => Some(i + 1)
  }

  /** The movement by name: look the id up by exact name, and only if a row was found do the
      movement for that row's id. Something is written exactly when the name is found: an unknown
      name changes nothing, no stock update and no log row; a known one adds at most one log row. */
  function MovementByName(t: Tables, name: string, direction: string, now: Timestamp): (r: Tables)
    ensures (forall j :: 0 <= j < |t.products| ==> t.products[j].name != name) <==> r == t
    ensures |r.products| == |t.products| && t.logs <= r.logs && |r.logs| <= |t.logs| + 1
  {
    match FirstMatch(t.products, name, Exact)
    case None => t
    case Some(k) => Movement(t, Some(t.products[k].productId), direction, now)
  }

  /** A known name moves the stock of the first row with that exact name by one and logs it;
      every other row is untouched. */
  lemma ByNameKnown(t: Tables, k: nat, direction: string, now: Timestamp)
    requires UniqueIds(t.products) && k < |t.products|
    requires forall j :: 0 <= j < k ==> t.products[j].name != t.products[k].name
    ensures var r := MovementByName(t, t.products[k].name, direction, now);
      && |r.products| == |t.products|
      && r.products[k].stock == t.products[k].stock + (if direction == "in" then 1 else -1)
      && SameExceptStock(r.products[k], t.products[k])
      && (forall j :: 0 <= j < |t.products| && j != k ==> r.products[j] == t.products[j])
      && |r.logs| == |t.logs| + 1 && r.logs[..|t.logs|] == t.logs
      && r.logs[|t.logs|].productId == Some(t.products[k].productId)
      && (direction == "in" <==> r.logs[|t.logs|].inTime == Some(now) && r.logs[|t.logs|].outTime == None)
      && (direction != "in" <==> r.logs[|t.logs|].inTime == None && r.logs[|t.logs|].outTime == Some(now))
  {
    assert FirstMatch(t.products, t.products[k].name, Exact) == Some(k);
  }

  /** The low-stock test of the SQLite dashboards: inclusive. */
  predicate AtOrBelowThreshold(p: Product) {
    p.stock <= p.threshold
  }

  /** The names of the low-stock products, in table order. */
  function LowStock(products: seq<Product>): (names: seq<string>)
    ensures |names| <= |products|
  {
    if products == [] then []
    else (if AtOrBelowThreshold(products[0]) then [products[0].name] else []) + LowStock(products[1..])
  }

  /** The report over two consecutive stretches of the table is the two reports, one after the other:
      the report keeps table order. */
  lemma {:induction false} LowStockAppend(a: seq<Product>, b: seq<Product>)
    ensures LowStock(a + b) == LowStock(a) + LowStock(b)
  {
    if a == [] {
      assert a + b == b;
    } else {
      var head := if AtOrBelowThreshold(a[0]) then [a[0].name] else [];
      assert (a + b)[0] == a[0];
      assert (a + b)[1..] == a[1..] + b;
      LowStockAppend(a[1..], b);
      calc {
        LowStock(a + b);
        head + LowStock(a[1..] + b);
        head + (LowStock(a[1..]) + LowStock(b));
        (head + LowStock(a[1..])) + LowStock(b);
        LowStock(a) + LowStock(b);
      }
    }
  }

  /** A name is reported exactly when some product with that name is at or below its threshold. */
  lemma {:induction false} LowStockMembers(products: seq<Product>)
    ensures forall i :: 0 <= i < |products| && AtOrBelowThreshold(products[i]) ==> products[i].name in LowStock(products)
    ensures forall n :: n in LowStock(products) ==>
      exists i :: 0 <= i < |products| && products[i].name == n && AtOrBelowThreshold(products[i])
  {
    if products != [] {
      LowStockMembers(products[1..]);
      forall n | n in LowStock(products)
        ensures exists i :: 0 <= i < |products| && products[i].name == n && AtOrBelowThreshold(products[i])
      {
        if !(AtOrBelowThreshold(products[0]) && n == products[0].name) {
          assert n in LowStock(products[1..]);
          var i :| 0 <= i < |products[1..]| && products[1..][i].name == n && AtOrBelowThreshold(products[1..][i]);
          assert products[i + 1] == products[1..][i];
        }
      }
      forall i | 0 <= i < |products| && AtOrBelowThreshold(products[i])
        ensures products[i].name in LowStock(products)
      {
        if i > 0 { assert products[i] == products[1..][i - 1]; }
      }
    }
  }

  /** The alert is shown exactly when some product is at or below its threshold. */
  lemma LowStockAlertShown(products: seq<Product>)
    ensures LowStock(products) != [] <==> exists i :: 0 <= i < |products| && AtOrBelowThreshold(products[i])
  {
    LowStockMembers(products);
    if LowStock(products) != [] {
      assert LowStock(products)[0] in LowStock(products);
    }
  }

  /** The boundary: a product exactly at its threshold is low, one unit above is not. */
  lemma LowStockBoundary(p: Product)
    ensures p.stock == p.threshold ==> LowStock([p]) == [p.name]
    ensures p.stock == p.threshold + 1 ==> LowStock([p]) == []
  {
  }

  /** The low-stock alert: the names of the products whose stock is at or below their threshold, in table order. */
  method LowStockNames(products: seq<Product>) returns (names: seq<string>)
    ensures names == LowStock(products)
  {
    names := [];
    for i := 0 to |products|
      invariant names == LowStock(products[..i])
    {
      LowStockAppend(products[..i], [products[i]]);
      assert products[..i + 1] == products[..i] + [products[i]];
      if products[i].stock <= products[i].threshold {
        names := names + [products[i].name];
      }
    }
    assert products[..|products|] == products;
  }
}
