/** test.py: the in-memory inventory dashboard. The table lives in the session state; it can be
    filtered, edited through the Add/Update form, replaced by an uploaded file, and scanned —
    scanning here only reports what it sees and never changes stock. */
module Dashboard {
  import opened Strings
  import Ledger

  /** A row: Product ID, Product Name, Category, Stock, Reorder Level. */
  datatype Item = Item(productId: string, productName: string, category: string, stock: int, reorderLevel: int)

  const COLUMNS: seq<string> := ["Product ID", "Product Name", "Category", "Stock", "Reorder Level"]
  const LOW_STYLE: string := "background-color: #ffcccc"

  /** The four sample rows the session starts with. */
  function LoadData(): (rows: seq<Item>)
    ensures |rows| == 4 && UniqueIds(rows)
    ensures forall i :: 0 <= i < |rows| ==> rows[i].productId != "" && rows[i].stock >= 0 && rows[i].reorderLevel >= 0
  {
    [ Item("P001", "Milk", "Dairy", 45, 20),
      Item("P002", "Eggs", "Poultry", 12, 10),
      Item("P003", "Bread", "Bakery", 3, 5),
      Item("P004", "Juice", "Beverage", 25, 15) ]
  }

  /** The dashboard's low-stock test: strictly below the reorder level. */
  predicate BelowReorder(row: Item) {
    row.stock < row.reorderLevel
  }

  /** The position of a column name, the first if it occurs twice. */
  function IndexOf(columns: seq<string>, c: string): (k: nat)
    requires c in columns
    ensures k < |columns| && columns[k] == c
    ensures forall j :: 0 <= j < k ==> columns[j] != c
  {
    if columns[0] == c then 0 else 1 + IndexOf(columns[1..], c)
  }

  /** Low-stock highlighting of one table row: one style per column; only the Stock cell can be styled, and it
      is styled exactly when the row is strictly below its reorder level. */
  function HighlightLowStock(columns: seq<string>, row: Item): (style: seq<string>)
    requires "Stock" in columns
    ensures |style| == |columns|
    ensures forall i :: 0 <= i < |columns| ==>
      (style[i] != "" <==> i == IndexOf(columns, "Stock") && BelowReorder(row))
    ensures BelowReorder(row) ==> style[IndexOf(columns, "Stock")] == LOW_STYLE
  {
    var blank := seq(|columns|, _ => "");
    if BelowReorder(row) then blank[IndexOf(columns, "Stock") := LOW_STYLE] else blank
  }

  /** The positions of the rows strictly below their reorder level. */
  function LowRows(inventory: seq<Item>): set<int> {
    set i | 0 <= i < |inventory| && BelowReorder(inventory[i])
  }

  /** The Overview metric "Low Stock Items": the number of rows strictly below their reorder
      level, counted row by row from the end of the table. */
  function LowStockCount(inventory: seq<Item>): (n: nat)
    ensures n == |LowRows(inventory)|
    ensures n <= |inventory|
  {
    if inventory == [] then 0
    else
      var k := |inventory| - 1;
      var prefix := inventory[..k];
      assert LowRows(inventory) == LowRows(prefix) + (if BelowReorder(inventory[k]) then {k} else {}) by {
        assert forall i :: 0 <= i < k ==> inventory[i] == prefix[i];
      }
      assert k !in LowRows(prefix);
      LowStockCount(prefix) + (if BelowReorder(inventory[k]) then 1 else 0)
  }

  /** How many rows the styled table shows with a highlighted Stock cell. */
  function HighlightedRows(columns: seq<string>, inventory: seq<Item>): nat
    requires "Stock" in columns
  {
    if inventory == [] then 0
    else
      var k := |inventory| - 1;
      HighlightedRows(columns, inventory[..k])
      + (if HighlightLowStock(columns, inventory[k])[IndexOf(columns, "Stock")] != "" then 1 else 0)
  }

  /** The Overview metric and the highlighting agree: the count is the number of highlighted rows. */
  lemma {:induction false} CountMatchesHighlight(columns: seq<string>, inventory: seq<Item>)
    requires "Stock" in columns
    ensures LowStockCount(inventory) == HighlightedRows(columns, inventory)
    decreases |inventory|
  {
    if inventory != [] {
      CountMatchesHighlight(columns, inventory[..|inventory| - 1]);
    }
  }

  /** The dashboard's test is strict while the SQLite pages' is inclusive: a row exactly at its
      level is low there and not here, and one below it is low in both. */
  lemma ThresholdVariantsDiffer(p: Ledger.Product)
    ensures var row := Item(p.productId, p.name, p.category, p.stock, p.threshold);
      && (p.stock == p.threshold ==> Ledger.LowStock([p]) == [p.name] && LowStockCount([row]) == 0)
      && (p.stock < p.threshold ==> Ledger.LowStock([p]) == [p.name] && LowStockCount([row]) == 1)
  {
  }

  /** The sample data holds one low item (Bread, 3 < 5). */
  lemma SampleDataLowStock()
    ensures LowStockCount(LoadData()) == 1
  {
  }

  /** The rows of one category, in table order. */
  function RowsInCategory(inventory: seq<Item>, category: string): (r: seq<Item>)
    ensures |r| <= |inventory|
    ensures forall x :: x in r ==> x in inventory && x.category == category
    ensures forall i :: 0 <= i < |inventory| && inventory[i].category == category ==> inventory[i] in r
  {
    if inventory == [] then []
    else (if inventory[0].category == category then [inventory[0]] else []) + RowsInCategory(inventory[1..], category)
  }

  /** Filtering two stretches gives the two results one after the other: table order is kept. */
  lemma {:induction false} RowsInCategoryAppend(a: seq<Item>, b: seq<Item>, category: string)
    ensures RowsInCategory(a + b, category) == RowsInCategory(a, category) + RowsInCategory(b, category)
    decreases |a|
  {
    if a == [] {
      assert a + b == b;
    } else {
      assert (a + b)[0] == a[0];
      assert (a + b)[1..] == a[1..] + b;
      RowsInCategoryAppend(a[1..], b, category);
    }
  }

  /** The Inventory page's category filter: "All" shows every row, any other choice exactly the
      rows of that category (so a category literally named "All" cannot be singled out). */
  function FilterByCategory(inventory: seq<Item>, choice: string): (r: seq<Item>)
    ensures choice == "All" ==> r == inventory
    ensures choice != "All" ==> forall x :: x in r ==> x in inventory && x.category == choice
    ensures choice != "All" ==> forall i :: 0 <= i < |inventory| && inventory[i].category == choice ==> inventory[i] in r
  {
    if choice == "All" then inventory else RowsInCategory(inventory, choice)
  }

  predicate HasId(inventory: seq<Item>, id: string) {
    exists i :: 0 <= i < |inventory| && inventory[i].productId == id
  }

  /** Product ID is meant to identify a row, as product_id does in the SQLite table; the dashboard's
      rows are a different record from `Ledger.Product`, so the predicate is stated again for them. */
  predicate UniqueIds(inventory: seq<Item>) {
    forall i, j :: 0 <= i < j < |inventory| ==> inventory[i].productId != inventory[j].productId
  }

  /** The Add/Update form: an empty Product ID changes nothing; an existing one has name, category,
      stock and reorder level overwritten on every row carrying it; a new one is appended as the last row. */
  function Upserted(inventory: seq<Item>, form: Item): (r: seq<Item>)
    ensures form.productId == "" ==> r == inventory
    ensures form.productId != "" && HasId(inventory, form.productId) ==>
      && |r| == |inventory|
      && forall i :: 0 <= i < |r| ==> r[i] == (if inventory[i].productId == form.productId then form else inventory[i])
    ensures form.productId != "" && !HasId(inventory, form.productId) ==> r == inventory + [form]
  {
    if form.productId == "" then inventory
    else if HasId(inventory, form.productId) then
      seq(|inventory|, i requires 0 <= i < |inventory| =>
        if inventory[i].productId == form.productId then form else inventory[i])
    else inventory + [form]
  }

  /** Submitting the same form twice has the effect of submitting it once. */
  lemma UpsertIdempotent(inventory: seq<Item>, form: Item)
    ensures Upserted(Upserted(inventory, form), form) == Upserted(inventory, form)
  {
    var r := Upserted(inventory, form);
    if form.productId != "" {
      if HasId(inventory, form.productId) {
        var i :| 0 <= i < |inventory| && inventory[i].productId == form.productId;
        assert r[i].productId == form.productId;
      } else {
        assert r[|inventory|].productId == form.productId;
      }
    }
  }

  /** Product IDs stay unique, and after a submission with a non-empty ID a row with that ID holds
      exactly the submitted fields. */
  lemma UpsertKeepsIdsUnique(inventory: seq<Item>, form: Item)
    requires UniqueIds(inventory)
    ensures UniqueIds(Upserted(inventory, form))
    ensures form.productId != "" ==> form in Upserted(inventory, form)
  {
    var r := Upserted(inventory, form);
    if form.productId != "" && HasId(inventory, form.productId) {
      var i :| 0 <= i < |inventory| && inventory[i].productId == form.productId;
      assert r[i] == form;
      assert forall k :: 0 <= k < |r| ==> r[k].productId == inventory[k].productId;
    }
  }

  /** The five column names an uploaded file must have. */
  const REQUIRED_COLUMNS: set<string> := {"Product ID", "Product Name", "Category", "Stock", "Reorder Level"}

  predicate HasRequiredColumns(columns: seq<string>) {
    forall c :: c in REQUIRED_COLUMNS ==> c in columns
  }

  /** A parsed upload: its header and its rows. */
  datatype UploadedFile = UploadedFile(columns: seq<string>, rows: seq<Item>)

  /** What the scan reports for a label seen for the first time. */
  datatype ScanReport =
    | Found(name: string, stock: int, reorderLevel: int, belowReorder: bool)
    | NotFound(name: string)

  /** The first row whose lower-cased name equals the lower-cased label. This is the search of
      `Ledger.FirstMatch` in `IgnoreCase` mode, stated over the dashboard's own row record. */
  function MatchIndex(inventory: seq<Item>, name: string): (r: Option<nat>)
    ensures r.None? <==> forall j :: 0 <= j < |inventory| ==> !SameIgnoringCase(inventory[j].productName, name)
    ensures r.Some? ==> r.value < |inventory| && SameIgnoringCase(inventory[r.value].productName, name)
    ensures r.Some? ==> forall j :: 0 <= j < r.value ==> !SameIgnoringCase(inventory[j].productName, name)
  {
    if inventory == [] then None
    else if SameIgnoringCase(inventory[0].productName, name) then Some(0)
    else match MatchIndex(inventory[1..], name)
      case None => None
      case Some(i) => Some(i + 1)
  }

  /** The report for one new label: found with the first matching row's stock, reorder level and
      strict low-stock verdict, or not found when no product name matches it ignoring case. */
  function ReportFor(inventory: seq<Item>, name: string): (r: ScanReport)
    ensures r.name == name
    ensures r.NotFound? <==> forall j :: 0 <= j < |inventory| ==> !SameIgnoringCase(inventory[j].productName, name)
    ensures r.Found? ==> var k := MatchIndex(inventory, name).value;
      && r.stock == inventory[k].stock && r.reorderLevel == inventory[k].reorderLevel
      && (r.belowReorder <==> inventory[k].stock < inventory[k].reorderLevel)
  {
    match MatchIndex(inventory, name)
    case None => NotFound(name)
    case Some(k) => Found(name, inventory[k].stock, inventory[k].reorderLevel, BelowReorder(inventory[k]))
  }

  /** The reports for a frame's labels, skipping labels already seen in this session. */
  function ScanReports(inventory: seq<Item>, detected: set<string>, labels: seq<string>): (reports: seq<ScanReport>)
    ensures |reports| <= |labels|
    ensures forall i :: 0 <= i < |reports| ==> reports[i].name !in detected
    decreases |labels|
  {
    if labels == [] then []
    else if labels[0] in detected then ScanReports(inventory, detected, labels[1..])
    else [ReportFor(inventory, labels[0])] + ScanReports(inventory, detected + {labels[0]}, labels[1..])
  }

  function ReportedNames(reports: seq<ScanReport>): (names: seq<string>)
    ensures |names| == |reports|
    ensures forall i :: 0 <= i < |reports| ==> names[i] == reports[i].name
  {
    if reports == [] then [] else [reports[0].name] + ReportedNames(reports[1..])
  }

  /** Each label is reported at most once per session: the reported names are distinct, none was
      seen earlier in the session, and each comes from the frame. */
  lemma {:induction false} ReportsOncePerSession(inventory: seq<Item>, detected: set<string>, labels: seq<string>)
    ensures var names := ReportedNames(ScanReports(inventory, detected, labels));
      && (forall i, j :: 0 <= i < j < |names| ==> names[i] != names[j])
      && (forall n :: n in names ==> n !in detected && n in labels)
    decreases |labels|
  {
    if labels != [] {
      var l := labels[0];
      if l in detected {
        ReportsOncePerSession(inventory, detected, labels[1..]);
      } else {
        ReportsOncePerSession(inventory, detected + {l}, labels[1..]);
        var rest := ReportedNames(ScanReports(inventory, detected + {l}, labels[1..]));
        assert ReportedNames(ScanReports(inventory, detected, labels)) == [l] + rest;
      }
    }
  }

  /** ... and at least once: every label of the frame not seen before in the session is reported,
      and each report is the inventory lookup of its own label. */
  lemma {:induction false} EveryNewLabelReported(inventory: seq<Item>, detected: set<string>, labels: seq<string>)
    ensures var reports := ScanReports(inventory, detected, labels);
      var names := ReportedNames(reports);
      && (forall l :: l in labels && l !in detected ==> l in names)
      && (forall i :: 0 <= i < |reports| ==> reports[i] == ReportFor(inventory, names[i]))
    decreases |labels|
  {
    if labels != [] {
      var l := labels[0];
      assert forall x :: x in labels ==> x == l || x in labels[1..];
      if l in detected {
        EveryNewLabelReported(inventory, detected, labels[1..]);
      } else {
        EveryNewLabelReported(inventory, detected + {l}, labels[1..]);
        var rest := ReportedNames(ScanReports(inventory, detected + {l}, labels[1..]));
        assert ReportedNames(ScanReports(inventory, detected, labels)) == [l] + rest;
      }
    }
  }

  function AsSet(labels: seq<string>): set<string> {
    set l | l in labels
  }

  /** Handling a + b reports a's new labels, then b's labels not seen in a. */
  lemma {:induction false} ScanReportsAppend(inventory: seq<Item>, detected: set<string>, a: seq<string>, b: seq<string>)
    ensures ScanReports(inventory, detected, a + b)
            == ScanReports(inventory, detected, a) + ScanReports(inventory, detected + AsSet(a), b)
    decreases |a|
  {
    if a == [] {
      assert a + b == b;
      assert detected + AsSet(a) == detected;
    } else {
      assert (a + b)[0] == a[0];
      assert (a + b)[1..] == a[1..] + b;
      if a[0] in detected {
        ScanReportsAppend(inventory, detected, a[1..], b);
        assert detected + AsSet(a) == detected + AsSet(a[1..]);
      } else {
        ScanReportsAppend(inventory, detected + {a[0]}, a[1..], b);
        assert detected + AsSet(a) == detected + {a[0]} + AsSet(a[1..]);
      }
    }
  }

  /** One more label of the frame adds its report exactly when it was seen neither earlier in the
      session nor earlier in the frame. */
  lemma ScanReportsSnoc(inventory: seq<Item>, detected: set<string>, labels: seq<string>, i: nat)
    requires i < |labels|
    ensures AsSet(labels[..i + 1]) == AsSet(labels[..i]) + {labels[i]}
    ensures ScanReports(inventory, detected, labels[..i + 1])
            == ScanReports(inventory, detected, labels[..i])
               + (if labels[i] in detected + AsSet(labels[..i]) then [] else [ReportFor(inventory, labels[i])])
  {
    ScanReportsAppend(inventory, detected, labels[..i], [labels[i]]);
    assert labels[..i + 1] == labels[..i] + [labels[i]];
  }

  /** The dashboard's session state. `cameraOpen` stands for a capture handle in `cap`. */
  class Session {
    var inventory: seq<Item>
    var columns: seq<string>
    var scanning: bool
    var detected: set<string>
    var cameraOpen: bool

    /** The table always has the required columns, and the camera is held exactly while scanning. */
    ghost predicate Valid()
      reads this
    {
      HasRequiredColumns(columns) && scanning == cameraOpen
    }

    constructor ()
      ensures Valid()
      ensures inventory == LoadData() && columns == COLUMNS
      ensures !scanning && detected == {} && !cameraOpen
    {
      inventory, columns := LoadData(), COLUMNS;
      scanning, detected, cameraOpen := false, {}, false;
    }

    /** The Overview page: total row count and the strict low-stock count. */
    method Overview() returns (total: nat, low: nat)
      ensures total == |inventory|
      ensures low <= total
      ensures low == LowStockCount(inventory)
    {
      total := |inventory|;
      low := LowStockCount(inventory);
    }

    /** Submitting the Add/Update form (stock and reorder level come from inputs with minimum 0). */
    method Submit(productId: string, productName: string, category: string, stock: nat, reorder: nat)
      returns (added: bool)
      requires Valid()
      modifies this`inventory
      ensures Valid()
      ensures inventory == Upserted(old(inventory), Item(productId, productName, category, stock, reorder))
      ensures added <==> productId != "" && !HasId(old(inventory), productId)
    {
      var form := Item(productId, productName, category, stock, reorder);
      added := productId != "" && !HasId(inventory, productId);
      inventory := Upserted(inventory, form);
    }

    /** An upload replaces the table if and only if its header holds all five required names. */
    method ReplaceFromUpload(file: UploadedFile) returns (accepted: bool)
      requires Valid()
      modifies this`inventory, this`columns
      ensures Valid()
      ensures accepted <==> HasRequiredColumns(file.columns)
      ensures accepted ==> inventory == file.rows && columns == file.columns
      ensures !accepted ==> inventory == old(inventory) && columns == old(columns)
    {
      accepted := HasRequiredColumns(file.columns);
      if accepted {
        inventory, columns := file.rows, file.columns;
      }
    }

    /** The start button: when not scanning, open the camera, start, and forget the labels seen. */
    method Start()
      requires Valid()
      modifies this`scanning, this`detected, this`cameraOpen
      ensures Valid() && scanning
      ensures !old(scanning) ==> detected == {}
      ensures old(scanning) ==> detected == old(detected)
    {
      if !scanning {
        cameraOpen := true;
        scanning := true;
        detected := {};
      }
    }

    /** The stop button acts only when a capture handle exists. */
    method Stop()
      requires Valid()
      modifies this`scanning, this`cameraOpen
      ensures Valid() && !scanning && !cameraOpen
      ensures !old(cameraOpen) ==> scanning == old(scanning)
    {
      if cameraOpen {
        cameraOpen := false;
        scanning := false;
      }
    }

    /** One frame read while scanning: report each label not seen yet in this session and remember
        it. The table is not touched. */
    method ScanFrame(labels: seq<string>) returns (reports: seq<ScanReport>)
      requires Valid() && scanning
      modifies this`detected
      ensures Valid()
      ensures detected == old(detected) + AsSet(labels)
      ensures reports == ScanReports(inventory, old(detected), labels)
    {
      reports := [];
      for i := 0 to |labels|
        invariant detected == old(detected) + AsSet(labels[..i])
        invariant reports == ScanReports(inventory, old(detected), labels[..i])
      {
        var name := labels[i];
        ScanReportsSnoc(inventory, old(detected), labels, i);
        if name !in detected {
          detected := detected + {name};
          reports := reports + [ReportFor(inventory, name)];
        }
      }
      assert labels[..|labels|] == labels;
    }
  }
}
