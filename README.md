# Smart inventory ledger — a Dafny model

This project models the inventory ledger of a small Streamlit inventory tracker. The ledger is a
SQLite `products` table plus an append-only `logs` table of stock movements. The model also covers
the rules built around the ledger:

- **Stock movements.** Two variants exist. The app pages (`app.py`, `init_and_insert.py`) move a
  product by id with no existence check. `db_utils.py` first looks the id up by exact name and
  writes nothing when no row has that name. A movement whose direction is exactly `"in"` adds one
  unit and logs an in-time. Any other direction removes one unit, with no floor, and logs an
  out-time.
- **Queries.** `get_all_products`, `get_logs` (newest first) and `get_stock` (first exact name,
  else 0), plus `init_db` creating both tables when missing.
- **Low-stock report.** The SQLite pages use an inclusive test (`stock <= threshold`). The
  in-memory dashboard in `test.py` uses a strict one (`Stock < Reorder Level`).
- **Scan sessions.** Detector labels are handled at most once per session or run. A label is
  compared with product names ignoring case. The first matching product gets one incoming
  movement. In `test.py` the scan only reports and never changes stock.
- **Emotion recommendations.** The catalog items whose emotion equals the detected one ignoring
  case, in catalog order.
- **The in-memory dashboard table of `test.py`.** Sample data, low-stock highlighting and count,
  the category filter, the Add/Update upsert form and the column check of an uploaded file.

Layout, one module per file:

- `strings.dfy` — `Strings`: the `Option` type (SQL NULL, Python `None`) and ASCII lower-casing.
- `ledger.dfy` — `Ledger`: rows and tables as values, the movement as a function on tables, the
  name lookup, the low-stock report and its loop.
- `store.dfy` — `Store`: the database file as a class whose methods change its tables in place.
- `scan.dfy` — `Scan`: handling detector labels, and the loop over one frame's labels.
- `catalog.dfy` — `Catalog`: the recommendation filter.
- `app.dfy` — `App`: the manual update of `app.py` and its scan session across page reruns.
- `init_and_insert.dfy` — `InitAndInsert`: the start/stop toggle, the long scanning loop and the
  recommendation loop of `init_and_insert.py`.
- `dashboard.dfy` — `Dashboard`: the `test.py` dashboard, with its session state as a class.

The functions `get_all_products`, `get_logs`, `update_inventory(product_id, direction)` and the
low-stock loop are textually identical in `app.py` and `init_and_insert.py`. Each is modelled once.

Behaviour worth noting:

- Labels already seen are recognised by exact string equality, not ignoring case. So "milk" and
  "Milk" in one run both count against the product "Milk" (`Scan.CaseVariantsCountTwice`).
- The id-based movement has no existence check. An unknown or NULL id changes no product but still
  appends a log row (`Ledger.UnknownIdStillLogged`, `App.ManualUpdateWithoutProduct`).
- Stock has no floor: an outgoing movement at stock 0 gives −1.

## Model

| member | source | states |
|---|---|---|
| Strings.Lower | app.py:110 | lower-casing keeps the length and folds each character on its own; only A–Z change |
| Strings.LowerIdempotent | app.py:110 | lower-casing twice equals lower-casing once, so a lower-cased label matches the label itself ignoring case |
| Ledger.Adjusted | app.py:33-36 | the row whose id equals the given id gains the delta; every other field and row is unchanged; a NULL id matches no row |
| Ledger.MovementRow | app.py:34-37 | the new log row has id counter + 1 and the given product id; in-time set iff the direction is `"in"`, otherwise only out-time |
| Ledger.Movement | app.py:29-38 | `"in"` adds 1 to the product with that id and any other direction removes 1, with no floor; other products unchanged; exactly one log row appended with the matching time set; its id exceeds every earlier id |
| Ledger.MovementWellFormed | db_utils.py:11-24 | a movement keeps product ids unique, log ids increasing and at most the AUTOINCREMENT counter, and every log row stamped on exactly one side |
| Ledger.UnknownIdStillLogged | app.py:29-38 | with an id no product has, or NULL, the products are unchanged but the log still grows by one row |
| Ledger.MovesStock | app.py:32-37 | after a sequence of movements of one product, its stock is stock + N(in) − M(other), its id is kept, ids stay unique, and no other product changes |
| Ledger.MovesLog | init_and_insert.py:31-36 | the same sequence appends exactly one log row per movement, in order, each for that product and stamped on the side its direction says; earlier rows are unchanged |
| Ledger.FirstMatch | db_utils.py:46-47 | None iff no row's name matches; otherwise the index of the first matching row |
| Ledger.MovementByName | db_utils.py:41-62 | something is written iff some row has exactly that name; the product table keeps its row count, earlier log rows are kept, and at most one log row is added |
| Ledger.ByNameKnown | db_utils.py:49-58 | by name, the first row with that exact name moves by ±1 and nothing else in it changes; all other rows are untouched; one log row is appended for its id, with in-time iff `"in"` |
| Ledger.LowStock | app.py:135-140 | the report never names more products than the table has |
| Ledger.LowStockAlertShown | app.py:142-143 | the low-stock alert is shown iff some product is at or below its threshold |
| Ledger.LowStockAppend | init_and_insert.py:127-132 | the low-stock report of two stretches of the table is the two reports in order, so table order is kept |
| Ledger.LowStockMembers | app.py:135-140 | a name is reported iff some product with that name has stock ≤ threshold |
| Ledger.LowStockBoundary | app.py:139 | a product exactly at its threshold is reported; one unit above it is not |
| Ledger.LowStockNames | app.py:135-140 | the accumulating loop yields exactly the low-stock report |
| Store.Database.Open | db_utils.py:7 | opening gives a valid database: empty with no tables for a new file, or the given well-formed tables |
| Store.Database.InitDb | db_utils.py:6-27 | afterwards both tables exist; all rows and the counter are unchanged; with both tables present nothing changes |
| Store.Database.GetAllProducts | db_utils.py:66-72 | returns every product row in storage order |
| Store.Database.GetLogs | app.py:25-27 | returns every log row once (same multiset, same length) in strictly descending log id order |
| Store.Database.GetStock | db_utils.py:31-37 | returns the stock of the first row with exactly that name, and 0 when no row has it |
| Store.Database.UpdateInventoryById | init_and_insert.py:28-37 | the new tables are the movement by id of the old ones, and the database stays valid |
| Store.Database.UpdateInventoryByName | db_utils.py:41-62 | the new tables are the by-name movement of the old ones: nothing when the name is absent |
| Scan.HandleLabel | app.py:107-115 | a label seen before changes nothing; a new one is appended to the seen labels; with no product matching it ignoring case the tables are unchanged |
| Scan.ScanLabels | app.py:105-115 | the seen labels only grow, as a prefix, by at most one per label; the product table keeps its row count |
| Scan.HandleMatchedLabel | app.py:109-113 | a new label matching product k first (ignoring case) adds exactly 1 to k's stock, leaves other products alone and appends one in-time log row for k's id |
| Scan.ScanAppend | init_and_insert.py:93-112 | handling labels a then b is handling a + b: the seen labels carry over between frames |
| Scan.ScanRemembers | app.py:107-108 | earlier seen labels stay in place and every handled label ends up seen |
| Scan.ScanNoDuplicates | app.py:107-108 | the seen-label list never holds a label twice |
| Scan.SeenLabelsIgnored | app.py:107 | labels that were all seen already change nothing |
| Scan.RescanChangesNothing | init_and_insert.py:104-105 | handling the same labels again right after changes neither the tables nor the seen labels |
| Scan.ScanOnlyAdds | app.py:105-115 | a scan keeps product rows apart from stock, never lowers stock, keeps the old log rows, and writes no more log rows than newly seen labels |
| Scan.CaseVariantsCountTwice | app.py:107-110 | two different spellings that are equal ignoring case, neither seen before, both count against the first product matching them: its stock rises by 2, two log rows are written, and both spellings are remembered |
| Scan.ProcessDetections | app.py:105-115 | the loop over a frame's labels leaves the database and seen labels exactly as the label-handling specification says |
| Catalog.Recommendations | app.py:60 | no longer than the catalog; every result is a catalog item whose emotion matches ignoring case; every such item is in the result |
| Catalog.RecommendationsAppend | app.py:60 | recommending from two stretches gives the two results in order, so catalog order is kept |
| Catalog.RecommendationsSnoc | init_and_insert.py:62-63 | one more catalog item adds exactly that item to the end when its emotion matches, else nothing |
| Catalog.RecommendationsIgnoreCase | app.py:55-60 | the casing of the detected emotion does not change the result |
| App.ProductIdFor | app.py:149 | None iff no product is named exactly as the selection; otherwise the id of the first such product |
| App.ManualUpdate | app.py:151-159 | "Add 1" is an `"in"` movement and "Remove 1" an `"out"` movement of the looked-up id (NULL when absent) |
| App.ManualUpdateAgreesWithByName | app.py:149-158 | for a name that exists, lookup then move by id equals the by-name movement |
| App.ManualUpdateWithoutProduct | app.py:149-158 | for a name that does not exist, the by-name movement writes nothing, but the app moves no stock and still logs one row with a NULL product id |
| App.ScanSession.constructor | app.py:82-87 | a new session is not scanning, has seen no labels and holds no camera |
| App.ScanSession.Start | app.py:90-93 | when idle: camera opened, scanning, seen labels emptied; when already scanning: seen labels kept |
| App.ScanSession.ScanFrame | app.py:95-115 | one frame's labels are handled against the database, and the seen labels persist to the next rerun |
| App.ScanSession.Stop | app.py:121-125 | the camera is released and scanning stops |
| InitAndInsert.Flatten | init_and_insert.py:93-102 | every label of every frame appears in the concatenated labels, and every concatenated label comes from some frame |
| InitAndInsert.Scanner.constructor | init_and_insert.py:40-41 | the scanner starts idle |
| InitAndInsert.Scanner.Toggle | init_and_insert.py:79-84 | a press flips the scanning state; no press keeps it |
| InitAndInsert.Scanner.Run | init_and_insert.py:87-117 | one run starts with no labels seen and leaves the database as handling all frames' labels in order says |
| InitAndInsert.RunCountsLabelOnce | init_and_insert.py:89-105 | within one run, labels already shown by some frame change nothing when they appear again |
| InitAndInsert.ShowRecommendations | init_and_insert.py:61-63 | the loop shows exactly the recommendations, in catalog order |
| Dashboard.IndexOf | test.py:48 | the position of the first column with that name |
| Dashboard.HighlightLowStock | test.py:45-49 | one style per column; a cell is styled iff it is the Stock cell and stock < reorder level; that cell gets the red background |
| Dashboard.LowStockCount | test.py:56 | the low-stock count is the number of row positions strictly below their reorder level, hence at most the row count |
| Dashboard.CountMatchesHighlight | test.py:56-63 | the overview count equals the number of rows shown with a highlighted Stock cell |
| Dashboard.ThresholdVariantsDiffer | test.py:47 | a product exactly at its level is low for the SQLite pages and not for the dashboard; one below it is low for both |
| Dashboard.SampleDataLowStock | test.py:18-27 | the sample data has exactly one low-stock row |
| Dashboard.RowsInCategory | test.py:74 | the result holds exactly the rows of that category and nothing else |
| Dashboard.RowsInCategoryAppend | test.py:74 | filtering two stretches gives the two results in order, so table order is kept |
| Dashboard.FilterByCategory | test.py:73-76 | `"All"` returns the whole table; any other choice exactly the rows of that category |
| Dashboard.Upserted | test.py:95-118 | an empty id changes nothing; an existing id overwrites every row carrying it, with the same row count; a new id appends one row at the end |
| Dashboard.UpsertIdempotent | test.py:99-117 | submitting the same form twice equals submitting it once |
| Dashboard.UpsertKeepsIdsUnique | test.py:99-118 | unique ids stay unique, and a submitted non-empty id ends up holding exactly the submitted fields |
| Dashboard.MatchIndex | test.py:164-167 | None iff no product name matches the label ignoring case; otherwise the first matching row |
| Dashboard.LoadData | test.py:18-27 | the sample table has four rows with unique non-empty ids and non-negative stock and reorder levels |
| Dashboard.ReportFor | test.py:164-179 | the report names the label; not found iff no product name matches it ignoring case; otherwise it carries the first match's stock and reorder level and flags below-reorder iff stock < reorder level |
| Dashboard.ScanReports | test.py:157-179 | at most one report per label, and none for a label seen earlier in the session |
| Dashboard.ReportsOncePerSession | test.py:157-162 | the reported names are distinct, none was seen earlier in the session, and each comes from the frame |
| Dashboard.EveryNewLabelReported | test.py:157-179 | every frame label not seen before is reported, and each report is the inventory lookup of its label |
| Dashboard.ScanReportsAppend | test.py:157-179 | reporting a + b is reporting a, then b minus the labels seen in a |
| Dashboard.Session.constructor | test.py:31-32 | the session starts with the sample data and the five columns, not scanning, nothing seen |
| Dashboard.Session.Overview | test.py:55-56 | the total is the row count, and the low count is the strict low-stock count |
| Dashboard.Session.Submit | test.py:95-118 | the table becomes the upsert of the form; a row is added iff the id is non-empty and new |
| Dashboard.Session.ReplaceFromUpload | test.py:218-229 | the upload is accepted iff its header has all five required columns; accepted replaces the table, rejected leaves it unchanged |
| Dashboard.Session.Start | test.py:133-137 | when idle: scanning starts and the seen set is emptied; when scanning: the seen set is kept |
| Dashboard.Session.Stop | test.py:139-144 | stops only when a capture handle exists; afterwards no scan and no camera |
| Dashboard.Session.ScanFrame | test.py:146-179 | the frame's labels join the seen set; reports are exactly one per new label; the table is not touched |

## Left out

- Camera capture, the YOLO object detector, the Haar face cascade and DeepFace are foreign calls. Detected labels and the detected emotion are inputs.
- The emotion button's loop over faces is not modelled: `app.py` stops after the first face that classifies, `init_and_insert.py` goes on to every face. Only the recommendation filter for one emotion is modelled.
- Streamlit widgets, messages, page reruns and rendering are out. Button presses are method calls or boolean inputs.
- Plotly charts (test.py:188-202) are pure presentation.
- Log export to CSV, the inventory download, `json.load` of the catalog and `pd.read_csv` of an upload (with its exceptions) are file I/O. The parsed catalog and the parsed upload are inputs.
- SQLite connections, cursors, SQL text, I/O failures and rollback are out. Each connection's work is one atomic step.
- Queries against a table that was never created fail in SQLite. The methods require the tables to exist instead of modelling that error.
- `datetime.now()` is clock I/O. The timestamp is a parameter: one per movement, one per frame, one per scanning run.
- Strings.Lower: only ASCII letters are folded. Python's `str.lower` is Unicode-aware (SQLite's `LOWER` is ASCII-only), so labels with non-ASCII capitals may compare differently.
- `emotion.py` is a webcam display loop, and `detect_objects.py` only de-duplicates detector output. Neither is part of this model.
- The duplicate `Analytics` and `Upload/Download` branches at test.py:234-277 can never run.
- `db_utils.py` creates a four-column products table, while the pages unpack five columns. The product record always has a threshold, and the mismatch is not modelled.
- An upload's columns beyond the five required ones are kept as column names only; their values are not modelled, nor are non-numeric Stock values.
- A column name occurring twice in an upload is modelled as its first position, which is not what pandas' `get_loc` does.
- The `new_detections` set in test.py:155-161 is written but never read, so it is not modelled.
- Uploaded Product IDs are taken to stay strings. `pd.read_csv` can infer an integer column, after which a form's string id never matches an uploaded row and the upsert appends instead of overwriting; that type inference is not modelled.
- InitAndInsert.Scanner.Run: the camera is a finite sequence of frames, and the run ends when a read fails after the last frame. A page rerun that aborts the loop midway is not modelled.
