/** app.py: the manual stock update and the scan session that survives page reruns in the
    session state (`scanning`, `detected`, `cap`). */
module App {
  import opened Strings
  import opened Ledger
  import opened Scan
  import Store

  /** The product id for the product chosen in the select box: the id of the first row whose name
      is exactly the selection, or None when there is no such row (an empty table). */
  function ProductIdFor(products: seq<Product>, selected: string): (pid: Option<string>)
    ensures pid.None? <==> forall i :: 0 <= i < |products| ==> products[i].name != selected
    ensures pid.Some? ==>
      exists k :: && 0 <= k < |products| && products[k].name == selected
                  && pid == Some(products[k].productId)
                  && forall j :: 0 <= j < k ==> products[j].name != selected
  {
    match FirstMatch(products, selected, Exact)
    case None => None
    case Some(k) => Some(products[k].productId)
  }

  /** The "Add 1" / "Remove 1" buttons. */
  method ManualUpdate(db: Store.Database, selected: string, add: bool, now: Timestamp)
    requires db.Valid() && db.productsTable && db.logsTable
    modifies db`products, db`logs, db`lastLogId
    ensures db.Valid()
    ensures db.State() == Movement(old(db.State()), ProductIdFor(old(db.products), selected), if add then "in" else "out", now)
  {
    var products := db.GetAllProducts();
    var pid := ProductIdFor(products, selected);
    db.UpdateInventoryById(pid, if add then "in" else "out", now);
  }

  /** When the selected name exists, looking up its id and moving by id (app.py) has exactly the
      effect of db_utils' move by name. */
  lemma ManualUpdateAgreesWithByName(t: Tables, selected: string, direction: string, now: Timestamp)
    requires exists i :: 0 <= i < |t.products| && t.products[i].name == selected
    ensures Movement(t, ProductIdFor(t.products, selected), direction, now) == MovementByName(t, selected, direction, now)
  {
  }

  /** Where they differ: with no product of that name db_utils writes nothing, while app.py
      moves no stock but still writes a log row whose product id is NULL. */
  lemma ManualUpdateWithoutProduct(t: Tables, selected: string, direction: string, now: Timestamp)
    requires forall i :: 0 <= i < |t.products| ==> t.products[i].name != selected
    ensures MovementByName(t, selected, direction, now) == t
    ensures var r := Movement(t, ProductIdFor(t.products, selected), direction, now);
      r.products == t.products && |r.logs| == |t.logs| + 1 && r.logs[|t.logs|].productId == None
  {
    UnknownIdStillLogged(t, None, direction, now);
  }

  /** The scan state kept across reruns. `cameraOpen` stands for a capture handle being held. */
  class ScanSession {
    var scanning: bool
    var detected: seq<string>
    var cameraOpen: bool

    /** The camera handle is held exactly while scanning. */
    ghost predicate Valid()
      reads this
    {
      scanning == cameraOpen
    }

    constructor ()
      ensures Valid() && !scanning && detected == [] && !cameraOpen
    {
      scanning, detected, cameraOpen := false, [], false;
    }

    /** The start button: when not scanning, open the camera, start scanning and forget every
        label seen before; while already scanning, nothing happens. */
    method Start()
      requires Valid()
      modifies this
      ensures Valid() && scanning && cameraOpen
      ensures old(scanning) ==> detected == old(detected)
      ensures !old(scanning) ==> detected == []
    {
      if !scanning {
        cameraOpen := true;
        scanning := true;
        detected := [];
      }
    }

    /** One rerun while scanning, with a frame that was read: its labels are handled against the
        database, remembering them in `detected` for the rest of the session. */
    method ScanFrame(db: Store.Database, labels: seq<string>, now: Timestamp)
      requires Valid() && scanning
      requires db.Valid() && db.productsTable && db.logsTable
      modifies this`detected, db`products, db`logs, db`lastLogId
      ensures Valid() && db.Valid()
      ensures ScanState(db.State(), detected) == ScanLabels(ScanState(old(db.State()), old(detected)), labels, now)
    {
      detected := ProcessDetections(db, detected, labels, now);
    }

    /** The stop button, shown only while scanning: release the camera and stop. The labels seen
        stay remembered until the next start. */
    method Stop()
      requires Valid() && scanning
      modifies this`scanning, this`cameraOpen
      ensures Valid() && !scanning && !cameraOpen
    {
      cameraOpen := false;
      scanning := false;
    }
  }
}
