/** init_and_insert.py: the variant whose scan runs as one long loop over camera frames, with the
    list of seen labels local to that loop, and whose recommendations are emitted by a loop. */
module InitAndInsert {
  import opened Ledger
  import opened Scan
  import opened Catalog
  import Store

  /** All labels of the frames, frame after frame. */
  function Flatten(frames: seq<seq<string>>): (labels: seq<string>)
    ensures forall i :: 0 <= i < |frames| ==> forall l :: l in frames[i] ==> l in labels
    ensures forall l :: l in labels ==> exists i :: 0 <= i < |frames| && l in frames[i]
  {
    if frames == [] then [] else Flatten(frames[..|frames| - 1]) + frames[|frames| - 1]
  }

  class Scanner {
    var scanning: bool

    constructor ()
      ensures !scanning
    {
      scanning := false;
    }

    /** One button is offered: "Start" while idle, "Stop" while scanning. Pressing it flips the state. */
    method Toggle(pressed: bool)
      modifies this
      ensures scanning == (if pressed then !old(scanning) else old(scanning))
    {
      if !scanning {
        if pressed {
          scanning := true;
        }
      } else {
        if pressed {
          scanning := false;
        }
      }
    }

    /** One scanning run: it starts with no labels seen, handles the labels of each frame read, and
        ends when a read fails (after the last of `frames`). Seen labels do not outlive the run. */
    method Run(db: Store.Database, frames: seq<seq<string>>, now: Timestamp) returns (detected: seq<string>)
      requires scanning
      requires db.Valid() && db.productsTable && db.logsTable
      modifies db`products, db`logs, db`lastLogId
      ensures db.Valid()
      ensures ScanState(db.State(), detected) == ScanLabels(ScanState(old(db.State()), []), Flatten(frames), now)
    {
      detected := [];
      var i := 0;
      while scanning
        invariant 0 <= i <= |frames|
        invariant db.Valid() && db.productsTable && db.logsTable
        invariant ScanState(db.State(), detected) == ScanLabels(ScanState(old(db.State()), []), Flatten(frames[..i]), now)
        invariant scanning
        decreases |frames| - i
      {
        if i == |frames| {
          break;
        }
        ScanAppend(ScanState(old(db.State()), []), Flatten(frames[..i]), frames[i], now);
        assert frames[..i + 1][..i] == frames[..i];
        detected := ProcessDetections(db, detected, frames[i], now);
        i := i + 1;
      }
      assert frames[..|frames|] == frames;
    }
  }

  /** Within one run each label changes the tables at most once, however many frames show it. */
  lemma RunCountsLabelOnce(t: Tables, frames: seq<seq<string>>, repeated: seq<string>, now: Timestamp)
    requires forall l :: l in repeated ==> exists i :: 0 <= i < |frames| && l in frames[i]
    ensures var r := ScanLabels(ScanState(t, []), Flatten(frames), now);
      ScanLabels(ScanState(t, []), Flatten(frames) + repeated, now) == r
  {
    var s0 := ScanState(t, []);
    var r := ScanLabels(s0, Flatten(frames), now);
    ScanAppend(s0, Flatten(frames), repeated, now);
    ScanRemembers(s0, Flatten(frames), now);
    SeenLabelsIgnored(r, repeated, now);
  }

  /** The recommendation loop: every catalog item whose emotion matches, ignoring case, is shown,
      in catalog order. */
  method ShowRecommendations(catalog: seq<CatalogItem>, emotion: string) returns (shown: seq<CatalogItem>)
    ensures shown == Recommendations(catalog, emotion)
  {
    shown := [];
    for i := 0 to |catalog|
      invariant shown == Recommendations(catalog[..i], emotion)
    {
      var item := catalog[i];
      RecommendationsSnoc(catalog, i, emotion);
      if Suits(item, emotion) {
        shown := shown + [item];
      }
    }
    assert catalog[..|catalog|] == catalog;
  }
}
