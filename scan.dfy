/** Handling the labels the object detector reports while a scan is running (app.py:105-115,
    init_and_insert.py:102-112): a label is handled only the first time it is seen in the run,
    and a first sighting that names a product (ignoring case) records one incoming movement. */
module Scan {
  import opened Strings
  import opened Ledger
  import Store

  /** The tables together with the labels already seen, in the order they were first seen. */
  datatype ScanState = ScanState(tables: Tables, detected: seq<string>)

  /** One label: skipped if already seen; otherwise remembered, looked up against the product
      names ignoring case, and, when some row matches, the first such row gets an "in" movement.
      A label seen before changes nothing; a new one is remembered; if no product name matches it
      ignoring case the tables stay as they were (the matched case is `HandleMatchedLabel`). */
  function HandleLabel(s: ScanState, name: string, now: Timestamp): (r: ScanState)
    ensures name in s.detected ==> r == s
    ensures name !in s.detected ==> r.detected == s.detected + [name]
    ensures FirstMatch(s.tables.products, name, IgnoreCase).None? ==> r.tables == s.tables
  {
    if name in s.detected then s
    else
      var seen := s.detected + [name];
      match FirstMatch(s.tables.products, name, IgnoreCase)
      case None => ScanState(s.tables, seen)
      case Some(k) => ScanState(Movement(s.tables, Some(s.tables.products[k].productId), "in", now), seen)
  }

  /** The labels of one frame (or of several frames one after another), handled in order. The
      remembered labels only grow, by at most one per label, and the product table keeps its rows. */
  function ScanLabels(s: ScanState, labels: seq<string>, now: Timestamp): (r: ScanState)
    ensures s.detected <= r.detected && |r.detected| <= |s.detected| + |labels|
    ensures |r.tables.products| == |s.tables.products|
    decreases |labels|
  {
    if labels == [] then s else ScanLabels(HandleLabel(s, labels[0], now), labels[1..], now)
  }

  lemma HandleMatchedLabel(s: ScanState, name: string, k: nat, now: Timestamp)
    requires UniqueIds(s.tables.products) && k < |s.tables.products| && name !in s.detected
    requires SameIgnoringCase(s.tables.products[k].name, name)
    requires forall j :: 0 <= j < k ==> !SameIgnoringCase(s.tables.products[j].name, name)
    ensures var r := HandleLabel(s, name, now);
      && |r.tables.products| == |s.tables.products|
      && r.tables.products[k] == s.tables.products[k].(stock := s.tables.products[k].stock + 1)
      && (forall j :: 0 <= j < |s.tables.products| && j != k ==> r.tables.products[j] == s.tables.products[j])
      && |r.tables.logs| == |s.tables.logs| + 1 && r.tables.logs[..|s.tables.logs|] == s.tables.logs
      && r.tables.logs[|s.tables.logs|].productId == Some(s.tables.products[k].productId)
      && r.tables.logs[|s.tables.logs|].inTime == Some(now) && r.tables.logs[|s.tables.logs|].outTime == None
  {
    assert FirstMatch(s.tables.products, name, IgnoreCase) == Some(k);
  }

  /** Handling a + b is handling a, then b: the state carries over between frames. */
  lemma {:induction false} ScanAppend(s: ScanState, a: seq<string>, b: seq<string>, now: Timestamp)
    ensures ScanLabels(s, a + b, now) == ScanLabels(ScanLabels(s, a, now), b, now)
    decreases |a|
  {
    if a == [] {
      assert a + b == b;
    } else {
      assert (a + b)[0] == a[0];
      assert (a + b)[1..] == a[1..] + b;
      ScanAppend(HandleLabel(s, a[0], now), a[1..], b, now);
    }
  }

  /** The earlier labels stay in place and every handled label ends up remembered. */
  lemma {:induction false} ScanRemembers(s: ScanState, labels: seq<string>, now: Timestamp)
    ensures s.detected <= ScanLabels(s, labels, now).detected
    ensures forall l :: l in labels ==> l in ScanLabels(s, labels, now).detected
    decreases |labels|
  {
    if labels != [] {
      var s1 := HandleLabel(s, labels[0], now);
      ScanRemembers(s1, labels[1..], now);
      assert labels[0] in s1.detected;
      assert forall l :: l in labels ==> l == labels[0] || l in labels[1..];
    }
  }

  predicate NoDuplicates(xs: seq<string>) {
    forall i, j :: 0 <= i < j < |xs| ==> xs[i] != xs[j]
  }

  /** A label is remembered at most once. */
  lemma {:induction false} ScanNoDuplicates(s: ScanState, labels: seq<string>, now: Timestamp)
    requires NoDuplicates(s.detected)
    ensures NoDuplicates(ScanLabels(s, labels, now).detected)
    decreases |labels|
  {
    if labels != [] {
      ScanNoDuplicates(HandleLabel(s, labels[0], now), labels[1..], now);
    }
  }

  /** Labels that have all been seen already change nothing at all. */
  lemma {:induction false} SeenLabelsIgnored(s: ScanState, labels: seq<string>, now: Timestamp)
    requires forall l :: l in labels ==> l in s.detected
    ensures ScanLabels(s, labels, now) == s
    decreases |labels|
  {
    if labels != [] {
      assert labels[0] in labels;
      SeenLabelsIgnored(s, labels[1..], now);
    }
  }

  /** Within one run a label is counted at most once: handling the same labels again, after they
      have been handled, changes neither the tables nor the remembered labels. */
  lemma RescanChangesNothing(s: ScanState, labels: seq<string>, now: Timestamp)
    ensures var r := ScanLabels(s, labels, now); ScanLabels(r, labels, now) == r
  {
    ScanRemembers(s, labels, now);
    SeenLabelsIgnored(ScanLabels(s, labels, now), labels, now);
  }

  /** A scan only ever adds: the product rows keep their ids and names and never lose stock, the
      old log rows stay, and there are no more new log rows than newly remembered labels. */
  lemma {:induction false} ScanOnlyAdds(s: ScanState, labels: seq<string>, now: Timestamp)
    ensures var r := ScanLabels(s, labels, now);
      && |r.tables.products| == |s.tables.products|
      && (forall j :: 0 <= j < |s.tables.products| ==>
            SameExceptStock(r.tables.products[j], s.tables.products[j])
            && r.tables.products[j].stock >= s.tables.products[j].stock)
      && |s.tables.logs| <= |r.tables.logs| && r.tables.logs[..|s.tables.logs|] == s.tables.logs
      && |s.detected| <= |r.detected|
      && |r.tables.logs| - |s.tables.logs| <= |r.detected| - |s.detected|
    decreases |labels|
  {
    if labels != [] {
      var s1 := HandleLabel(s, labels[0], now);
      ScanOnlyAdds(s1, labels[1..], now);
      var r := ScanLabels(s1, labels[1..], now);
      assert r.tables.logs[..|s.tables.logs|] == r.tables.logs[..|s1.tables.logs|][..|s.tables.logs|];
    }
  }

  /** The detected list is matched exactly, the products ignoring case: two different spellings
      of the same name, say "milk" and "Milk", are two different labels in one run, and both count
      against the first product matching them. */
  lemma {:induction false} CaseVariantsCountTwice(s: ScanState, a: string, b: string, k: nat, now: Timestamp)
    requires UniqueIds(s.tables.products) && k < |s.tables.products|
    requires a != b && a !in s.detected && b !in s.detected && SameIgnoringCase(a, b)
    requires SameIgnoringCase(s.tables.products[k].name, a)
    requires forall j :: 0 <= j < k ==> !SameIgnoringCase(s.tables.products[j].name, a)
    ensures var r := ScanLabels(s, [a, b], now);
      && r.detected == s.detected + [a] + [b]
      && r.tables.products[k].stock == s.tables.products[k].stock + 2
      && |r.tables.logs| == |s.tables.logs| + 2
  {
    ScanTwo(s, a, b, now);
    BothVariantsCount(s, a, b, k, now);
  }

  /** The same, with the two labels handled one at a time. */
  lemma {:induction false} BothVariantsCount(s: ScanState, a: string, b: string, k: nat, now: Timestamp)
    requires UniqueIds(s.tables.products) && k < |s.tables.products|
    requires a != b && a !in s.detected && b !in s.detected && SameIgnoringCase(a, b)
    requires SameIgnoringCase(s.tables.products[k].name, a)
    requires forall j :: 0 <= j < k ==> !SameIgnoringCase(s.tables.products[j].name, a)
    ensures var r := HandleLabel(HandleLabel(s, a, now), b, now);
      && r.detected == s.detected + [a] + [b]
      && k < |r.tables.products|
      && r.tables.products[k].stock == s.tables.products[k].stock + 2
      && |r.tables.logs| == |s.tables.logs| + 2
  {
    var s1 := HandleLabel(s, a, now);
    FirstVariantKeepsMatch(s, a, b, k, now);
    MatchedLabelCounts(s1, b, k, now);
  }

  /** Two labels are handled one after the other. */
  lemma ScanTwo(s: ScanState, a: string, b: string, now: Timestamp)
    ensures ScanLabels(s, [a, b], now) == HandleLabel(HandleLabel(s, a, now), b, now)
  {
    var s1 := HandleLabel(s, a, now);
    assert [a, b][0] == a && [a, b][1..] == [b] && [b][0] == b && [b][1..] == [];
    assert ScanLabels(s, [a, b], now) == ScanLabels(s1, [b], now);
    assert ScanLabels(s1, [b], now) == ScanLabels(HandleLabel(s1, b, now), [], now);
  }

  /** The counts a matched new label changes: one more remembered label, one more unit of the
      matched product, one more log row. */
  lemma MatchedLabelCounts(s: ScanState, name: string, k: nat, now: Timestamp)
    requires UniqueIds(s.tables.products) && k < |s.tables.products| && name !in s.detected
    requires SameIgnoringCase(s.tables.products[k].name, name)
    requires forall j :: 0 <= j < k ==> !SameIgnoringCase(s.tables.products[j].name, name)
    ensures var r := HandleLabel(s, name, now);
      && r.detected == s.detected + [name]
      && k < |r.tables.products| && r.tables.products[k].stock == s.tables.products[k].stock + 1
      && |r.tables.logs| == |s.tables.logs| + 1
  {
    HandleMatchedLabel(s, name, k, now);
  }

  /** After the first spelling is handled, the second is still new and still first matches
      product k, whose stock and log have grown by one. */
  lemma {:induction false} FirstVariantKeepsMatch(s: ScanState, a: string, b: string, k: nat, now: Timestamp)
    requires UniqueIds(s.tables.products) && k < |s.tables.products|
    requires a != b && a !in s.detected && b !in s.detected && SameIgnoringCase(a, b)
    requires SameIgnoringCase(s.tables.products[k].name, a)
    requires forall j :: 0 <= j < k ==> !SameIgnoringCase(s.tables.products[j].name, a)
    ensures var s1 := HandleLabel(s, a, now);
      && UniqueIds(s1.tables.products) && k < |s1.tables.products|
      && b !in s1.detected && s1.detected == s.detected + [a]
      && SameIgnoringCase(s1.tables.products[k].name, b)
      && (forall j :: 0 <= j < k ==> !SameIgnoringCase(s1.tables.products[j].name, b))
      && s1.tables.products[k].stock == s.tables.products[k].stock + 1
      && |s1.tables.logs| == |s.tables.logs| + 1
  {
    var ps := s.tables.products;
    HandleMatchedLabel(s, a, k, now);
    var s1 := HandleLabel(s, a, now);
    assert forall j :: 0 <= j < |ps| ==>
      s1.tables.products[j].name == ps[j].name && s1.tables.products[j].productId == ps[j].productId;
  }

  /** The loop over one frame's labels, run against the database. */
  method ProcessDetections(db: Store.Database, detected: seq<string>, labels: seq<string>, now: Timestamp)
    returns (seen: seq<string>)
    requires db.Valid() && db.productsTable && db.logsTable
    modifies db`products, db`logs, db`lastLogId
    ensures db.Valid()
    ensures ScanState(db.State(), seen) == ScanLabels(ScanState(old(db.State()), detected), labels, now)
  {
    seen := detected;
    for i := 0 to |labels|
      invariant db.Valid() && db.productsTable && db.logsTable
      invariant ScanState(db.State(), seen) == ScanLabels(ScanState(old(db.State()), detected), labels[..i], now)
    {
      var name := labels[i];
      ScanAppend(ScanState(old(db.State()), detected), labels[..i], [name], now);
      assert labels[..i + 1] == labels[..i] + [name];
      if name !in seen {
        seen := seen + [name];
        var row := FirstMatch(db.products, name, IgnoreCase);
        if row.Some? {
          db.UpdateInventoryById(Some(db.products[row.value].productId), "in", now);
        }
      }
    }
    assert labels[..|labels|] == labels;
  }
}
