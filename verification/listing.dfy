/**
 The list of days on the main page (app.py:94-96, 101, 107-108): nothing is listed for an empty
 catalog; otherwise the catalog entries are sorted by the number their key denotes and each line
 shows the day's run count and status.
 */
module DayListing {
  import opened Common
  import opened DayKeys
  import opened Progress
  import opened StableSort

  /**
   One item of the catalog dict: a day key and its words. A catalog lists the items in dict
   order, which is the order of each key's first occurrence in words.json.
   */
  datatype Entry = Entry(day: DayKey, words: seq<Word>)

  /** No day key occurs twice, as for the keys of a dict. */
  predicate DistinctDays(catalog: seq<Entry>)
  {
    forall i, j :: 0 <= i < j < |catalog| ==> catalog[i].day != catalog[j].day
  }

  /** One line of the day list. */
  datatype DayRow = DayRow(entry: Entry, num: nat, completed: nat, status: DayStatus)

  /** Why no list is produced: the catalog is empty, or `int()` rejects a day key. */
  datatype ListingError = NoCatalog | BadDayKey(day: DayKey)

  predicate HasNumber(e: Entry)
  {
    ParseDayKey(e.day).Some?
  }

  /** The number the key of `e` denotes, which decides its place in the list (0 if there is none). */
  function DayNumber(e: Entry): nat
  {
    match ParseDayKey(e.day)
    case Some(n) => n
    case None => 0
  }

  predicate AllNumbered(s: seq<Entry>)
  {
    forall i :: 0 <= i < |s| ==> HasNumber(s[i])
  }

  /**
   The first key of `s` that does not denote a number, if any: the one whose `int()` call raises
   when the sort computes its keys in catalog order.
   */
  function FirstBadKey(s: seq<Entry>): (r: Option<DayKey>)
    ensures r.None? <==> AllNumbered(s)
    ensures r.Some? ==>
              exists i :: 0 <= i < |s| && s[i].day == r.value && !HasNumber(s[i]) && AllNumbered(s[..i])
    decreases |s|
  {
    if s == [] then None
    else if !HasNumber(s[0]) then
      assert AllNumbered(s[..0]);
      Some(s[0].day)
    else
      var r := FirstBadKey(s[1..]);
      if r.Some? then
        assert exists i :: 0 < i < |s| && s[i].day == r.value && !HasNumber(s[i]) && AllNumbered(s[..i]) by {
          var j :| 0 <= j < |s[1..]| && s[1..][j].day == r.value && !HasNumber(s[1..][j]) && AllNumbered(s[1..][..j]);
          assert s[..j + 1] == [s[0]] + s[1..][..j];
          assert AllNumbered(s[..j + 1]);
        }
        r
      else
        assert forall i :: 0 < i < |s| ==> s[i] == s[1..][i - 1];
        None
  }

  /** The line shown for one entry: its run count and status (app.py:107-108). */
  function RowOf(e: Entry, progress: Progress): DayRow
  {
    DayRow(e, DayNumber(e), Completed(progress, e.day), StatusOf(progress, e.day))
  }

  /** The lines for a list of entries, one per entry, in the same order. */
  function RowsOf(es: seq<Entry>, progress: Progress): (rows: seq<DayRow>)
    ensures |rows| == |es|
    ensures forall i :: 0 <= i < |es| ==> rows[i] == RowOf(es[i], progress)
    ensures EntriesOf(rows) == es
  {
    var rows := seq(|es|, i requires 0 <= i < |es| => RowOf(es[i], progress));
    assert EntriesOf(rows) == es;
    rows
  }

  /** Rearranging entries keeps every key readable as a number if it was before. */
  lemma PermutationKeepsNumbered(a: seq<Entry>, b: seq<Entry>)
    requires AllNumbered(a)
    requires multiset(a) == multiset(b)
    ensures AllNumbered(b)
  {
    forall i | 0 <= i < |b|
      ensures HasNumber(b[i])
    {
      assert b[i] in multiset(a);
    }
  }

  /** The entries of a list of lines, in list order. */
  function EntriesOf(rows: seq<DayRow>): (r: seq<Entry>)
    ensures |r| == |rows|
    ensures forall i :: 0 <= i < |rows| ==> r[i] == rows[i].entry
  {
    seq(|rows|, i requires 0 <= i < |rows| => rows[i].entry)
  }

  /**
   The day list. An empty catalog gives no list (app.py:94-96); a key `int()` rejects stops the
   listing at the first such key; otherwise the lines are all the catalog entries, each once,
   ascending by day number with ties in catalog order, each showing the day's current run count
   and the status that count gives.
   */
  function Listing(catalog: seq<Entry>, progress: Progress): (r: Result<seq<DayRow>, ListingError>)
    requires DistinctDays(catalog)
    ensures r == Err(NoCatalog) <==> catalog == []
    ensures r.Ok? <==> catalog != [] && AllNumbered(catalog)
    ensures r.Err? && catalog != [] ==>
              exists i :: 0 <= i < |catalog| && r.error == BadDayKey(catalog[i].day)
                            && !HasNumber(catalog[i]) && AllNumbered(catalog[..i])
    ensures r.Ok? ==>
              var es := EntriesOf(r.value);
              && multiset(es) == multiset(catalog)
              && Ascending(DayNumber, es)
              && (forall v :: WithKey(DayNumber, es, v) == WithKey(DayNumber, catalog, v))
    ensures r.Ok? ==>
              forall i :: 0 <= i < |r.value| ==>
                var row := r.value[i];
                && ParseDayKey(row.entry.day) == Some(row.num)
                && row.completed == Completed(progress, row.entry.day)
                && (row.status == Passed <==> Completed(progress, row.entry.day) >= PassThreshold)
  {
    if catalog == [] then
      Err(NoCatalog)
    else
      var bad := FirstBadKey(catalog);
      if bad.Some? then
        Err(BadDayKey(bad.value))
      else
        var sorted := Sort(DayNumber, catalog);
        PermutationKeepsNumbered(catalog, sorted);
        Ok(RowsOf(sorted, progress))
  }
}
