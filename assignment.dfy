/** Turning each batch into moves (sort_csk_image_dirs.py lines 208-248):
    a batch of exactly three tuples is sorted by time and its i-th
    directory goes to `<site i>/<YYYYMMDD>_<site i>`; any other batch is
    reported with its size and left alone. */
module Assignment {
  import opened Text
  import opened ImageNames
  import opened Grouping
  import Sites

  /** `<` on `datetime` values: chronological, field by field. */
  predicate StampLess(a: DateTime, b: DateTime) {
    if a.year != b.year then a.year < b.year
    else if a.month != b.month then a.month < b.month
    else if a.day != b.day then a.day < b.day
    else if a.hour != b.hour then a.hour < b.hour
    else if a.minute != b.minute then a.minute < b.minute
    else a.second < b.second
  }

  predicate SortedByTime(s: seq<Entry>) {
    forall i, j :: 0 <= i < j < |s| ==> !StampLess(s[j].stamp, s[i].stamp)
  }

  /** The entries of `s` carrying exactly the time `t`, in their order in `s`. */
  function WithStamp(s: seq<Entry>, t: DateTime): seq<Entry> {
    if s == [] then []
    else WithStamp(s[..|s| - 1], t) + if s[|s| - 1].stamp == t then [s[|s| - 1]] else []
  }

  /** Insert `x` after every entry that is not later than it. */
  function InsertByTime(s: seq<Entry>, x: Entry): (r: seq<Entry>)
    ensures |r| == |s| + 1
  {
    if s == [] then [x]
    else if StampLess(x.stamp, s[|s| - 1].stamp) then InsertByTime(s[..|s| - 1], x) + [s[|s| - 1]]
    else s + [x]
  }

  lemma {:induction false} InsertByTimeCount(s: seq<Entry>, x: Entry)
    ensures multiset(InsertByTime(s, x)) == multiset(s) + multiset{x}
  {
    if s != [] {
      var n := |s| - 1;
      assert s == s[..n] + [s[n]];
      if StampLess(x.stamp, s[n].stamp) {
        InsertByTimeCount(s[..n], x);
      }
    }
  }

  lemma {:induction false} InsertByTimeSorted(s: seq<Entry>, x: Entry)
    requires SortedByTime(s)
    ensures SortedByTime(InsertByTime(s, x))
  {
    if s != [] {
      var n := |s| - 1;
      var init, last := s[..n], s[n];
      if StampLess(x.stamp, last.stamp) {
        InsertByTimeSorted(init, x);
        InsertByTimeCount(init, x);
        var r0 := InsertByTime(init, x);
        forall i | 0 <= i < |r0| ensures !StampLess(last.stamp, r0[i].stamp) {
          assert r0[i] in multiset(r0);
          assert r0[i] == x || r0[i] in init;
        }
      }
    }
  }

  lemma {:induction false} InsertByTimeWithStamp(s: seq<Entry>, x: Entry, t: DateTime)
    requires SortedByTime(s)
    ensures WithStamp(InsertByTime(s, x), t) == WithStamp(s, t) + if x.stamp == t then [x] else []
  {
    if s != [] {
      var n := |s| - 1;
      var init, last := s[..n], s[n];
      if StampLess(x.stamp, last.stamp) {
        InsertByTimeWithStamp(init, x, t);
        var r0 := InsertByTime(init, x);
        var r := r0 + [last];
        assert r[..|r| - 1] == r0;
        if x.stamp == t && last.stamp == t {
          assert false;
        }
      } else {
        var r := s + [x];
        assert r[..|r| - 1] == s;
      }
    }
  }

  /** `sorted(batch, key=lambda x: x[1])`: a stable sort by time. */
  function SortByTime(s: seq<Entry>): (r: seq<Entry>)
    ensures |r| == |s| && multiset(r) == multiset(s)
    ensures SortedByTime(r)
  {
    if s == [] then []
    else
      var init := SortByTime(s[..|s| - 1]);
      InsertByTimeSorted(init, s[|s| - 1]);
      InsertByTimeCount(init, s[|s| - 1]);
      assert s == s[..|s| - 1] + [s[|s| - 1]];
      InsertByTime(init, s[|s| - 1])
  }

  /** Stability: entries with equal times keep their relative order. */
  lemma {:induction false} SortByTimeStable(s: seq<Entry>, t: DateTime)
    ensures WithStamp(SortByTime(s), t) == WithStamp(s, t)
  {
    if s != [] {
      var n := |s| - 1;
      SortByTimeStable(s[..n], t);
      InsertByTimeWithStamp(SortByTime(s[..n]), s[n], t);
    }
  }

  /** Sorting a list that is already in time order leaves it as it is. */
  lemma {:induction false} SortByTimeIdempotent(s: seq<Entry>)
    requires SortedByTime(s)
    ensures SortByTime(s) == s
  {
    if s != [] {
      var n := |s| - 1;
      var init := s[..n];
      assert SortByTime(init) == init by {
        SortedPrefix(s, n);
        SortByTimeIdempotent(init);
      }
      assert s == init + [s[n]];
      SortByTimeSnoc(init, s[n]);
    }
  }

  lemma SortedPrefix(s: seq<Entry>, n: nat)
    requires SortedByTime(s) && n <= |s|
    ensures SortedByTime(s[..n])
  {
    forall i, j | 0 <= i < j < n ensures !StampLess(s[..n][j].stamp, s[..n][i].stamp) {
      assert s[..n][i] == s[i] && s[..n][j] == s[j];
    }
  }

  /** The sort of a list ending in an entry no earlier than the sorted rest. */
  lemma SortByTimeSnoc(init: seq<Entry>, x: Entry)
    requires SortByTime(init) == init
    requires init == [] || !StampLess(x.stamp, init[|init| - 1].stamp)
    ensures SortByTime(init + [x]) == init + [x]
  {
    var s := init + [x];
    assert s[..|s| - 1] == init;
  }
  /** `strftime('%Y%m%d')`. Python 2 refuses years before 1900 with a
      ValueError; otherwise the year has four digits and month and day are
      zero-padded to two. */
  function FormatDate(t: Timestamp): (r: Option<string>)
    ensures r.Some? <==> t.year >= 1900
  {
    if t.year < 1900 then None
    else Some(Padded(t.year, 4) + Padded(t.month, 2) + Padded(t.day, 2))
  }

  /** The formatted date is eight digits that read back as the year, the
      month and the day. */
  lemma FormatDateFields(t: Timestamp)
    requires t.year >= 1900
    ensures var date := FormatDate(t).value;
      && |date| == 8 && AllDigits(date)
      && Number(date[..4]) == t.year && Number(date[4..6]) == t.month && Number(date[6..8]) == t.day
  {
    var year, month, day := Padded(t.year, 4), Padded(t.month, 2), Padded(t.day, 2);
    NumberPadded(t.year, 4);
    NumberPadded(t.month, 2);
    NumberPadded(t.day, 2);
    var date := year + month + day;
    assert date[..4] == year && date[4..6] == month && date[6..8] == day;
  }

  lemma {:induction false} NumberPadded(n: nat, width: nat)
    requires n < Pow10(width)
    ensures Number(Padded(n, width)) == n
  {
    if width > 0 {
      NumberPadded(n / 10, width - 1);
      var s := Padded(n, width);
      assert s[..|s| - 1] == Padded(n / 10, width - 1);
    }
  }

  /** The date written into the new name is the date digits of the image
      file's own first stamp (for years from 1900 on). */
  lemma FormatDateOfStamp(start: string)
    requires IsStamp(start) && ValidDateTime(StartFields(start))
    requires StartFields(start).year >= 1900
    ensures FormatDate(StartFields(start)) == Some(start[..8])
  {
    var t := StartFields(start);
    var year, month, day := start[0..4], start[4..6], start[6..8];
    assert Padded(t.year, 4) == year by { PaddedNumber(year); }
    assert Padded(t.month, 2) == month by { PaddedNumber(month); }
    assert Padded(t.day, 2) == day by { PaddedNumber(day); }
    assert start[..8] == year + month + day;
  }

  /** `path + site + "/" + date + "_" + site` (lines 226-227). */
  function TargetPath(path: string, site: string, date: string): string {
    path + site + "/" + date + "_" + site
  }

  /** The line appended to sorted.txt (line 233). */
  function LogLine(source: string, target: string): string {
    "Moved directory " + source + " to " + target
  }

  /** Different site labels give different targets, whatever the dates. */
  lemma TargetsDiffer(path: string, site1: string, date1: string, site2: string, date2: string)
    requires Sites.IsLabel(site1) && Sites.IsLabel(site2) && site1 != site2
    ensures TargetPath(path, site1, date1) != TargetPath(path, site2, date2)
  {
    var a, b := TargetPath(path, site1, date1), TargetPath(path, site2, date2);
    var p := |path|;
    if |site1| == |site2| {
      var k :| 0 <= k < |site1| && site1[k] != site2[k];
      assert a[p + k] == site1[k] && b[p + k] == site2[k];
    } else if |site1| < |site2| {
      assert a[p + |site1|] == '/';
      assert b[p + |site1|] == site2[|site1|];
      assert site2[|site1|] in site2;
    } else {
      assert b[p + |site2|] == '/';
      assert a[p + |site2|] == site1[|site2|];
      assert site1[|site2|] in site1;
    }
  }

  /** What the run does, in order. */
  datatype Event =
    | Moved(source: string, target: string, log: string)
    | Skipped(key: string, count: nat)
      /** `strftime` raised for this directory: the run ends here. */
    | DateFormatFailed(source: string)

  /** One pass of the inner loop (lines 221-242): the directory, the date of
      its time, the target under the site, the log line. */
  function PlaceOne(path: string, site: string, e: Entry): (ev: Event)
    ensures ev.Moved? || ev.DateFormatFailed?
  {
    var source := path + e.dir;
    match FormatDate(e.stamp)
    case None => DateFormatFailed(source)
    case Some(date) =>
      var target := TargetPath(path, site, date);
      Moved(source, target, LogLine(source, target))
  }

  /** One pass fails exactly for a year before 1900; otherwise it moves
      `path + dir` to the site's directory under an eight-digit date that
      reads back as the tuple's year, month and day, and logs a line naming
      both. */
  lemma PlaceOneSpec(path: string, site: string, e: Entry)
    ensures PlaceOne(path, site, e).Moved? <==> e.stamp.year >= 1900
    ensures PlaceOne(path, site, e).DateFormatFailed? ==> PlaceOne(path, site, e) == DateFormatFailed(path + e.dir)
    ensures PlaceOne(path, site, e).Moved? ==>
      var date := FormatDate(e.stamp).value;
      && |date| == 8 && AllDigits(date)
      && Number(date[..4]) == e.stamp.year && Number(date[4..6]) == e.stamp.month
      && Number(date[6..8]) == e.stamp.day
      && PlaceOne(path, site, e)
         == Moved(path + e.dir, TargetPath(path, site, date), LogLine(path + e.dir, TargetPath(path, site, date)))
  {
    if e.stamp.year >= 1900 {
      FormatDateFields(e.stamp);
    }
  }

  /** The inner loop of lines 220-242 from position `count` on. */
  function Placements(path: string, sites: seq<string>, sorted: seq<Entry>, count: nat): seq<Event>
    requires |sites| == 3 && |sorted| == 3 && count <= 3
    decreases 3 - count
  {
    if count == 3 then []
    else
      var ev := PlaceOne(path, sites[count], sorted[count]);
      if ev.DateFormatFailed? then [ev] else [ev] + Placements(path, sites, sorted, count + 1)
  }

  /** One batch: three tuples are sorted and placed, any other count is
      reported and skipped. */
  function BatchEvents(path: string, sites: seq<string>, key: string, entries: seq<Entry>): seq<Event>
    requires |sites| == 3
  {
    if |entries| == 3 then Placements(path, sites, SortByTime(entries), 0)
    else [Skipped(key, |entries|)]
  }

  predicate Halted(events: seq<Event>) {
    |events| > 0 && events[|events| - 1].DateFormatFailed?
  }

  /** Runs batch after batch, stopping after the first one that halted. */
  function Chain(batches: seq<seq<Event>>): seq<Event> {
    if batches == [] then []
    else
      var n := |batches| - 1;
      var before := Chain(batches[..n]);
      if Halted(before) then before else before + batches[n]
  }

  /** The events of each visited batch, in visiting order. */
  function BatchesInOrder(path: string, sites: seq<string>, groups: Groups, order: seq<string>): (r: seq<seq<Event>>)
    requires |sites| == 3
    requires forall k :: k in order ==> k in groups
    ensures |r| == |order|
  {
    seq(|order|, i requires 0 <= i < |order| => BatchEvents(path, sites, order[i], groups[order[i]]))
  }

  /** The batches visited in `order`, stopping at the first failure. */
  function RunBatches(path: string, sites: seq<string>, groups: Groups, order: seq<string>): seq<Event>
    requires |sites| == 3
    requires forall k :: k in order ==> k in groups
  {
    Chain(BatchesInOrder(path, sites, groups, order))
  }

  /** The line an event appends to sorted.txt: a move's log line; the
      other events append nothing. */
  function LogOf(ev: Event): string {
    if ev.Moved? then ev.log + "\n" else ""
  }

  lemma ConcatAssociative(p: string, q: string, r: string)
    ensures (p + q) + r == p + (q + r)
  {
  }

  /** The text appended to sorted.txt: one line per move. */
  function LogText(events: seq<Event>): string {
    if events == [] then []
    else LogText(events[..|events| - 1]) + LogOf(events[|events| - 1])
  }

  /** A batch whose size is not three produces no move and no log line:
      only a report carrying its size. */
  lemma IncompleteBatchSkipped(path: string, sites: seq<string>, key: string, entries: seq<Entry>)
    requires |sites| == 3 && |entries| != 3
    ensures forall e :: e in BatchEvents(path, sites, key, entries) ==> e == Skipped(key, |entries|)
    ensures LogText(BatchEvents(path, sites, key, entries)) == ""
  {
    assert [Skipped(key, |entries|)][..0] == [];
  }

  /** A batch of three whose years are all from 1900 on becomes three
      moves: the i-th tuple in time order goes to site i under its own date,
      the three targets differ, and each log line names the move. */
  lemma CompleteBatchPlaced(path: string, sites: seq<string>, key: string, entries: seq<Entry>)
    requires Sites.IsSiteSequence(sites) && |entries| == 3
    requires forall i :: 0 <= i < 3 ==> entries[i].stamp.year >= 1900
    ensures var sorted := SortByTime(entries);
      var events := BatchEvents(path, sites, key, entries);
      && SortedByTime(sorted) && multiset(sorted) == multiset(entries)
      && |events| == 3
      && (forall i :: 0 <= i < 3 ==>
            && FormatDate(sorted[i].stamp).Some?
            && events[i] == Moved(path + sorted[i].dir,
                                  TargetPath(path, sites[i], FormatDate(sorted[i].stamp).value),
                                  LogLine(path + sorted[i].dir,
                                          TargetPath(path, sites[i], FormatDate(sorted[i].stamp).value))))
      && (forall i, j :: 0 <= i < j < 3 ==> events[i].target != events[j].target)
  {
    var sorted := SortByTime(entries);
    assert forall i :: 0 <= i < 3 ==> sorted[i].stamp.year >= 1900 by {
      forall i | 0 <= i < 3 ensures sorted[i].stamp.year >= 1900 {
        assert sorted[i] in multiset(entries);
      }
    }
    ThreeMoves(path, sites, sorted);
  }

  /** Three tuples in the order given, all with years from 1900 on, become
      three moves to the three site directories, with distinct targets. */
  lemma ThreeMoves(path: string, sites: seq<string>, sorted: seq<Entry>)
    requires Sites.IsSiteSequence(sites) && |sorted| == 3
    requires forall i :: 0 <= i < 3 ==> sorted[i].stamp.year >= 1900
    ensures var events := Placements(path, sites, sorted, 0);
      && |events| == 3
      && (forall i :: 0 <= i < 3 ==>
            && FormatDate(sorted[i].stamp).Some?
            && events[i] == Moved(path + sorted[i].dir,
                                  TargetPath(path, sites[i], FormatDate(sorted[i].stamp).value),
                                  LogLine(path + sorted[i].dir,
                                          TargetPath(path, sites[i], FormatDate(sorted[i].stamp).value))))
      && (forall i, j :: 0 <= i < j < 3 ==> events[i].target != events[j].target)
  {
    ThreePlacements(path, sites, sorted);
    var events := Placements(path, sites, sorted, 0);
    forall i | 0 <= i < 3
      ensures FormatDate(sorted[i].stamp).Some?
      ensures events[i] == Moved(path + sorted[i].dir,
                                 TargetPath(path, sites[i], FormatDate(sorted[i].stamp).value),
                                 LogLine(path + sorted[i].dir,
                                         TargetPath(path, sites[i], FormatDate(sorted[i].stamp).value)))
    {
      PlaceOneSpec(path, sites[i], sorted[i]);
    }
    forall i, j | 0 <= i < j < 3 ensures events[i].target != events[j].target {
      TargetsDiffer(path, sites[i], FormatDate(sorted[i].stamp).value, sites[j], FormatDate(sorted[j].stamp).value);
    }
  }

  /** Three tuples whose years are all from 1900 on give three moves, one
      per position. */
  lemma ThreePlacements(path: string, sites: seq<string>, sorted: seq<Entry>)
    requires |sites| == 3 && |sorted| == 3
    requires forall i :: 0 <= i < 3 ==> sorted[i].stamp.year >= 1900
    ensures forall i :: 0 <= i < 3 ==> PlaceOne(path, sites[i], sorted[i]).Moved?
    ensures Placements(path, sites, sorted, 0)
         == [PlaceOne(path, sites[0], sorted[0]), PlaceOne(path, sites[1], sorted[1]), PlaceOne(path, sites[2], sorted[2])]
  {
    forall i | 0 <= i < 3 ensures PlaceOne(path, sites[i], sorted[i]).Moved? {
      assert FormatDate(sorted[i].stamp).Some?;
    }
    assert Placements(path, sites, sorted, 2) == [PlaceOne(path, sites[2], sorted[2])];
  }

  lemma {:induction false} ChainKeepsHalt(batches: seq<seq<Event>>, m: nat)
    requires m <= |batches|
    requires Halted(Chain(batches[..m]))
    ensures Chain(batches) == Chain(batches[..m])
    decreases |batches| - m
  {
    if m < |batches| {
      var n := |batches| - 1;
      assert batches[..n][..m] == batches[..m];
      ChainKeepsHalt(batches[..n], m);
    } else {
      assert batches[..m] == batches;
    }
  }

  /** Once `strftime` has failed, no later batch is visited: the events
      of the whole order are those up to the failure. */
  lemma RunStopsAtFailure(path: string, sites: seq<string>, groups: Groups, order: seq<string>, m: nat)
    requires |sites| == 3
    requires forall k :: k in order ==> k in groups
    requires m <= |order|
    requires Halted(RunBatches(path, sites, groups, order[..m]))
    ensures RunBatches(path, sites, groups, order) == RunBatches(path, sites, groups, order[..m])
  {
    var batches := BatchesInOrder(path, sites, groups, order);
    assert batches[..m] == BatchesInOrder(path, sites, groups, order[..m]);
    ChainKeepsHalt(batches, m);
  }

  /** Every event of the inner loop is the placement of one of the three
      tuples at the site of the same position. */
  lemma {:induction false} PlacementsOrigin(path: string, sites: seq<string>, sorted: seq<Entry>, count: nat, e: Event)
    requires |sites| == 3 && |sorted| == 3 && count <= 3
    requires e in Placements(path, sites, sorted, count)
    ensures exists i :: count <= i < 3 && e == PlaceOne(path, sites[i], sorted[i])
    decreases 3 - count
  {
    if e != PlaceOne(path, sites[count], sorted[count]) {
      PlacementsOrigin(path, sites, sorted, count + 1, e);
    }
  }

  /** Every event of a batch is its report, or the placement of one of its
      tuples in time order. */
  lemma BatchOrigin(path: string, sites: seq<string>, key: string, entries: seq<Entry>, e: Event)
    requires |sites| == 3
    requires e in BatchEvents(path, sites, key, entries)
    ensures || (|entries| != 3 && e == Skipped(key, |entries|))
            || (|entries| == 3 && exists i :: 0 <= i < 3 && e == PlaceOne(path, sites[i], SortByTime(entries)[i]))
  {
    if |entries| == 3 {
      PlacementsOrigin(path, sites, SortByTime(entries), 0, e);
    }
  }

  /** A run holds nothing but events of its batches. */
  lemma {:induction false} ChainOrigin(batches: seq<seq<Event>>, e: Event)
    requires e in Chain(batches)
    ensures exists i :: 0 <= i < |batches| && e in batches[i]
  {
    var n := |batches| - 1;
    if e in Chain(batches[..n]) {
      ChainOrigin(batches[..n], e);
      var i :| 0 <= i < n && e in batches[..n][i];
      assert batches[i] == batches[..n][i];
    }
  }

  /** Every move of a run places a tuple of a batch of three at the site
      of its position in time order. */
  lemma RunMovesEntries(path: string, sites: seq<string>, groups: Groups, order: seq<string>, e: Event)
    requires |sites| == 3
    requires forall k :: k in order ==> k in groups
    requires e in RunBatches(path, sites, groups, order) && e.Moved?
    ensures exists key, i ::
      && key in groups && |groups[key]| == 3 && 0 <= i < 3
      && e == PlaceOne(path, sites[i], SortByTime(groups[key])[i])
  {
    var batches := BatchesInOrder(path, sites, groups, order);
    ChainOrigin(batches, e);
    var b :| 0 <= b < |batches| && e in batches[b];
    BatchOrigin(path, sites, order[b], groups[order[b]], e);
  }

  /** A chain that did not stop early holds exactly the events of its batches. */
  lemma {:induction false} ChainMembership(batches: seq<seq<Event>>, e: Event)
    requires !Halted(Chain(batches))
    ensures e in Chain(batches) <==> exists i :: 0 <= i < |batches| && e in batches[i]
  {
    if batches != [] {
      var n := |batches| - 1;
      ChainMembership(batches[..n], e);
      if exists i :: 0 <= i < |batches| && e in batches[i] {
        var i :| 0 <= i < |batches| && e in batches[i];
        if i < n {
          assert e in batches[..n][i];
        }
      }
    }
  }

  /** The batches may be visited in any order (Python 2 leaves the order of
      a dictionary unspecified): two runs over all keys that do not stop
      early produce the same events, possibly in another order. */
  lemma RunBatchesOrderIndependent(path: string, sites: seq<string>, groups: Groups,
                                   order1: seq<string>, order2: seq<string>)
    requires |sites| == 3
    requires (set k | k in order1) == groups.Keys == (set k | k in order2)
    requires !Halted(RunBatches(path, sites, groups, order1))
    requires !Halted(RunBatches(path, sites, groups, order2))
    ensures forall e :: e in RunBatches(path, sites, groups, order1) <==> e in RunBatches(path, sites, groups, order2)
  {
    forall e | e in RunBatches(path, sites, groups, order1) ensures e in RunBatches(path, sites, groups, order2) {
      RunBatchesCovers(path, sites, groups, order1, order2, e);
    }
    forall e | e in RunBatches(path, sites, groups, order2) ensures e in RunBatches(path, sites, groups, order1) {
      RunBatchesCovers(path, sites, groups, order2, order1, e);
    }
  }

  lemma RunBatchesCovers(path: string, sites: seq<string>, groups: Groups,
                         order1: seq<string>, order2: seq<string>, e: Event)
    requires |sites| == 3
    requires (set k | k in order1) == groups.Keys == (set k | k in order2)
    requires !Halted(RunBatches(path, sites, groups, order1))
    requires !Halted(RunBatches(path, sites, groups, order2))
    requires e in RunBatches(path, sites, groups, order1)
    ensures e in RunBatches(path, sites, groups, order2)
  {
    var b1 := BatchesInOrder(path, sites, groups, order1);
    var b2 := BatchesInOrder(path, sites, groups, order2);
    ChainMembership(b1, e);
    ChainMembership(b2, e);
    var i :| 0 <= i < |b1| && e in b1[i];
    var k := order1[i];
    assert k in (set k | k in order1);
    assert k in (set k | k in order2);
    var j :| 0 <= j < |order2| && order2[j] == k;
    assert b2[j] == b1[i];
  }

  /** Appending one event adds its log line, if it has one. */
  lemma LogTextSnoc(events: seq<Event>, ev: Event)
    ensures LogText(events + [ev]) == LogText(events) + LogOf(ev)
  {
    assert (events + [ev])[..|events|] == events;
  }

  lemma {:induction false} LogTextConcat(a: seq<Event>, b: seq<Event>)
    ensures LogText(a + b) == LogText(a) + LogText(b)
    decreases |b|
  {
    if b == [] {
      assert a + b == a;
    } else {
      var n := |b| - 1;
      var init, x := b[..n], b[n];
      assert b == init + [x];
      assert a + b == (a + init) + [x];
      LogTextConcat(a, init);
      LogTextSnoc(a + init, x);
      LogTextSnoc(init, x);
      ConcatAssociative(LogText(a), LogText(init), LogOf(x));
    }
  }

  /** One more pass of the inner loop: its event, then the rest unless it
      failed. */
  lemma PlacementStep(path: string, sites: seq<string>, sorted: seq<Entry>, count: nat, events: seq<Event>)
    requires |sites| == 3 && |sorted| == 3 && count < 3
    requires events + Placements(path, sites, sorted, count) == Placements(path, sites, sorted, 0)
    ensures var ev := PlaceOne(path, sites[count], sorted[count]);
      && (ev.DateFormatFailed? ==> events + [ev] == Placements(path, sites, sorted, 0))
      && (!ev.DateFormatFailed? ==>
            (events + [ev]) + Placements(path, sites, sorted, count + 1) == Placements(path, sites, sorted, 0))
  {
    var ev := PlaceOne(path, sites[count], sorted[count]);
    var rest := Placements(path, sites, sorted, count + 1);
    assert Placements(path, sites, sorted, count) == if ev.DateFormatFailed? then [ev] else [ev] + rest;
    assert events + [ev] + rest == events + ([ev] + rest);
  }

  /** The inner loop of lines 220-242 for one sorted batch of three: print
      the target, append the log line, move; `strftime` failing ends it. */
  method PlaceBatch(path: string, sites: seq<string>, sorted: seq<Entry>)
    returns (events: seq<Event>, log: string)
    requires |sites| == 3 && |sorted| == 3
    ensures events == Placements(path, sites, sorted, 0)
    ensures log == LogText(events)
  {
    events, log := [], "";
    var count := 0;
    while count < 3
      invariant 0 <= count <= 3
      invariant events + Placements(path, sites, sorted, count) == Placements(path, sites, sorted, 0)
      invariant log == LogText(events)
    {
      var ev := PlaceOne(path, sites[count], sorted[count]);
      PlacementStep(path, sites, sorted, count, events);
      LogTextSnoc(events, ev);
      events := events + [ev];
      if ev.DateFormatFailed? {
        assert log + LogOf(ev) == log;
        return;
      }
      log := log + (ev.log + "\n");
      count := count + 1;
    }
    assert events + [] == events;
  }

  /** The loop of lines 210-248 over the `images` dictionary. Python 2 visits
      the keys in an unspecified order: the loop picks any key not yet
      visited, and `order` records the order it chose. Every key is visited
      once unless `strftime` fails, which ends the run. `log` is what the
      run appends to sorted.txt. */
  method Reorganize(path: string, sites: seq<string>, groups: Groups)
    returns (events: seq<Event>, log: string, ghost order: seq<string>)
    requires |sites| == 3
    ensures forall k :: k in order ==> k in groups
    ensures Sites.Distinct(order)
    ensures events == RunBatches(path, sites, groups, order)
    ensures !Halted(events) ==> (set k | k in order) == groups.Keys
    ensures log == LogText(events)
  {
    events, log, order := [], "", [];
    var remaining := groups.Keys;
    while remaining != {}
      invariant remaining <= groups.Keys
      invariant forall k :: k in order ==> k in groups && k !in remaining
      invariant forall k :: k in groups.Keys - remaining ==> k in order
      invariant Sites.Distinct(order)
      invariant events == RunBatches(path, sites, groups, order)
      invariant !Halted(events)
      invariant log == LogText(events)
      decreases remaining
    {
      var key :| key in remaining;
      remaining := remaining - {key};
      var entries := groups[key];
      var batch: seq<Event>, batchLog: string;
      if |entries| == 3 {
        var sorted := SortByTime(entries);
        batch, batchLog := PlaceBatch(path, sites, sorted);
      } else {
        batch, batchLog := [Skipped(key, |entries|)], "";
        assert [Skipped(key, |entries|)][..0] == [];
      }
      assert batch == BatchEvents(path, sites, key, entries);
      RunBatchesStep(path, sites, groups, order, key);
      LogTextConcat(events, batch);
      order := order + [key];
      events := events + batch;
      log := log + batchLog;
      if Halted(events) {
        return;
      }
    }
    forall k | k in groups.Keys ensures k in (set k | k in order) {
    }
  }

  /** One more batch visited after a run that has not stopped. */
  lemma RunBatchesStep(path: string, sites: seq<string>, groups: Groups, order: seq<string>, key: string)
    requires |sites| == 3
    requires forall k :: k in order ==> k in groups
    requires key in groups
    requires !Halted(RunBatches(path, sites, groups, order))
    ensures RunBatches(path, sites, groups, order + [key])
         == RunBatches(path, sites, groups, order) + BatchEvents(path, sites, key, groups[key])
  {
    var bs := BatchesInOrder(path, sites, groups, order + [key]);
    assert bs[..|order|] == BatchesInOrder(path, sites, groups, order);
    assert bs[|order|] == BatchEvents(path, sites, key, groups[key]);
  }
}
