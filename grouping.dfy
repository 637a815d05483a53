/** Scanning the candidate directories and grouping their image files by
    batch key (sort_csk_image_dirs.py lines 119-120 and 147-201). */
module Grouping {
  import opened Text
  import opened ImageNames

  /** One `(datadir, timestamp)` tuple (line 200). */
  datatype Entry = Entry(dir: string, stamp: Timestamp)

  /** A file met by the scan: the candidate directory and the file's name. */
  datatype Found = Found(dir: string, file: string)

  /** A file met by the scan together with what its name contributes. */
  datatype Scanned = Scanned(found: Found, kind: FileKind)

  /** Every file classified by its name, in the same order. */
  function Classified(ds: seq<Found>): (r: seq<Scanned>)
    ensures |r| == |ds|
  {
    seq(|ds|, k requires 0 <= k < |ds| => Scanned(ds[k], ClassifyFile(ds[k].file)))
  }

  function InDirectory(dir: string, files: seq<string>): (r: seq<Found>)
    ensures |r| == |files|
  {
    seq(|files|, k requires 0 <= k < |files| => Found(dir, files[k]))
  }

  /** Every file in scan order: directory by directory (the candidate
      order), each directory's files in the order its listing gives;
      `listings[d]` is what `os.listdir(d)` returns. */
  function Discoveries(dirs: seq<string>, listings: map<string, seq<string>>): seq<Found>
    requires forall i :: 0 <= i < |dirs| ==> dirs[i] in listings
  {
    if dirs == [] then []
    else
      var n := |dirs| - 1;
      Discoveries(dirs[..n], listings) + InDirectory(dirs[n], listings[dirs[n]])
  }

  /** The contents of the `images` dictionary. */
  type Groups = map<string, seq<Entry>>

  /** Reading a `defaultdict(list)`: a missing key reads as the empty list. */
  function Lookup(g: Groups, key: string): seq<Entry> {
    if key in g then g[key] else []
  }

  /** `images[key].append(entry)` (line 201). */
  function AppendAt(g: Groups, key: string, e: Entry): Groups {
    g[key := Lookup(g, key) + [e]]
  }

  /** Every list in the dictionary was created by an append, so none is empty. */
  ghost predicate NoEmptyGroup(g: Groups) {
    forall key :: key in g ==> g[key] != []
  }

  /** How the scan ends: with the filled dictionary, or with the
      ValueError of `datetime(...)` for the named file, which nothing
      catches. */
  datatype ScanOutcome = Grouped(groups: Groups) | Crashed(at: Found)

  predicate IsMalformed(s: Scanned) {
    s.kind.MalformedTimestamp?
  }

  /** The scan as a fold over the classified files, one step per file:
      an image file's tuple is appended under its key, any other name is
      passed over, and the first start time that is no date ends it. Every
      list it creates holds at least the tuple that created it. */
  function Scan(ss: seq<Scanned>): (r: ScanOutcome)
    ensures r.Grouped? ==> NoEmptyGroup(r.groups)
  {
    if ss == [] then Grouped(map[])
    else
      var s := ss[|ss| - 1];
      match Scan(ss[..|ss| - 1])
      case Crashed(at) => Crashed(at)
      case Grouped(g) =>
        match s.kind
        case NotImage => Grouped(g)
        case MalformedTimestamp => Crashed(s.found)
        case Image(key, stamp) => Grouped(AppendAt(g, key, Entry(s.found.dir, stamp)))
  }

  /** The reference definition of one batch: the entries of the image
      files with that key, in scan order. */
  function EntriesFor(ss: seq<Scanned>, key: string): seq<Entry> {
    if ss == [] then []
    else
      var s := ss[|ss| - 1];
      EntriesFor(ss[..|ss| - 1], key) +
        match s.kind
        case Image(k, stamp) => if k == key then [Entry(s.found.dir, stamp)] else []
        case _ => []
  }

  /** The number of image files among the files scanned. */
  function ImageCount(ss: seq<Scanned>): nat {
    if ss == [] then 0
    else ImageCount(ss[..|ss| - 1]) + if ss[|ss| - 1].kind.Image? then 1 else 0
  }

  ghost function PickKey(g: Groups): string
    requires g != map[]
  {
    var key :| key in g; key
  }

  /** The number of tuples held under all keys together. */
  ghost function TotalSize(g: Groups): nat
    decreases |g|
  {
    if g == map[] then 0
    else
      var key := PickKey(g);
      assert |g - {key}| == |g| - 1 by {
        assert (g - {key}).Keys == g.Keys - {key};
      }
      |g[key]| + TotalSize(g - {key})
  }

  lemma {:induction false} TotalSizeRemove(g: Groups, key: string)
    requires key in g
    ensures TotalSize(g) == |g[key]| + TotalSize(g - {key})
    decreases |g|
  {
    var first := PickKey(g);
    if first != key {
      var g1 := g - {first};
      var g2 := g - {key};
      assert (g - {first}).Keys == g.Keys - {first};
      assert (g - {key}).Keys == g.Keys - {key};
      TotalSizeRemove(g1, key);
      TotalSizeRemove(g2, first);
      assert g1 - {key} == g2 - {first};
    }
  }

  /** An append adds exactly one tuple to the total. */
  lemma TotalSizeAppend(g: Groups, key: string, e: Entry)
    ensures TotalSize(AppendAt(g, key, e)) == TotalSize(g) + 1
  {
    var g' := AppendAt(g, key, e);
    TotalSizeRemove(g', key);
    assert g' - {key} == g - {key};
    if key in g {
      TotalSizeRemove(g, key);
    } else {
      assert g - {key} == g;
    }
  }

  /** Once the scan has crashed, later files change nothing. */
  lemma {:induction false} CrashPersists(a: seq<Scanned>, b: seq<Scanned>)
    requires Scan(a).Crashed?
    ensures Scan(a + b) == Scan(a)
    decreases |b|
  {
    if b == [] {
      assert a + b == a;
    } else {
      var n := |b| - 1;
      CrashPersists(a, b[..n]);
      assert (a + b)[..|a + b| - 1] == a + b[..n];
    }
  }

  /** The scan crashes exactly when some file's start time is no date,
      and then at the first such file. */
  lemma {:induction false} ScanCrashesAtFirstMalformed(ss: seq<Scanned>)
    ensures Scan(ss).Crashed? <==> exists i :: 0 <= i < |ss| && IsMalformed(ss[i])
    ensures Scan(ss).Crashed? ==>
      exists i :: 0 <= i < |ss| && ss[i].found == Scan(ss).at && IsMalformed(ss[i])
        && forall j :: 0 <= j < i ==> !IsMalformed(ss[j])
  {
    if ss != [] {
      var n := |ss| - 1;
      var init := ss[..n];
      ScanCrashesAtFirstMalformed(init);
      assert forall i :: 0 <= i < n ==> init[i] == ss[i];
      if Scan(init).Crashed? {
        var i :| 0 <= i < n && init[i].found == Scan(init).at && IsMalformed(init[i])
          && forall j :: 0 <= j < i ==> !IsMalformed(init[j]);
        assert ss[i].found == Scan(ss).at;
      } else if IsMalformed(ss[n]) {
        assert ss[n].found == Scan(ss).at;
      }
    }
  }

  /** Accumulation agrees with the reference definition: when the scan
      ends normally, the list under each key holds the entries of exactly
      the image files with that key, in scan order, and no list is empty. */
  lemma {:induction false} ScanGroupsByKey(ss: seq<Scanned>)
    requires Scan(ss).Grouped?
    ensures NoEmptyGroup(Scan(ss).groups)
    ensures forall key :: Lookup(Scan(ss).groups, key) == EntriesFor(ss, key)
  {
    if ss != [] {
      var n := |ss| - 1;
      ScanGroupsByKey(ss[..n]);
    }
  }

  /** The tuples under all keys number exactly the image files scanned. */
  lemma {:induction false} ScanTotal(ss: seq<Scanned>)
    requires Scan(ss).Grouped?
    ensures TotalSize(Scan(ss).groups) == ImageCount(ss)
  {
    if ss != [] {
      var n := |ss| - 1;
      ScanTotal(ss[..n]);
      match ss[n].kind
      case Image(key, stamp) =>
        TotalSizeAppend(Scan(ss[..n]).groups, key, Entry(ss[n].found.dir, stamp));
      case _ =>
    }
  }

  lemma {:induction false} EntriesForConcat(a: seq<Scanned>, b: seq<Scanned>, key: string)
    ensures EntriesFor(a + b, key) == EntriesFor(a, key) + EntriesFor(b, key)
    decreases |b|
  {
    if b == [] {
      assert a + b == a;
    } else {
      var n := |b| - 1;
      EntriesForConcat(a, b[..n], key);
      assert (a + b)[..|a + b| - 1] == a + b[..n];
      assert (a + b)[|a + b| - 1] == b[n];
    }
  }

  lemma {:induction false} EntriesForPermutation(ss1: seq<Scanned>, ss2: seq<Scanned>, key: string)
    requires multiset(ss1) == multiset(ss2)
    ensures multiset(EntriesFor(ss1, key)) == multiset(EntriesFor(ss2, key))
    decreases |ss1|
  {
    if ss1 == [] {
      assert |ss2| == |multiset(ss2)| == 0;
    } else {
      var n := |ss1| - 1;
      var x := ss1[n];
      var init := ss1[..n];
      assert x in multiset(ss2);
      var j :| 0 <= j < |ss2| && ss2[j] == x;
      var a, b := ss2[..j], ss2[j + 1..];
      assert multiset(init) == multiset(a + b) by {
        assert ss1 == init + [x];
        assert ss2 == a + [x] + b;
        MultisetCancel(init, a, b, x);
      }
      var ex := EntriesFor([x], key);
      var ea, eb := EntriesFor(a, key), EntriesFor(b, key);
      assert multiset(EntriesFor(init, key)) == multiset(ea + eb) by {
        EntriesForPermutation(init, a + b, key);
        EntriesForConcat(a, b, key);
      }
      assert EntriesFor(ss1, key) == EntriesFor(init, key) + ex by {
        assert ss1 == init + [x];
        EntriesForConcat(init, [x], key);
      }
      assert EntriesFor(ss2, key) == ea + ex + eb by {
        assert ss2 == (a + [x]) + b;
        EntriesForConcat(a + [x], b, key);
        EntriesForConcat(a, [x], key);
      }
      calc {
        multiset(EntriesFor(ss1, key));
        multiset(EntriesFor(init, key)) + multiset(ex);
        multiset(ea) + multiset(eb) + multiset(ex);
        multiset(ea + ex + eb);
        multiset(EntriesFor(ss2, key));
      }
    }
  }

  lemma MultisetCancel(s: seq<Scanned>, a: seq<Scanned>, b: seq<Scanned>, x: Scanned)
    requires multiset(s + [x]) == multiset(a + [x] + b)
    ensures multiset(s) == multiset(a + b)
  {
    forall y ensures multiset(s)[y] == multiset(a + b)[y] {
      assert multiset(s + [x])[y] == multiset(s)[y] + multiset{x}[y];
      assert multiset(a + [x] + b)[y] == multiset(a)[y] + multiset{x}[y] + multiset(b)[y];
    }
  }

  /** Grouping does not depend on the order in which files are met: any
      reordering of the same files crashes or not alike, and otherwise
      gives every key the same entries (possibly in another order). */
  lemma ScanOrderIndependent(ss1: seq<Scanned>, ss2: seq<Scanned>)
    requires multiset(ss1) == multiset(ss2)
    ensures Scan(ss1).Crashed? <==> Scan(ss2).Crashed?
    ensures Scan(ss1).Grouped? ==>
      forall key :: multiset(Lookup(Scan(ss1).groups, key)) == multiset(Lookup(Scan(ss2).groups, key))
  {
    ScanCrashesAtFirstMalformed(ss1);
    ScanCrashesAtFirstMalformed(ss2);
    forall i | 0 <= i < |ss1| && IsMalformed(ss1[i])
      ensures exists j :: 0 <= j < |ss2| && IsMalformed(ss2[j])
    {
      assert ss1[i] in multiset(ss2);
      var j :| 0 <= j < |ss2| && ss2[j] == ss1[i];
    }
    forall i | 0 <= i < |ss2| && IsMalformed(ss2[i])
      ensures exists j :: 0 <= j < |ss1| && IsMalformed(ss1[j])
    {
      assert ss2[i] in multiset(ss1);
      var j :| 0 <= j < |ss1| && ss1[j] == ss2[i];
    }
    if Scan(ss1).Grouped? {
      ScanGroupsByKey(ss1);
      ScanGroupsByKey(ss2);
      forall key ensures multiset(EntriesFor(ss1, key)) == multiset(EntriesFor(ss2, key)) {
        EntriesForPermutation(ss1, ss2, key);
      }
    }
  }

  /** Every entry of a batch stands for an image file of that key, in the
      directory the entry names, with the entry's time. */
  lemma {:induction false} EntriesForOrigin(ss: seq<Scanned>, key: string, e: Entry)
    requires e in EntriesFor(ss, key)
    ensures exists i :: 0 <= i < |ss| && ss[i].found.dir == e.dir && ss[i].kind == Image(key, e.stamp)
  {
    var n := |ss| - 1;
    if e in EntriesFor(ss[..n], key) {
      EntriesForOrigin(ss[..n], key, e);
      var i :| 0 <= i < n && ss[..n][i].found.dir == e.dir && ss[..n][i].kind == Image(key, e.stamp);
      assert ss[i] == ss[..n][i];
    } else {
      assert ss[n].found.dir == e.dir && ss[n].kind == Image(key, e.stamp);
    }
  }

  /** Every file found is a file of some directory's listing. */
  lemma {:induction false} DiscoveriesOrigin(dirs: seq<string>, listings: map<string, seq<string>>, f: Found)
    requires forall i :: 0 <= i < |dirs| ==> dirs[i] in listings
    requires f in Discoveries(dirs, listings)
    ensures f.dir in dirs && f.dir in listings && f.file in listings[f.dir]
  {
    var n := |dirs| - 1;
    if f in Discoveries(dirs[..n], listings) {
      DiscoveriesOrigin(dirs[..n], listings, f);
      assert f.dir in dirs[..n];
    } else {
      var files := listings[dirs[n]];
      var k :| 0 <= k < |files| && InDirectory(dirs[n], files)[k] == f;
      assert f.dir == dirs[n] && f.file == files[k];
    }
  }

  /** The `images` dictionary, a `defaultdict(list)` filled in place. */
  class ImageIndex {
    var groups: Groups

    ghost predicate Valid()
      reads this
    {
      NoEmptyGroup(groups)
    }

    constructor ()
      ensures Valid() && groups == map[]
    {
      groups := map[];
    }

    /** `images[key]`: the list under a key, empty when absent. */
    function Batch(key: string): seq<Entry>
      reads this
    {
      Lookup(groups, key)
    }

    /** `images[key].append(e)`: one tuple added under its key; every other
        key's list is unchanged. */
    method Append(key: string, e: Entry)
      requires Valid()
      modifies this
      ensures Valid()
      ensures groups == AppendAt(old(groups), key, e)
      ensures Batch(key) == old(Batch(key)) + [e]
      ensures forall other :: other != key ==> Batch(other) == old(Batch(other))
      ensures TotalSize(groups) == old(TotalSize(groups)) + 1
    {
      TotalSizeAppend(groups, key, e);
      groups := AppendAt(groups, key, e);
    }
  }

  /** The inner loop of lines 152-201 over the files of one directory:
      classify each name and append each image file's tuple under its key.
      A start time that is no date stops the loop. `done` stands for the
      files scanned before this directory. */
  method ScanFiles(index: ImageIndex, ghost done: seq<Found>, dir: string, files: seq<string>)
    returns (crash: Option<Found>)
    requires index.Valid()
    requires Scan(Classified(done)) == Grouped(index.groups)
    modifies index
    ensures index.Valid()
    ensures var outcome := Scan(Classified(done + InDirectory(dir, files)));
      && (outcome.Crashed? ==> crash == Some(outcome.at))
      && (outcome.Grouped? ==> crash == None && index.groups == outcome.groups)
  {
    crash := None;
    var j := 0;
    assert done + InDirectory(dir, files[..0]) == done;
    while j < |files|
      invariant 0 <= j <= |files|
      invariant index.Valid()
      invariant Scan(Classified(done + InDirectory(dir, files[..j]))) == Grouped(index.groups)
    {
      ghost var seen := Classified(done + InDirectory(dir, files[..j]));
      var f := Found(dir, files[j]);
      var kind := ClassifyFile(files[j]);
      ScanStep(done, dir, files, j);
      assert (seen + [Scanned(f, kind)])[..|seen|] == seen;
      match kind {
        case NotImage =>
        case MalformedTimestamp =>
          crash := Some(f);
          CrashInDirectory(done, dir, files, j);
          return;
        case Image(key, stamp) =>
          index.Append(key, Entry(dir, stamp));
      }
      j := j + 1;
    }
    assert files[..j] == files;
  }

  /** The nested loop of lines 147-201: for each directory in order, scan
      the names its listing gives. A start time that is no date stops the
      scan. */
  method ScanDirectories(dirs: seq<string>, listings: map<string, seq<string>>)
    returns (index: ImageIndex, crash: Option<Found>)
    requires forall i :: 0 <= i < |dirs| ==> dirs[i] in listings
    ensures fresh(index) && index.Valid()
    ensures var outcome := Scan(Classified(Discoveries(dirs, listings)));
      && (outcome.Crashed? ==> crash == Some(outcome.at))
      && (outcome.Grouped? ==> crash == None && index.groups == outcome.groups)
  {
    index := new ImageIndex();
    crash := None;
    var i := 0;
    while i < |dirs|
      invariant 0 <= i <= |dirs|
      invariant fresh(index) && index.Valid()
      invariant Scan(Classified(Discoveries(dirs[..i], listings))) == Grouped(index.groups)
      invariant crash == None
    {
      ghost var done := Discoveries(dirs[..i], listings);
      crash := ScanFiles(index, done, dirs[i], listings[dirs[i]]);
      ghost var outcome := Scan(Classified(done + InDirectory(dirs[i], listings[dirs[i]])));
      assert Scan(Classified(Discoveries(dirs[..i + 1], listings))) == outcome by {
        DiscoveriesNext(dirs, listings, i);
      }
      if crash.Some? {
        CrashEndsScan(dirs, listings, i);
        return;
      }
      i := i + 1;
    }
    assert dirs[..i] == dirs;
  }

  lemma ClassifiedConcat(a: seq<Found>, b: seq<Found>)
    ensures Classified(a + b) == Classified(a) + Classified(b)
  {
  }

  /** One more file of directory `dir` extends the classified scan by one. */
  lemma ScanStep(done: seq<Found>, dir: string, files: seq<string>, j: nat)
    requires j < |files|
    ensures Classified(done + InDirectory(dir, files[..j + 1]))
         == Classified(done + InDirectory(dir, files[..j])) + [Scanned(Found(dir, files[j]), ClassifyFile(files[j]))]
  {
    assert InDirectory(dir, files[..j + 1]) == InDirectory(dir, files[..j]) + [Found(dir, files[j])];
    ClassifiedConcat(done + InDirectory(dir, files[..j]), [Found(dir, files[j])]);
    assert done + InDirectory(dir, files[..j + 1]) == done + InDirectory(dir, files[..j]) + [Found(dir, files[j])];
  }

  /** The files of the first i + 1 directories. */
  lemma DiscoveriesNext(dirs: seq<string>, listings: map<string, seq<string>>, i: nat)
    requires forall k :: 0 <= k < |dirs| ==> dirs[k] in listings
    requires i < |dirs|
    ensures Discoveries(dirs[..i + 1], listings)
         == Discoveries(dirs[..i], listings) + InDirectory(dirs[i], listings[dirs[i]])
  {
    assert dirs[..i + 1][..i] == dirs[..i];
  }

  /** A refused timestamp at file j of a directory ends the scan of that
      directory with the same outcome. */
  lemma CrashInDirectory(done: seq<Found>, dir: string, files: seq<string>, j: nat)
    requires j < |files|
    requires Scan(Classified(done + InDirectory(dir, files[..j + 1]))).Crashed?
    ensures Scan(Classified(done + InDirectory(dir, files)))
         == Scan(Classified(done + InDirectory(dir, files[..j + 1])))
  {
    var head := done + InDirectory(dir, files[..j + 1]);
    var tail := InDirectory(dir, files[j + 1..]);
    InDirectorySplit(dir, files, j + 1);
    assert done + InDirectory(dir, files) == head + tail;
    CrashPersistsClassified(head, tail, done + InDirectory(dir, files));
  }

  /** A scan that fails in directory `i` fails the same way over all of them. */
  lemma CrashEndsScan(dirs: seq<string>, listings: map<string, seq<string>>, i: nat)
    requires forall k :: 0 <= k < |dirs| ==> dirs[k] in listings
    requires i < |dirs|
    requires Scan(Classified(Discoveries(dirs[..i + 1], listings))).Crashed?
    ensures Scan(Classified(Discoveries(dirs, listings)))
         == Scan(Classified(Discoveries(dirs[..i + 1], listings)))
  {
    var head := Discoveries(dirs[..i + 1], listings);
    var tail := Discoveries(dirs[i + 1..], listings);
    DiscoveriesSplit(dirs, listings, i + 1);
    CrashPersistsClassified(head, tail, Discoveries(dirs, listings));
  }

  /** Files found after the scan has crashed change nothing. */
  lemma CrashPersistsClassified(head: seq<Found>, tail: seq<Found>, whole: seq<Found>)
    requires whole == head + tail
    requires Scan(Classified(head)).Crashed?
    ensures Scan(Classified(whole)) == Scan(Classified(head))
  {
    ClassifiedConcat(head, tail);
    CrashPersists(Classified(head), Classified(tail));
  }

  lemma InDirectorySplit(dir: string, files: seq<string>, k: nat)
    requires k <= |files|
    ensures InDirectory(dir, files) == InDirectory(dir, files[..k]) + InDirectory(dir, files[k..])
  {
  }

  lemma {:induction false} DiscoveriesSplit(dirs: seq<string>, listings: map<string, seq<string>>, k: nat)
    requires forall i :: 0 <= i < |dirs| ==> dirs[i] in listings
    requires k <= |dirs|
    ensures Discoveries(dirs, listings)
         == Discoveries(dirs[..k], listings) + Discoveries(dirs[k..], listings)
    decreases |dirs|
  {
    if k < |dirs| {
      var n := |dirs| - 1;
      DiscoveriesSplit(dirs[..n], listings, k);
      assert dirs[..n][..k] == dirs[..k];
      assert dirs[k..][..|dirs[k..]| - 1] == dirs[..n][k..];
    } else {
      assert dirs[..k] == dirs;
      assert dirs[k..] == [];
    }
  }
}
