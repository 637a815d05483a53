/** The whole run of sort_csk_image_dirs.py (lines 84-248): check the
    arguments, pick the candidate directories, ask for confirmation, scan
    the candidates for image files, then move each complete batch of three
    under the three site directories. The process's arguments, working
    directory, directory listings and the operator's reply are parameters;
    the moves and the lines appended to sorted.txt are returned as events
    and text. */
module Reorganizer {
  import opened Text
  import opened ImageNames
  import opened Grouping
  import opened Assignment
  import Sites
  import Candidates

  /** How a run ends. */
  datatype Outcome =
      /** The usage text or an argument error was printed; exit status 1. */
    | Refused(error: Sites.UsageError)
      /** No candidate directory; exit status 1. */
    | NoCandidates
      /** The reply was blank, so `reply[0]` raised IndexError. */
    | EmptyReply
      /** The reply did not start with "y"; exit status 0. */
    | Declined
      /** `os.listdir` raised for this candidate (it is not a readable directory). */
    | ListingFailed(dir: string)
      /** `datetime(...)` raised ValueError for this file. */
    | TimestampRejected(at: Found)
      /** `strftime` raised ValueError while placing this directory. */
    | DateFormatRejected(source: string)
      /** Every batch was visited. */
    | Completed

  /** `os.getcwd()` with "/" appended unless it already ends in one
      (lines 112-115). */
  function WorkingPath(cwd: string): (path: string)
    requires cwd != []
    ensures cwd <= path && |path| <= |cwd| + 1
    ensures path[|path| - 1] == '/'
    ensures cwd[|cwd| - 1] == '/' ==> path == cwd
  {
    if cwd[|cwd| - 1] != '/' then cwd + "/" else cwd
  }

  /** The working path is already in the form the run uses. */
  lemma WorkingPathIdempotent(cwd: string)
    requires cwd != []
    ensures WorkingPath(WorkingPath(cwd)) == WorkingPath(cwd)
  {
  }

  /** The characters Python 2's `str.strip()` removes. */
  predicate IsSpace(c: char) {
    c == ' ' || c == '\t' || c == '\n' || c == '\r' || c == '\U{000B}' || c == '\U{000C}'
  }

  /** Where the text of `s` begins: the first character that is not blank,
      or the end. */
  function TextStart(s: string): (p: nat)
    ensures p <= |s|
    ensures forall j :: 0 <= j < p ==> IsSpace(s[j])
    ensures p < |s| ==> !IsSpace(s[p])
  {
    if s == [] || !IsSpace(s[0]) then 0 else 1 + TextStart(s[1..])
  }

  /** Where the text of `s` ends: just after the last character that is
      not blank, or the start. */
  function TextEnd(s: string): (q: nat)
    ensures q <= |s|
    ensures forall j :: q <= j < |s| ==> IsSpace(s[j])
    ensures q > 0 ==> !IsSpace(s[q - 1])
  {
    if s == [] || !IsSpace(s[|s| - 1]) then |s| else TextEnd(s[..|s| - 1])
  }

  /** `str.strip()`: the blanks at both ends removed. */
  function Strip(s: string): string {
    var t := s[TextStart(s)..];
    t[..TextEnd(t)]
  }

  /** Stripping leaves nothing exactly when every character is blank. */
  lemma StripEmpty(s: string)
    ensures Strip(s) == [] <==> forall i :: 0 <= i < |s| ==> IsSpace(s[i])
  {
    var p := TextStart(s);
    if p < |s| {
      var t := s[p..];
      assert !IsSpace(t[0]);
      assert TextEnd(t) > 0;
    }
  }

  /** Otherwise it begins with the first character that is not blank. */
  lemma StripFirst(s: string) returns (p: nat)
    requires Strip(s) != []
    ensures p < |s| && Strip(s)[0] == s[p] && !IsSpace(s[p])
    ensures forall j :: 0 <= j < p ==> IsSpace(s[j])
  {
    p := TextStart(s);
  }

  /** The reply lower-cased and stripped, then `reply[0] != 'y'`
      (lines 142-144): None when nothing but blanks was typed, so that
      indexing raises; otherwise whether the run goes on. */
  function Confirmation(reply: string): Option<bool> {
    var s := Strip(Lower(reply));
    if s == [] then None else Some(s[0] == 'y')
  }

  /** Lower-casing keeps blanks blank and turns only "Y" into "y". */
  lemma LowerKeepsBlanks(reply: string)
    ensures forall i :: 0 <= i < |reply| ==> (IsSpace(Lower(reply)[i]) <==> IsSpace(reply[i]))
    ensures forall i :: 0 <= i < |reply| ==> (Lower(reply)[i] == 'y' <==> reply[i] == 'y' || reply[i] == 'Y')
  {
  }

  /** The reply raises exactly when it is all blanks, and the run goes on
      exactly when its first character that is not blank is "y" or "Y". */
  lemma ConfirmationSpec(reply: string)
    ensures Confirmation(reply).None? <==> forall i :: 0 <= i < |reply| ==> IsSpace(reply[i])
    ensures Confirmation(reply) == Some(true) <==>
      exists i :: 0 <= i < |reply| && (reply[i] == 'y' || reply[i] == 'Y')
               && forall j :: 0 <= j < i ==> IsSpace(reply[j])
  {
    var lower := Lower(reply);
    LowerKeepsBlanks(reply);
    StripEmpty(lower);
    if Strip(lower) != [] {
      var p := StripFirst(lower);
      assert !IsSpace(reply[p]) && forall j :: 0 <= j < p ==> IsSpace(reply[j]);
      FirstNonBlankUnique(reply, p);
    }
  }

  /** Only the first character that is not blank can be a "y" with
      nothing but blanks before it. */
  lemma FirstNonBlankUnique(reply: string, p: nat)
    requires p < |reply| && !IsSpace(reply[p])
    requires forall j :: 0 <= j < p ==> IsSpace(reply[j])
    ensures (exists i :: 0 <= i < |reply| && (reply[i] == 'y' || reply[i] == 'Y')
               && forall j :: 0 <= j < i ==> IsSpace(reply[j]))
            <==> reply[p] == 'y' || reply[p] == 'Y'
  {
    if exists i :: 0 <= i < |reply| && (reply[i] == 'y' || reply[i] == 'Y')
                 && forall j :: 0 <= j < i ==> IsSpace(reply[j]) {
      var i :| 0 <= i < |reply| && (reply[i] == 'y' || reply[i] == 'Y')
               && forall j :: 0 <= j < i ==> IsSpace(reply[j]);
      assert !IsSpace(reply[i]);
      assert i == p;
    }
  }

  /** What the run settles before it reads any candidate directory. */
  datatype Plan = Plan(sites: seq<string>, candidates: seq<string>)

  /** Lines 86-144: the arguments, the candidates and the reply. */
  function Preflight(argv: seq<string>, entries: seq<string>, reply: string): (r: Result<Plan, Outcome>)
    ensures r.Success? ==> Sites.IsSiteSequence(r.value.sites)
  {
    if |argv| != 3 then Failure(Refused(Sites.WrongArgumentCount(|argv|)))
    else
      match Sites.SelectSites(argv[1], argv[2])
      case Failure(e) => Failure(Refused(e))
      case Success(sites) =>
        var candidates := Candidates.CandidateDirs(entries);
        if candidates == [] then Failure(NoCandidates)
        else
          match Confirmation(reply)
          case None => Failure(EmptyReply)
          case Some(go) => if go then Success(Plan(sites, candidates)) else Failure(Declined)
  }

  /** The run reaches the directories exactly when the arguments are
      accepted, some entry of the working directory is a candidate and the
      operator confirmed; the candidates are then exactly those entries. */
  lemma PreflightSpec(argv: seq<string>, entries: seq<string>, reply: string)
    ensures var r := Preflight(argv, entries, reply);
      r.Success? <==>
        && |argv| == 3 && Sites.SelectSites(argv[1], argv[2]).Success?
        && (exists x :: x in entries && Candidates.IsCandidateName(x))
        && Confirmation(reply) == Some(true)
    ensures var r := Preflight(argv, entries, reply);
      r.Success? ==> forall x :: x in r.value.candidates <==> x in entries && Candidates.IsCandidateName(x)
  {
    Candidates.CandidateDirsSpec(entries);
    var candidates := Candidates.CandidateDirs(entries);
    if candidates != [] {
      assert candidates[0] in entries;
    }
  }

  /** How many leading candidates `os.listdir` can list. */
  function Listed(dirs: seq<string>, listings: map<string, seq<string>>): (n: nat)
    ensures n <= |dirs|
    ensures forall i :: 0 <= i < n ==> dirs[i] in listings
    ensures n < |dirs| ==> dirs[n] !in listings
  {
    if dirs == [] || dirs[0] !in listings then 0 else 1 + Listed(dirs[1..], listings)
  }

  /** Lines 147-201: the directories are scanned in order until a
      timestamp is refused or a candidate cannot be listed; otherwise the
      filled dictionary. */
  function Harvest(candidates: seq<string>, listings: map<string, seq<string>>): (r: Result<Groups, Outcome>)
    ensures r.Failure? ==> r.error.ListingFailed? || r.error.TimestampRejected?
  {
    var n := Listed(candidates, listings);
    match Scan(ListedFiles(candidates, listings))
    case Crashed(at) => Failure(TimestampRejected(at))
    case Grouped(groups) =>
      if n < |candidates| then Failure(ListingFailed(candidates[n])) else Success(groups)
  }

  /** The files of the leading candidates that can be listed, classified,
      in scan order. */
  function ListedFiles(candidates: seq<string>, listings: map<string, seq<string>>): seq<Scanned> {
    var listed := candidates[..Listed(candidates, listings)];
    Classified(Discoveries(listed, listings))
  }

  /** A scan that gets through every candidate holds, under each key, the
      image files of that key in scan order, and no empty batch. */
  lemma HarvestGroupsByKey(candidates: seq<string>, listings: map<string, seq<string>>)
    requires Harvest(candidates, listings).Success?
    ensures forall d :: d in candidates ==> d in listings
    ensures var ss := Classified(Discoveries(candidates, listings));
      var groups := Harvest(candidates, listings).value;
      && NoEmptyGroup(groups)
      && forall key :: Lookup(groups, key) == EntriesFor(ss, key)
  {
    var n := Listed(candidates, listings);
    assert candidates[..n] == candidates;
    assert ListedFiles(candidates, listings) == Classified(Discoveries(candidates, listings));
    ScanGroupsByKey(ListedFiles(candidates, listings));
  }

  /** A scan that stops on a timestamp stops at the first image name whose
      start time is no date. */
  lemma HarvestStopsAtFirstBadTimestamp(candidates: seq<string>, listings: map<string, seq<string>>)
    requires Harvest(candidates, listings).Failure?
    requires Harvest(candidates, listings).error.TimestampRejected?
    ensures var ss := ListedFiles(candidates, listings);
      exists i :: 0 <= i < |ss| && IsMalformed(ss[i]) && ss[i].found == Harvest(candidates, listings).error.at
        && forall j :: 0 <= j < i ==> !IsMalformed(ss[j])
  {
    var ss := ListedFiles(candidates, listings);
    ScanCrashesAtFirstMalformed(ss);
  }

  /** Every tuple of the dictionary comes from an image file of a
      candidate directory, whose name gives that tuple's key and time. */
  lemma EntryFromCandidate(candidates: seq<string>, listings: map<string, seq<string>>, key: string, entry: Entry)
    requires Harvest(candidates, listings).Success?
    requires key in Harvest(candidates, listings).value
    requires entry in Harvest(candidates, listings).value[key]
    ensures entry.dir in candidates && entry.dir in listings
    ensures exists f :: f in listings[entry.dir] && ClassifyFile(f) == Image(key, entry.stamp)
  {
    var groups := Harvest(candidates, listings).value;
    var found := Discoveries(candidates, listings);
    var ss := Classified(found);
    HarvestGroupsByKey(candidates, listings);
    assert entry in EntriesFor(ss, key) by {
      assert Lookup(groups, key) == groups[key];
    }
    EntriesForOrigin(ss, key, entry);
    var k :| 0 <= k < |ss| && ss[k].found.dir == entry.dir && ss[k].kind == Image(key, entry.stamp);
    assert found[k] in found;
    DiscoveriesOrigin(candidates, listings, found[k]);
    assert ClassifyFile(found[k].file) == Image(key, entry.stamp);
  }

  /** What a run that reaches the batches may move: only candidate
      directories that hold an image file, each to a directory named after
      that image's eight-digit date inside one of the three site
      directories of the working directory (a single non-empty path
      component each), with a log line naming both. */
  lemma MovesStayInWorkingDirectory(path: string, sites: seq<string>, candidates: seq<string>,
                                    listings: map<string, seq<string>>, order: seq<string>, e: Event)
    requires Sites.IsSiteSequence(sites)
    requires Harvest(candidates, listings).Success?
    requires forall k :: k in order ==> k in Harvest(candidates, listings).value
    requires e in RunBatches(path, sites, Harvest(candidates, listings).value, order)
    requires e.Moved?
    ensures exists d, site, date ::
      && d in candidates && d in listings && site in sites && Sites.IsLabel(site)
      && |date| == 8 && AllDigits(date)
      && (exists f :: f in listings[d] && ClassifyFile(f).Image? && FormatDate(ClassifyFile(f).stamp) == Some(date))
      && e.source == path + d
      && e.target == TargetPath(path, site, date)
      && e.log == LogLine(e.source, e.target)
  {
    var groups := Harvest(candidates, listings).value;
    assert exists key, i ::
      && key in groups && |groups[key]| == 3 && 0 <= i < 3
      && e == PlaceOne(path, sites[i], SortByTime(groups[key])[i])
    by {
      RunMovesEntries(path, sites, groups, order, e);
    }
    var key, i :| key in groups && |groups[key]| == 3 && 0 <= i < 3
      && e == PlaceOne(path, sites[i], SortByTime(groups[key])[i]);
    var entry := SortByTime(groups[key])[i];
    assert entry in groups[key] by {
      assert entry in multiset(SortByTime(groups[key]));
    }
    EntryFromCandidate(candidates, listings, key, entry);
    PlaceOneSpec(path, sites[i], entry);
    assert sites[i] in sites && Sites.IsLabel(sites[i]);
    var f :| f in listings[entry.dir] && ClassifyFile(f) == Image(key, entry.stamp);
    assert FormatDate(ClassifyFile(f).stamp) == FormatDate(entry.stamp);
  }

  /** Lines 147-248, after the operator confirmed: scan the candidates,
      then visit the batches. */
  method ProcessCandidates(path: string, sites: seq<string>, candidates: seq<string>,
                           listings: map<string, seq<string>>)
    returns (outcome: Outcome, events: seq<Event>, log: string, ghost order: seq<string>)
    requires |sites| == 3
    ensures match Harvest(candidates, listings)
      case Failure(stop) => outcome == stop && events == []
      case Success(groups) =>
        && (forall k :: k in order ==> k in groups)
        && Sites.Distinct(order)
        && events == RunBatches(path, sites, groups, order)
        && (!Halted(events) ==> (set k | k in order) == groups.Keys && outcome == Completed)
        && (Halted(events) ==> outcome == DateFormatRejected(events[|events| - 1].source))
    ensures log == LogText(events)
  {
    outcome, events, log, order := Completed, [], "", [];
    var n := Listed(candidates, listings);
    var listed := candidates[..n];
    var index, crash := ScanDirectories(listed, listings);
    if crash.Some? {
      assert Harvest(candidates, listings) == Failure(TimestampRejected(crash.value));
      outcome := TimestampRejected(crash.value);
      return;
    }
    if n < |candidates| {
      outcome := ListingFailed(candidates[n]);
      return;
    }
    assert listed == candidates;
    assert Harvest(candidates, listings) == Success(index.groups);
    events, log, order := Reorganize(path, sites, index.groups);
    if Halted(events) {
      outcome := DateFormatRejected(events[|events| - 1].source);
    }
  }

  /** main(): one run of the script. `argv` is `sys.argv`, `cwd` what
      `os.getcwd()` returns, `entries` the listing of the working
      directory, `listings` the listing of each directory that `os.listdir`
      can read, `reply` the operator's answer. `candidates` is the list shown
      for confirmation, `events` what the batches did, `log` the text
      appended to sorted.txt, and `order` the order in which the dictionary
      gave its keys. */
  method SortImageDirs(argv: seq<string>, cwd: string, entries: seq<string>,
                       listings: map<string, seq<string>>, reply: string)
    returns (outcome: Outcome, candidates: seq<string>, events: seq<Event>, log: string,
             ghost order: seq<string>)
    requires cwd != []
    ensures |argv| == 3 && Sites.SelectSites(argv[1], argv[2]).Success? ==>
      candidates == Candidates.CandidateDirs(entries)
    ensures Preflight(argv, entries, reply).Failure? ==>
      outcome == Preflight(argv, entries, reply).error && events == []
    ensures Preflight(argv, entries, reply).Success? ==>
      var plan := Preflight(argv, entries, reply).value;
      match Harvest(plan.candidates, listings)
      case Failure(stop) => outcome == stop && events == []
      case Success(groups) =>
        && (forall k :: k in order ==> k in groups)
        && Sites.Distinct(order)
        && events == RunBatches(WorkingPath(cwd), plan.sites, groups, order)
        && (!Halted(events) ==> (set k | k in order) == groups.Keys && outcome == Completed)
        && (Halted(events) ==> outcome == DateFormatRejected(events[|events| - 1].source))
    ensures log == LogText(events)
  {
    outcome, candidates, events, log, order := Completed, [], [], "", [];
    if |argv| != 3 {
      outcome := Refused(Sites.WrongArgumentCount(|argv|));
      return;
    }
    var chosen := Sites.SelectSites(argv[1], argv[2]);
    if chosen.Failure? {
      outcome := Refused(chosen.error);
      return;
    }
    var sites := chosen.value;
    var path := WorkingPath(cwd);
    candidates := Candidates.SelectCandidates(entries);
    if candidates == [] {
      outcome := NoCandidates;
      return;
    }
    var go := Confirmation(reply);
    if go.None? {
      outcome := EmptyReply;
      return;
    } else if !go.value {
      outcome := Declined;
      return;
    }
    assert Preflight(argv, entries, reply) == Success(Plan(sites, candidates));
    outcome, events, log, order := ProcessCandidates(path, sites, candidates, listings);
  }
}
