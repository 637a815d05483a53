# Sorting COSMO-SkyMed image directories into site folders

`sort_csk_image_dirs.py` is a single-script tool. It is run inside a
directory of downloaded COSMO-SkyMed scenes and works in these steps:

1. It reads a direction (`asc`/`desc`) and a site set (`eth`/`nms`) from
   the command line. These choose three site labels, for example
   Eyja, Tind, Hekla, read backwards for descending data.
2. It keeps the entries of the working directory whose names start with
   six digits, a hyphen and five digits, in sorted order.
3. It asks the operator to confirm.
4. It lists each candidate directory. Every file named
   `<prefix><YYYYMMDDHHMMSS>_<YYYYMMDDHHMMSS>.h5` adds one
   (directory, acquisition time) tuple to a dictionary, under the key
   prefix + YYYYMMDD of its first stamp.
5. Tuples are added per image file, not per directory. A directory
   with several image files can therefore appear in several batches, or
   more than once in the same batch.
6. Every key whose list holds exactly three tuples is sorted by
   acquisition time. The directory of the i-th tuple moves to
   `<site i>/<YYYYMMDD>_<site i>`, and the move is logged in sorted.txt.
   A key with any other number of tuples is reported and skipped.

This project is a Dafny model of `main()`, split along those steps. It
also contains proofs about each step.

| module | file | what it models |
|---|---|---|
| `Text` | text.dfy | digit strings, zero-padded printing, byte-wise string order, ASCII lower-casing |
| `Sites` | sites.dfy | the argument checks and the choice of the three labels |
| `Candidates` | candidates.dfy | the sorted listing and the candidate-name filter (a loop) |
| `ImageNames` | image_names.dfy | the image-name pattern, the six timestamp fields, calendar validity, the batch key |
| `Grouping` | grouping.dfy | the `images` dictionary as a class filled in place by a nested loop, and the fold it computes |
| `Assignment` | assignment.dfy | the stable sort by time, `strftime('%Y%m%d')`, target paths, log lines, the per-batch loop and the loop over batches |
| `Reorganizer` | reorganizer.dfy | the whole run: outcome, candidates shown, events, text appended to sorted.txt |

The file system and the terminal are parameters of the model:
- the process arguments;
- the working directory;
- the listing of the working directory;
- the listing of each directory that can be listed, given as a map;
- the operator's reply.

What the run does comes back as a sequence of events:
- `Moved(source, target, log)` for each `shutil.move`;
- `Skipped(key, count)` for each incomplete batch;
- `DateFormatFailed(source)` when `strftime` raises.

The text appended to sorted.txt is returned alongside the events.

Python 2 behaviour that the model follows:
- `$` also matches just before a final newline.
- `.` does not match a newline.
- `\d` matches ASCII digits only, and `str.lower()` is taken in the C locale, where it changes only A-Z.
- `datetime(...)` refuses impossible dates and times.
- `strftime` refuses years before 1900.
- `sorted` is stable.
- The iteration order of a dictionary is unspecified. The model lets the
  loop over batches pick any unvisited key and records the order it chose
  as a ghost out-parameter. `Assignment.RunBatchesOrderIndependent`
  shows that two runs that `strftime` does not stop contain the same set
  of events, whatever the order. The order of the events and of the lines
  in sorted.txt does depend on it, and so does what happens when
  `strftime` fails: the batches visited before the failure are the ones
  whose events appear.

The model follows what the code does. On three points the script's own
comments say otherwise:
- **Candidate names.** The header comment (lines 11-14) describes the
  directories as `NNNNNN-XXXXX`. The candidate pattern `^\d{6}\-\d{5}`
  has no end anchor, so `123456-12345_old` is a candidate too.
- **Assignment order.** The comments (lines 19 and 26-27) assign sites by
  the order of the directory names. The code assigns them by the time in
  the image names.
- **Batch contents.** The comment at lines 193-197 expects each key to
  hold three tuples, one per site directory. The code appends one tuple
  per image file (line 201), so a directory with two image files of the
  same date counts twice. A key may then hold three tuples from only two
  directories, and one of them is moved twice. Three directories with
  four such files give a key of four tuples, and that key is skipped.

Two more behaviours of the code are worth stating, though the comments
say nothing about them:
- **Malformed timestamps.** An image name whose start time is no valid
  date makes `datetime(...)` raise ValueError. Nothing catches it, so the
  whole run stops before any move.
- **Incomplete batches.** The report names the key and the count, not the
  directories.

## Model

| member | source | states |
|---|---|---|
| `Sites.SelectSites` | sort_csk_image_dirs.py:93-110 | success iff the lower-cased set is eth/nms and the lower-cased direction is asc/desc; the set is checked first; asc gives the set's list north to south, desc gives it south to north; the result is three distinct labels without "/" |
| `Sites.Reverse` | sort_csk_image_dirs.py:106 | `sites.reverse()`: the same length, with position i holding the element at position n-1-i |
| `Sites.DescendingReversesAscending` | sort_csk_image_dirs.py:104-106 | for either set and any capitalisation, the desc list is the asc list reversed |
| `Text.Lower` | sort_csk_image_dirs.py:93-94 | `str.lower()` in the C locale: the same length, each A-Z replaced by its lower-case letter and every other character kept |
| `Text.Number` | sort_csk_image_dirs.py:183-188 | `int(...)` on a group of ASCII digits: the decimal value, most significant digit first, with an empty string read as 0 |
| `Text.Padded` | sort_csk_image_dirs.py:224 | the zero-padded fields of `strftime`: exactly `width` ASCII digits, the last `width` decimal digits of the number |
| `Text.LexLessEq` | sort_csk_image_dirs.py:126 | Python 2's `<=` on `str`: the first differing character decides, and a proper prefix comes first (its properties are the two lemmas below) |
| `Text.LexTotal` | sort_csk_image_dirs.py:126 | any two names are ordered one way or the other by Python 2's byte-wise string order |
| `Text.LexTransitive` | sort_csk_image_dirs.py:126 | that order is transitive |
| `Candidates.SortNames` | sort_csk_image_dirs.py:126 | `list.sort()` on names: a permutation of the listing in byte-wise ascending order |
| `Candidates.IsCandidateName` | sort_csk_image_dirs.py:128 | `re.search('^\d{6}\-\d{5}', dir)`: six ASCII digits, "-", five ASCII digits at the start, anything after |
| `Candidates.KeepCandidatesCount` | sort_csk_image_dirs.py:127-129 | the filter keeps each matching name exactly as often as it occurs and drops every other name |
| `Candidates.KeepCandidatesSorted` | sort_csk_image_dirs.py:127-129 | filtering a sorted list keeps it sorted |
| `Candidates.CandidateDirs` | sort_csk_image_dirs.py:125-129 | the candidate list: the listing sorted, then filtered down to the names that match the candidate pattern |
| `Candidates.CandidateDirsSpec` | sort_csk_image_dirs.py:125-129 | the candidates are exactly the listing's names that start with 6 digits, "-", 5 digits (anything may follow), with their multiplicities, in ascending order |
| `Candidates.SelectCandidates` | sort_csk_image_dirs.py:125-129 | the sort-then-append loop yields the candidate list, with the same membership, multiplicity and order guarantees |
| `ImageNames.MatchImageName` | sort_csk_image_dirs.py:160-180 | a match has a 14-digit start stamp and a prefix without newline |
| `ImageNames.MatchComposedName` | sort_csk_image_dirs.py:160-188 | every prefix + 14 digits + "_" + 14 digits + ".h5" name (optionally newline-terminated) matches with that prefix and that start stamp |
| `ImageNames.MatchedNameIsComposed` | sort_csk_image_dirs.py:160-178 | conversely, every matching name is exactly such a composition of its prefix, its start stamp and a second 14-digit stamp |
| `ImageNames.StartFields` | sort_csk_image_dirs.py:183-188 | the six `int(...)` values read from the start stamp's digit groups YYYY, MM, DD, HH, MM, SS |
| `ImageNames.ValidDateTime` | sort_csk_image_dirs.py:190 | the arguments `datetime(...)` accepts: year 1-9999, month 1-12, a day that exists in that month (Gregorian leap years), hour, minute and second in range |
| `ImageNames.BatchKey` | sort_csk_image_dirs.py:198 | the dictionary key: the prefix followed by the stamp's eight date digits |
| `ImageNames.ClassifyFile` | sort_csk_image_dirs.py:178-190 | a file is no image exactly when the pattern does not match it |
| `ImageNames.ClassifyComposedName` | sort_csk_image_dirs.py:182-198 | an image name yields key prefix + its 8 date digits and the six fields of its start stamp when they form a valid datetime, and the malformed-timestamp failure otherwise |
| `ImageNames.KeyIgnoresTimeOfDay` | sort_csk_image_dirs.py:198 | two image names with the same prefix and date digits get the same key whatever their times of day and second stamps |
| `ImageNames.KeyDeterminesPrefixAndDate` | sort_csk_image_dirs.py:198 | equal keys mean equal prefixes and equal date digits |
| `Grouping.Scan` | sort_csk_image_dirs.py:147-201 | the scan as a fold over the files in scan order: an image file's tuple is appended under its key, other names are passed over, the first refused timestamp ends it with that file; a filled dictionary has no empty list |
| `Grouping.AppendAt` | sort_csk_image_dirs.py:201 | `images[key].append(tuple)` on a `defaultdict(list)`: the key's list, or an empty one if the key is new, extended by the tuple; other keys unchanged |
| `Grouping.Discoveries` | sort_csk_image_dirs.py:147-152 | the scan order: the candidates in order, each directory's files in its `os.listdir` order, each file tagged with its directory |
| `Grouping.TotalSizeAppend` | sort_csk_image_dirs.py:201 | one append adds exactly one tuple to the dictionary's total |
| `Grouping.CrashPersists` | sort_csk_image_dirs.py:190 | once `datetime` has raised, later files change nothing |
| `Grouping.ScanCrashesAtFirstMalformed` | sort_csk_image_dirs.py:147-190 | the scan fails iff some image name's start stamp is no valid datetime, and then at the first such file |
| `Grouping.ScanGroupsByKey` | sort_csk_image_dirs.py:198-201 | after a full scan each key holds exactly the tuples of the image files with that key, in scan order, and no list is empty |
| `Grouping.ScanTotal` | sort_csk_image_dirs.py:200-201 | the tuples across all keys number exactly the image files scanned |
| `Grouping.EntriesForPermutation` | sort_csk_image_dirs.py:198-201 | reordering the files permutes each key's list and nothing more |
| `Grouping.ScanOrderIndependent` | sort_csk_image_dirs.py:147-201 | whether the scan fails, and each key's tuples up to order, do not depend on the listing order |
| `Grouping.EntriesForOrigin` | sort_csk_image_dirs.py:200-201 | every tuple of a batch comes from an image file of that key, in its directory, with its time |
| `Grouping.DiscoveriesOrigin` | sort_csk_image_dirs.py:147-152 | every file scanned is in the listing of a scanned directory, and its directory is that directory |
| `Grouping.ImageIndex.constructor` | sort_csk_image_dirs.py:120 | `defaultdict(list)` starts empty |
| `Grouping.ImageIndex.Append` | sort_csk_image_dirs.py:201 | appends the tuple to its key's list, leaves every other key's list unchanged and grows the total by one |
| `Grouping.ScanFiles` | sort_csk_image_dirs.py:152-201 | the loop over one directory's files leaves the dictionary the scan up to and including that directory computes, or reports the file whose timestamp `datetime` refused |
| `Grouping.CrashInDirectory` | sort_csk_image_dirs.py:152-190 | a refused timestamp in a directory ends the scan of that directory the same way |
| `Grouping.CrashEndsScan` | sort_csk_image_dirs.py:147-190 | a refused timestamp in one directory ends the scan of all directories the same way |
| `Grouping.ScanDirectories` | sort_csk_image_dirs.py:147-201 | the nested loop ends with the dictionary the scan of all files computes, or reports the first file whose timestamp `datetime` refused |
| `Assignment.StampLess` | sort_csk_image_dirs.py:218 | `<` on datetime values, the key `sorted` compares: field by field from the year down to the second |
| `Assignment.SortByTime` | sort_csk_image_dirs.py:218 | `sorted(..., key=time)` is a permutation in non-decreasing time order |
| `Assignment.SortByTimeStable` | sort_csk_image_dirs.py:218 | entries with equal times keep their original relative order |
| `Assignment.SortByTimeIdempotent` | sort_csk_image_dirs.py:218 | a list already in time order is left as it is |
| `Assignment.FormatDate` | sort_csk_image_dirs.py:224 | `strftime('%Y%m%d')` fails iff the year is before 1900 |
| `Assignment.FormatDateFields` | sort_csk_image_dirs.py:224 | otherwise it gives 8 digits that read back as the year, the month and the day |
| `Assignment.NumberPadded` | sort_csk_image_dirs.py:224 | a number printed zero-padded to a width it fits in reads back as that number |
| `Text.PaddedNumber` | sort_csk_image_dirs.py:224 | printing a digit string's value zero-padded to its width gives the string back |
| `Assignment.FormatDateOfStamp` | sort_csk_image_dirs.py:183-185 | the date in the new name is the date digits of the image's own start stamp |
| `Assignment.TargetPath` | sort_csk_image_dirs.py:226-227 | the new directory: `path + site + "/" + date + "_" + site` |
| `Assignment.LogLine` | sort_csk_image_dirs.py:233 | the log message `"Moved directory " + old + " to " + new` |
| `Assignment.TargetsDiffer` | sort_csk_image_dirs.py:226-227 | different site labels give different target paths, whatever the dates |
| `Assignment.Placements` | sort_csk_image_dirs.py:220-242 | the inner loop over positions 0-2 from a given position: one pass per position, ending after the pass whose strftime fails |
| `Assignment.BatchEvents` | sort_csk_image_dirs.py:212-248 | one batch: the inner loop over the time-sorted tuples when it has three, otherwise the report of its key and size |
| `Assignment.PlaceOne` | sort_csk_image_dirs.py:224-233 | one pass of the inner loop produces a move or the strftime failure, nothing else |
| `Assignment.PlaceOneSpec` | sort_csk_image_dirs.py:224-233 | one pass fails iff the tuple's year is before 1900, naming `path + dir`; otherwise it moves `path + dir` to `path + site + "/" + date + "_" + site` where the date is 8 digits reading back as the tuple's year, month and day, and logs a line naming both |
| `Assignment.ThreePlacements` | sort_csk_image_dirs.py:220-242 | three tuples with years from 1900 give exactly three moves, one per position |
| `Assignment.ThreeMoves` | sort_csk_image_dirs.py:220-242 | the i-th of three such tuples goes to site i under its own date, with distinct targets |
| `Assignment.IncompleteBatchSkipped` | sort_csk_image_dirs.py:212-248 | a batch of size other than 3 yields only a report carrying its size and no log text |
| `Assignment.CompleteBatchPlaced` | sort_csk_image_dirs.py:212-242 | a batch of three with years from 1900 becomes three moves: the i-th in time order goes to `path + site i + "/" + YYYYMMDD + "_" + site i`, with its log line, and the three targets differ |
| `Assignment.Chain` | sort_csk_image_dirs.py:210-248 | the loop over batches: each batch's events follow the previous ones, and after a batch ends with the strftime failure nothing more happens |
| `Assignment.RunBatches` | sort_csk_image_dirs.py:210-248 | the events of the batches visited in a given key order, chained as above |
| `Assignment.ChainKeepsHalt` | sort_csk_image_dirs.py:210-224 | once a batch has ended with the strftime failure, later batches add nothing |
| `Assignment.ChainOrigin` | sort_csk_image_dirs.py:210-248 | every event of a run is an event of one of its batches |
| `Assignment.ChainMembership` | sort_csk_image_dirs.py:210-248 | without a strftime failure, an event is in the run iff it is in one of its batches |
| `Assignment.RunStopsAtFailure` | sort_csk_image_dirs.py:224 | after `strftime` fails no later batch is visited |
| `Assignment.PlacementsOrigin` | sort_csk_image_dirs.py:220-242 | every event of the inner loop places the tuple at some position at the site of that position |
| `Assignment.BatchOrigin` | sort_csk_image_dirs.py:210-248 | every event of a batch is its report or a placement of one of its tuples in time order |
| `Assignment.RunMovesEntries` | sort_csk_image_dirs.py:210-242 | every move of a run places a tuple of some batch of exactly three |
| `Assignment.RunBatchesCovers` | sort_csk_image_dirs.py:210 | for runs that `strftime` stops in neither order, every event of one complete visiting order of the keys is an event of any other complete order |
| `Assignment.RunBatchesOrderIndependent` | sort_csk_image_dirs.py:210 | two runs over all batches in different orders, neither stopped by strftime, contain the same events |
| `Assignment.LogOf` | sort_csk_image_dirs.py:236-237 | what one event appends to the log file: a move's message and a newline, nothing for a report or a failure |
| `Assignment.LogText` | sort_csk_image_dirs.py:236-237 | the log file's added text: each event's contribution, in event order |
| `Assignment.LogTextConcat` | sort_csk_image_dirs.py:236-237 | the log text of consecutive events is the concatenation of their log texts |
| `Assignment.PlaceBatch` | sort_csk_image_dirs.py:220-242 | the counted loop yields the batch's placements and appends one log line per move |
| `Assignment.Reorganize` | sort_csk_image_dirs.py:210-248 | visits distinct keys; its events are the batches' events in the visiting order up to the first strftime failure; without a failure every key is visited; the log holds one line per move |
| `Reorganizer.WorkingPath` | sort_csk_image_dirs.py:112-115 | the path extends the working directory by at most one "/", ends in "/", and is unchanged when it already did |
| `Reorganizer.WorkingPathIdempotent` | sort_csk_image_dirs.py:114-115 | normalising twice is normalising once |
| `Reorganizer.Strip` | sort_csk_image_dirs.py:142 | `str.strip()`: the reply without its leading and trailing Python 2 whitespace (space, tab, newline, carriage return, vertical tab, form feed) |
| `Reorganizer.Confirmation` | sort_csk_image_dirs.py:142-144 | lower-case, strip, then `reply[0]`: no answer when nothing is left (the IndexError), otherwise whether the first character is "y" |
| `Reorganizer.StripEmpty` | sort_csk_image_dirs.py:142 | `strip()` leaves nothing iff every character is blank |
| `Reorganizer.StripFirst` | sort_csk_image_dirs.py:142 | otherwise the stripped reply starts with the first non-blank character |
| `Reorganizer.ConfirmationSpec` | sort_csk_image_dirs.py:142-144 | `reply[0]` raises iff the reply is all blanks; the run goes on iff the first non-blank character is "y" or "Y" |
| `Reorganizer.Preflight` | sort_csk_image_dirs.py:86-144 | a run that gets past the prompt has a valid site sequence |
| `Reorganizer.PreflightSpec` | sort_csk_image_dirs.py:86-144 | the run reaches the directories iff there are three arguments that select sites, some entry is a candidate, and the operator confirmed; the candidates are then exactly the matching entries |
| `Reorganizer.Listed` | sort_csk_image_dirs.py:147-150 | the scan lists the leading candidates that `os.listdir` can read and stops at the first it cannot |
| `Reorganizer.Harvest` | sort_csk_image_dirs.py:147-201 | the scan ends in a listing failure, a refused timestamp, or the filled dictionary |
| `Reorganizer.HarvestGroupsByKey` | sort_csk_image_dirs.py:147-201 | a completed scan listed every candidate and holds under each key exactly that key's image tuples in scan order, none empty |
| `Reorganizer.HarvestStopsAtFirstBadTimestamp` | sort_csk_image_dirs.py:178-190 | a refused timestamp is the first image name in scan order whose fields are no datetime |
| `Reorganizer.EntryFromCandidate` | sort_csk_image_dirs.py:147-201 | every tuple in the dictionary names a candidate directory that holds an image file whose name gives the tuple's key and time |
| `Reorganizer.MovesStayInWorkingDirectory` | sort_csk_image_dirs.py:147-242 | every move takes a candidate directory to `path + site + "/" + date + "_" + site` for one of the three sites, each a non-empty name without "/", where the date is 8 digits and is the strftime date of an image file listed in that directory, with a log line naming both |
| `Reorganizer.ProcessCandidates` | sort_csk_image_dirs.py:147-248 | after confirmation the run ends with the scan's listing or timestamp failure and no move, or with the batches' events in an order of distinct keys, all keys unless strftime failed, and one log line per move |
| `Reorganizer.SortImageDirs` | sort_csk_image_dirs.py:84-248 | the run ends with the argument, candidate or reply outcome before any move; otherwise with the listing or timestamp failure of the scan and no move; otherwise its events are the batches' events in some order of distinct keys, all keys unless strftime failed, and the log holds one line per move |

## Left out

- Console output is not modelled: the usage text, the listings shown,
  the progress messages and the report of a skipped batch. The model
  keeps the outcome each message accompanies. It also leaves out the exit
  status.
- `raw_input` is a parameter, not a prompt. A reply that cannot be read
  (end of input) is not modelled.
- `os.getcwd`, `os.listdir`, the append to sorted.txt and `shutil.move`
  are parameters and returned events. They are not file-system effects.
  - A candidate that cannot be listed appears as a directory missing
    from the listings map, which ends the run with `ListingFailed`.
  - The order of `os.listdir` results is whatever the parameter gives.
- The effect of `shutil.move` on the file system is not modelled. Every
  move is recorded as an event with its source and target path.
  - A failing move (a missing site directory, the same directory moved
    twice) is not modelled.
  - When the target already exists as a directory, `shutil.move` puts the
    source inside it. Two batches with different prefixes but the same
    date have the same target, so the second directory ends up nested in
    the first. The model records both moves with the same target and does
    not model the nesting.
- The regular-expression engine is not modelled. The single pattern is
  written out as the character checks it performs on the end of the name.
- The `datetime` library is not modelled. Its validity rules are written
  as a calendar predicate, and `strftime('%Y%m%d')` as zero-padded
  fields.
- The text `str(datetime)` prints for each tuple is console output and is
  left out.
- The commented-out symlink and processed-file code (lines 204-205 and
  229-231) is not modelled.
- `Reorganizer.SortImageDirs` reads all listings it can before scanning,
  whereas the script lists each directory just before scanning it. A
  refused timestamp still comes before a later listing failure, so the
  outcome is the same. The interleaving of file-system reads is not
  modelled.
- `Assignment.RunBatchesOrderIndependent` and `Assignment.RunBatchesCovers` only cover runs that
  `strftime` stops in neither order, and compare their events as sets,
  not as multisets or with their positions.
- `Reorganizer.WorkingPath` requires a non-empty working directory, which
  `os.getcwd()` always returns.
