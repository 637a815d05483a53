/** Choosing the three site labels from the two command-line arguments
    (sort_csk_image_dirs.py lines 86-110). */
module Sites {
  import opened Text

  /** Why the arguments were refused; each ends the run with exit status 1. */
  datatype UsageError =
    | WrongArgumentCount(count: nat)
    | UnknownSiteSet(siteSet: string)
    | UnknownDirection(direction: string)

  /** The three sites of each set, listed north to south. */
  const ETH_SITES: seq<string> := ["Eyja", "Tind", "Hekla"]
  const NMS_SITES: seq<string> := ["nth", "mid", "sth"]

  function Reverse<T>(s: seq<T>): (r: seq<T>)
    ensures |r| == |s|
    ensures forall i :: 0 <= i < |s| ==> r[i] == s[|s| - 1 - i]
  {
    if s == [] then [] else Reverse(s[1..]) + [s[0]]
  }

  predicate Distinct<T(==)>(s: seq<T>) {
    forall i, j :: 0 <= i < j < |s| ==> s[i] != s[j]
  }

  /** A label is used as one directory level, so it holds no "/". */
  predicate IsLabel(l: string) {
    l != [] && '/' !in l
  }

  predicate IsSiteSequence(sites: seq<string>) {
    |sites| == 3 && Distinct(sites) && forall i :: 0 <= i < 3 ==> IsLabel(sites[i])
  }

  /** The site list for the lower-cased arguments: the set is checked first,
      then the direction; a descending pass reverses the list. */
  function SelectSites(direction: string, siteSet: string): (r: Result<seq<string>, UsageError>)
    ensures r.Success? <==>
      Lower(siteSet) in {"eth", "nms"} && Lower(direction) in {"asc", "desc"}
    ensures Lower(siteSet) !in {"eth", "nms"} ==> r == Failure(UnknownSiteSet(siteSet))
    ensures Lower(siteSet) in {"eth", "nms"} && Lower(direction) !in {"asc", "desc"} ==>
      r == Failure(UnknownDirection(direction))
    ensures r.Success? ==> IsSiteSequence(r.value)
    ensures r.Success? && Lower(direction) == "asc" ==>
      r.value == if Lower(siteSet) == "eth" then ETH_SITES else NMS_SITES
    ensures r.Success? && Lower(direction) == "desc" ==>
      r.value == if Lower(siteSet) == "eth" then ["Hekla", "Tind", "Eyja"] else ["sth", "mid", "nth"]
  {
    var siteSetArg := Lower(siteSet);
    if siteSetArg != "eth" && siteSetArg != "nms" then
      Failure(UnknownSiteSet(siteSet))
    else
      var sites := if siteSetArg == "eth" then ETH_SITES else NMS_SITES;
      var dir := Lower(direction);
      if dir == "desc" then Success(Reverse(sites))
      else if dir == "asc" then Success(sites)
      else Failure(UnknownDirection(direction))
  }

  /** The descending list is the ascending one read backwards, for either
      site set and however the arguments are capitalised. */
  lemma DescendingReversesAscending(asc: string, desc: string, siteSet: string)
    requires Lower(asc) == "asc" && Lower(desc) == "desc"
    requires Lower(siteSet) in {"eth", "nms"}
    ensures SelectSites(desc, siteSet).Success? && SelectSites(asc, siteSet).Success?
    ensures SelectSites(desc, siteSet).value == Reverse(SelectSites(asc, siteSet).value)
  {
  }
}
