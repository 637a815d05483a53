/** Picking the directories to process out of the working directory's
    listing (sort_csk_image_dirs.py lines 123-129): the listing is sorted,
    then every name that starts with six digits, a hyphen and five digits is
    kept, in that order. */
module Candidates {
  import opened Text

  /** `re.search('^\d{6}\-\d{5}', name)`: the pattern has no end anchor, so
      anything may follow the twelfth character. */
  predicate IsCandidateName(name: string) {
    |name| >= 12 && AllDigits(name[..6]) && name[6] == '-' && AllDigits(name[7..12])
  }

  predicate SortedNames(s: seq<string>) {
    forall i, j :: 0 <= i < j < |s| ==> LexLessEq(s[i], s[j])
  }

  function InsertName(x: string, s: seq<string>): seq<string> {
    if s == [] then [x]
    else if LexLessEq(x, s[0]) then [x] + s
    else [s[0]] + InsertName(x, s[1..])
  }

  lemma {:induction false} InsertNameSorted(x: string, s: seq<string>)
    requires SortedNames(s)
    ensures multiset(InsertName(x, s)) == multiset(s) + multiset{x}
    ensures SortedNames(InsertName(x, s))
  {
    if s == [] {
    } else if LexLessEq(x, s[0]) {
      forall j | 0 < j < |s| + 1 ensures LexLessEq(x, ([x] + s)[j]) {
        if j > 1 {
          LexTransitive(x, s[0], s[j - 1]);
        }
      }
    } else {
      LexTotal(x, s[0]);
      InsertNameSorted(x, s[1..]);
      assert s == [s[0]] + s[1..];
      var r := [s[0]] + InsertName(x, s[1..]);
      forall j | 0 < j < |r| ensures LexLessEq(s[0], r[j]) {
        assert r[j] in multiset(InsertName(x, s[1..]));
        assert r[j] == x || r[j] in s[1..];
      }
    }
  }

  /** Python's `list.sort()` on the names (byte-wise order). */
  function SortNames(s: seq<string>): (r: seq<string>)
    ensures multiset(r) == multiset(s)
    ensures SortedNames(r)
  {
    if s == [] then []
    else
      var rest := SortNames(s[1..]);
      InsertNameSorted(s[0], rest);
      assert s == [s[0]] + s[1..];
      InsertName(s[0], rest)
  }

  /** The reference definition: the names kept, in listing order. */
  function KeepCandidates(s: seq<string>): seq<string> {
    if s == [] then []
    else KeepCandidates(s[..|s| - 1]) + if IsCandidateName(s[|s| - 1]) then [s[|s| - 1]] else []
  }

  lemma {:induction false} KeepCandidatesCount(s: seq<string>, x: string)
    ensures multiset(KeepCandidates(s))[x] == if IsCandidateName(x) then multiset(s)[x] else 0
  {
    if s != [] {
      KeepCandidatesCount(s[..|s| - 1], x);
      assert s == s[..|s| - 1] + [s[|s| - 1]];
    }
  }

  lemma {:induction false} KeepCandidatesSorted(s: seq<string>)
    requires SortedNames(s)
    ensures SortedNames(KeepCandidates(s))
  {
    if s != [] {
      var init := s[..|s| - 1];
      var last := s[|s| - 1];
      KeepCandidatesSorted(init);
      var k := KeepCandidates(init);
      forall i | 0 <= i < |k| ensures LexLessEq(k[i], last) {
        KeepCandidatesCount(init, k[i]);
        assert k[i] in multiset(k);
        assert k[i] in init;
      }
    }
  }

  /** The directories the run works on: the listing sorted, then filtered. */
  function CandidateDirs(listing: seq<string>): seq<string> {
    KeepCandidates(SortNames(listing))
  }

  /** The candidates hold every matching name of the listing exactly as
      often as the listing does, and nothing else, in ascending byte-wise
      order. */
  lemma CandidateDirsSpec(listing: seq<string>)
    ensures forall x :: multiset(CandidateDirs(listing))[x] == if IsCandidateName(x) then multiset(listing)[x] else 0
    ensures forall x :: x in CandidateDirs(listing) <==> x in listing && IsCandidateName(x)
    ensures SortedNames(CandidateDirs(listing))
  {
    var names := SortNames(listing);
    var valid := CandidateDirs(listing);
    KeepCandidatesSorted(names);
    forall x ensures multiset(valid)[x] == if IsCandidateName(x) then multiset(listing)[x] else 0 {
      KeepCandidatesCount(names, x);
    }
    forall x ensures x in valid <==> x in listing && IsCandidateName(x) {
      KeepCandidatesCount(names, x);
      assert x in valid <==> x in multiset(valid);
      assert x in listing <==> x in multiset(listing);
    }
  }

  /** The loop at lines 126-129: sort the listing, then append each name
      that matches the pattern. */
  method SelectCandidates(listing: seq<string>) returns (valid: seq<string>)
    ensures valid == CandidateDirs(listing)
    ensures forall x :: multiset(valid)[x] == if IsCandidateName(x) then multiset(listing)[x] else 0
    ensures forall x :: x in valid <==> x in listing && IsCandidateName(x)
    ensures SortedNames(valid)
  {
    var names := SortNames(listing);
    valid := [];
    var i := 0;
    while i < |names|
      invariant 0 <= i <= |names|
      invariant valid == KeepCandidates(names[..i])
    {
      assert names[..i + 1] == names[..i] + [names[i]];
      if IsCandidateName(names[i]) {
        valid := valid + [names[i]];
      }
      i := i + 1;
    }
    assert names[..i] == names;
    CandidateDirsSpec(listing);
  }
}
