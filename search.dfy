/** The dashboard's search: `colleges.filter(c => c.college_name.toLowerCase()
    .includes(searchTerm.toLowerCase()))`, recomputed from the full list of colleges. */
module Search {
  import opened Wrappers
  import opened Text
  import opened Records

  /** The filter callback dereferences `college_name`; a record without one makes it
      throw, at the first such record in list order. */
  datatype SearchError = MissingCollegeName(at: nat)

  /** The case-insensitive substring test of the filter callback. */
  predicate Matches(name: string, term: string) {
    Contains(Lower(name), Lower(term))
  }

  /** A record the search keeps: it has a college name and that name matches. */
  predicate Kept(c: Record, term: string) {
    CollegeName(c).Some? && Matches(CollegeName(c).value, term)
  }

  function Filter(colleges: seq<Record>, term: string): Result<seq<Record>, SearchError> {
    if |colleges| == 0 then Ok([])
    else
      match CollegeName(colleges[0])
      case None => Err(MissingCollegeName(0))
      case Some(name) =>
        match Filter(colleges[1..], term)
        case Err(e) => Err(MissingCollegeName(e.at + 1))
        case Ok(rest) => Ok(if Matches(name, term) then [colleges[0]] + rest else rest)
  }

  /** `r` is `s` with some elements dropped and the rest kept in order. */
  ghost predicate IsSubsequence(r: seq<Record>, s: seq<Record>)
    decreases |s|
  {
    r == [] ||
    (s != [] && ((r[0] == s[0] && IsSubsequence(r[1..], s[1..])) || IsSubsequence(r, s[1..])))
  }

  lemma {:induction false} SubsequenceReflexive(s: seq<Record>)
    ensures IsSubsequence(s, s)
  {
    if s != [] {
      SubsequenceReflexive(s[1..]);
    }
  }

  /** Everything in a subsequence is in the sequence it was taken from. */
  lemma {:induction false} SubsequenceMembers(r: seq<Record>, s: seq<Record>)
    requires IsSubsequence(r, s)
    ensures forall x :: x in r ==> x in s
  {
    if r != [] {
      if r[0] == s[0] && IsSubsequence(r[1..], s[1..]) {
        SubsequenceMembers(r[1..], s[1..]);
        assert r == [r[0]] + r[1..];
        assert s == [s[0]] + s[1..];
      } else {
        SubsequenceMembers(r, s[1..]);
        assert s == [s[0]] + s[1..];
      }
    }
  }

  /** The search result keeps the colleges it selects in their original order. */
  lemma {:induction false} FilterKeepsOrder(colleges: seq<Record>, term: string)
    requires Filter(colleges, term).Ok?
    ensures IsSubsequence(Filter(colleges, term).value, colleges)
  {
    if |colleges| > 0 {
      FilterKeepsOrder(colleges[1..], term);
      var rest := Filter(colleges[1..], term).value;
      if Kept(colleges[0], term) {
        assert ([colleges[0]] + rest)[1..] == rest;
      }
    }
  }

  /** A college is in the search result exactly when it is one of the colleges and its
      lower-cased name includes the lower-cased search term; it appears there as often
      as among the colleges. */
  lemma {:induction false} FilterSelects(colleges: seq<Record>, term: string)
    requires Filter(colleges, term).Ok?
    ensures forall c :: c in Filter(colleges, term).value <==> c in colleges && Kept(c, term)
    ensures forall c :: multiset(Filter(colleges, term).value)[c] ==
                        if Kept(c, term) then multiset(colleges)[c] else 0
  {
    if |colleges| > 0 {
      FilterSelects(colleges[1..], term);
      assert colleges == [colleges[0]] + colleges[1..];
    }
  }

  /** The search fails exactly when some college has no name, and then it reports the
      first such college. */
  lemma {:induction false} FilterFailsAtFirstUnnamed(colleges: seq<Record>, term: string)
    ensures Filter(colleges, term).Err? <==>
            exists i :: 0 <= i < |colleges| && CollegeName(colleges[i]).None?
    ensures Filter(colleges, term).Err? ==>
              var at := Filter(colleges, term).error.at;
              at < |colleges| && CollegeName(colleges[at]).None? &&
              forall j :: 0 <= j < at ==> CollegeName(colleges[j]).Some?
  {
    if |colleges| > 0 && CollegeName(colleges[0]).Some? {
      var tail := colleges[1..];
      FilterFailsAtFirstUnnamed(tail, term);
      if exists i :: 0 <= i < |colleges| && CollegeName(colleges[i]).None? {
        var i :| 0 <= i < |colleges| && CollegeName(colleges[i]).None?;
        assert CollegeName(tail[i - 1]).None?;
      }
      if Filter(colleges, term).Err? {
        var at := Filter(tail, term).error.at;
        assert CollegeName(colleges[at + 1]).None?;
        forall j | 0 <= j < at + 1 ensures CollegeName(colleges[j]).Some? {
          if j > 0 {
            assert colleges[j] == tail[j - 1];
          }
        }
      }
    }
  }

  /** An empty search term keeps every college. */
  lemma {:induction false} FilterEmptyTermKeepsAll(colleges: seq<Record>)
    requires forall i :: 0 <= i < |colleges| ==> CollegeName(colleges[i]).Some?
    ensures Filter(colleges, "") == Ok(colleges)
  {
    if |colleges| > 0 {
      FilterEmptyTermKeepsAll(colleges[1..]);
      ContainsEmpty(Lower(CollegeName(colleges[0]).value));
      assert [colleges[0]] + colleges[1..] == colleges;
    }
  }

  /** Searching the search result again with the same term changes nothing. */
  lemma {:induction false} FilterIdempotent(colleges: seq<Record>, term: string)
    requires Filter(colleges, term).Ok?
    ensures Filter(Filter(colleges, term).value, term) == Filter(colleges, term)
  {
    if |colleges| > 0 {
      FilterIdempotent(colleges[1..], term);
      var rest := Filter(colleges[1..], term).value;
      if Kept(colleges[0], term) {
        assert ([colleges[0]] + rest)[1..] == rest;
      }
    }
  }

  /** Search terms that lower-case alike select the same colleges. */
  lemma {:induction false} FilterSameForCaseVariants(colleges: seq<Record>, t1: string, t2: string)
    requires Lower(t1) == Lower(t2)
    ensures Filter(colleges, t1) == Filter(colleges, t2)
  {
    if |colleges| > 0 {
      FilterSameForCaseVariants(colleges[1..], t1, t2);
    }
  }

  /** The letter case of the search term makes no difference. */
  lemma FilterIgnoresTermCase(colleges: seq<Record>, term: string)
    ensures Filter(colleges, term) == Filter(colleges, Lower(term))
  {
    LowerIdempotent(term);
    FilterSameForCaseVariants(colleges, term, Lower(term));
  }

  /** A search term that includes another (for instance, one typed further) selects a
      subsequence of what the shorter term selects. */
  lemma {:induction false} FilterNarrows(colleges: seq<Record>, wide: string, narrow: string)
    requires Contains(Lower(narrow), Lower(wide))
    requires Filter(colleges, wide).Ok?
    ensures Filter(colleges, narrow).Ok?
    ensures IsSubsequence(Filter(colleges, narrow).value, Filter(colleges, wide).value)
  {
    if |colleges| > 0 {
      var c := colleges[0];
      FilterNarrows(colleges[1..], wide, narrow);
      var rw, rn := Filter(colleges[1..], wide).value, Filter(colleges[1..], narrow).value;
      if Kept(c, narrow) {
        ContainsTransitive(Lower(CollegeName(c).value), Lower(narrow), Lower(wide));
        assert ([c] + rn)[1..] == rn;
        assert ([c] + rw)[1..] == rw;
      } else if Kept(c, wide) {
        assert ([c] + rw)[1..] == rw;
      }
    }
  }
}
