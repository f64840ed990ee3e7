/**
 * The search over the cached task list: a task is kept when its
 * lower-cased title or description contains the lower-cased query, and
 * the kept tasks stay in server order.
 */
module TaskSearch {
  import opened Text

  /** A task as the list view reads it from the server (`_id`, `title`, `description`, `date`, `time`). */
  datatype Task = Task(id: string, title: string, description: string, date: string, time: string)

  /** The filter predicate of the search handler. */
  predicate Matches(t: Task, query: string): (b: bool)
    ensures b ==> |query| <= |t.title| || |query| <= |t.description|
  {
    var q := LowerStr(query);
    Includes(LowerStr(t.title), q) || Includes(LowerStr(t.description), q)
  }

  /**
   * A task matches exactly when the lower-cased query occurs somewhere in its
   * lower-cased title or its lower-cased description.
   */
  lemma MatchesIff(t: Task, query: string)
    ensures Matches(t, query) <==>
      Occurs(LowerStr(t.title), LowerStr(query)) || Occurs(LowerStr(t.description), LowerStr(query))
  {
    IncludesIff(LowerStr(t.title), LowerStr(query));
    IncludesIff(LowerStr(t.description), LowerStr(query));
  }

  /** `tasks.filter(t => Matches(t, query))`. */
  function Filter(tasks: seq<Task>, query: string): (r: seq<Task>)
    ensures |r| <= |tasks|
    ensures forall i :: 0 <= i < |r| ==> Matches(r[i], query)
    ensures forall t :: t in tasks && Matches(t, query) ==> t in r
    ensures forall t :: t in r ==> t in tasks
  {
    if tasks == [] then []
    else if Matches(tasks[0], query) then [tasks[0]] + Filter(tasks[1..], query)
    else Filter(tasks[1..], query)
  }

  /** `r` is obtained from `s` by deleting elements, keeping the order of the rest. */
  predicate IsSubsequence<T(==)>(r: seq<T>, s: seq<T>)
    decreases |s|
  {
    if r == [] then true
    else if s == [] then false
    else (r[0] == s[0] && IsSubsequence(r[1..], s[1..])) || IsSubsequence(r, s[1..])
  }

  /**
   * Reference description of a search result, independent of how `Filter`
   * walks the list: an order-preserving subsequence of `tasks` holding every
   * copy of each matching task and nothing else.
   */
  ghost predicate IsSearchResult(r: seq<Task>, tasks: seq<Task>, query: string)
  {
    IsSubsequence(r, tasks) &&
    forall t :: multiset(r)[t] == (if Matches(t, query) then multiset(tasks)[t] else 0)
  }

  /** A subsequence holds no more copies of any element than its source. */
  lemma {:induction false} SubsequenceMultiset<T>(r: seq<T>, s: seq<T>)
    requires IsSubsequence(r, s)
    ensures multiset(r) <= multiset(s)
    decreases |s|
  {
    if r == [] {
    } else if r[0] == s[0] && IsSubsequence(r[1..], s[1..]) {
      SubsequenceMultiset(r[1..], s[1..]);
      assert r == [r[0]] + r[1..];
      assert s == [s[0]] + s[1..];
    } else {
      SubsequenceMultiset(r, s[1..]);
      assert s == [s[0]] + s[1..];
    }
  }

  /** The filter produces a search result. */
  lemma {:induction false} FilterIsSearchResult(tasks: seq<Task>, query: string)
    ensures IsSearchResult(Filter(tasks, query), tasks, query)
    decreases |tasks|
  {
    if tasks != [] {
      var rest := tasks[1..];
      FilterIsSearchResult(rest, query);
      assert tasks == [tasks[0]] + rest;
      var r := Filter(tasks, query);
      if Matches(tasks[0], query) {
        assert r[0] == tasks[0] && r[1..] == Filter(rest, query);
      }
    }
  }

  /** There is only one search result: any subsequence with the right counts is the filter's output. */
  lemma {:induction false} SearchResultUnique(r: seq<Task>, tasks: seq<Task>, query: string)
    requires IsSearchResult(r, tasks, query)
    ensures r == Filter(tasks, query)
    decreases |tasks|
  {
    if tasks == [] {
      return;
    }
    var t, rest := tasks[0], tasks[1..];
    assert tasks == [t] + rest;
    if Matches(t, query) {
      assert multiset(r)[t] == multiset(tasks)[t] > 0;
      assert r != [];
      if !(r[0] == t && IsSubsequence(r[1..], rest)) {
        SubsequenceMultiset(r, rest);
        assert false;
      }
      assert r == [t] + r[1..];
      forall x
        ensures multiset(r[1..])[x] == (if Matches(x, query) then multiset(rest)[x] else 0)
      {
        assert multiset(r)[x] == (if Matches(x, query) then multiset(tasks)[x] else 0);
      }
      SearchResultUnique(r[1..], rest, query);
    } else {
      assert multiset(r)[t] == 0;
      if r != [] && r[0] == t {
        assert false;
      }
      assert IsSubsequence(r, rest);
      forall x
        ensures multiset(r)[x] == (if Matches(x, query) then multiset(rest)[x] else 0)
      {
        assert multiset(r)[x] == (if Matches(x, query) then multiset(tasks)[x] else 0);
      }
      SearchResultUnique(r, rest, query);
    }
  }

  /** An empty query keeps every task, so the search view equals the whole list. */
  lemma {:induction false} FilterEmptyQuery(tasks: seq<Task>)
    ensures Filter(tasks, "") == tasks
    decreases |tasks|
  {
    if tasks != [] {
      assert LowerStr("") == "";
      IncludesEmpty(LowerStr(tasks[0].title));
      FilterEmptyQuery(tasks[1..]);
    }
  }

  /** A task matching a query also matches every query whose lower-cased text it includes. */
  lemma MatchesWeaker(t: Task, narrow: string, broad: string)
    requires Includes(LowerStr(narrow), LowerStr(broad))
    requires Matches(t, narrow)
    ensures Matches(t, broad)
  {
    if Includes(LowerStr(t.title), LowerStr(narrow)) {
      IncludesTransitive(LowerStr(t.title), LowerStr(narrow), LowerStr(broad));
    } else {
      IncludesTransitive(LowerStr(t.description), LowerStr(narrow), LowerStr(broad));
    }
  }

  /**
   * Filtering the result of a broad query with a narrower one gives the
   * narrow query's result on the whole list.
   */
  lemma {:induction false} FilterNarrowing(tasks: seq<Task>, broad: string, narrow: string)
    requires Includes(LowerStr(narrow), LowerStr(broad))
    ensures Filter(Filter(tasks, broad), narrow) == Filter(tasks, narrow)
    decreases |tasks|
  {
    if tasks != [] {
      FilterNarrowing(tasks[1..], broad, narrow);
      if Matches(tasks[0], narrow) {
        MatchesWeaker(tasks[0], narrow, broad);
      }
    }
  }

  /** Searching the search view again with the same query changes nothing. */
  lemma {:induction false} FilterIdempotent(tasks: seq<Task>, query: string)
    ensures Filter(Filter(tasks, query), query) == Filter(tasks, query)
  {
    IncludesSelf(LowerStr(query));
    FilterNarrowing(tasks, query, query);
  }

  /** The narrow result is an order-preserving part of the broad one, so broadening a query never loses tasks. */
  lemma FilterBroadening(tasks: seq<Task>, broad: string, narrow: string)
    requires Includes(LowerStr(narrow), LowerStr(broad))
    ensures IsSubsequence(Filter(tasks, narrow), Filter(tasks, broad))
  {
    FilterNarrowing(tasks, broad, narrow);
    FilterIsSearchResult(Filter(tasks, broad), narrow);
  }

  /** Case does not matter: a query and its lower-cased form keep the same tasks. */
  lemma {:induction false} FilterCaseInsensitive(tasks: seq<Task>, query: string)
    ensures Filter(tasks, LowerStr(query)) == Filter(tasks, query)
    decreases |tasks|
  {
    LowerStrIdempotent(query);
    if tasks != [] {
      FilterCaseInsensitive(tasks[1..], query);
    }
  }
}
